/**
 * Conditions that a caller can check before `write_at`, and that make every span of the request
 * safe to write when its turn comes.
 */
module Guards {
  import opened Wrappers
  import opened Mapper
  import opened Metadata
  import opened Wal
  import opened Store
  import opened Volume
  import opened Operations
  import opened Safety
  import opened Transparency
  import opened Recovery
  import opened Writing
  import opened Eviction

  // ---------------------------------------------------------------- what one span does to the cache

  lemma {:induction false} EvictListHeld(cfg: Config, s: State, list: seq<nat>, cached: nat)
    requires Evictable(s, list) && forall c :: c in list ==> c in s.rows && s.rows[c].pins == 0
    ensures HeldBytes(Run(s, EvictList(cfg, s, list, cached)).rows) == HeldBytes(s.rows)
    decreases list
  {
    if list != [] && cached > cfg.low {
      hide HeldBytes, CachedBytes;
      var s1, rest := Run(s, EvictOne(s, list[0])), SaturatingSub(cached, s.rows[list[0]].size);
      EvictOneStep(s, list[0]);
      EvictableRest(s, list);
      HeldBytesUpsert(s.rows, list[0], EvictedRow(s.rows[list[0]], s.clock));
      EvictListHeld(cfg, s1, list[1..], rest);
      RunConcat(s, EvictOne(s, list[0]), EvictList(cfg, s1, list[1..], rest));
    }
  }

  lemma EvictHeld(cfg: Config, s: State, v: Cells)
    requires Represents(cfg, s, v)
    ensures HeldBytes(Run(s, Evict(cfg, s)).rows) == HeldBytes(s.rows)
  {
    if CachedBytes(s.rows) > cfg.cacheMax {
      EvictableListing(cfg, s, v);
      EvictListHeld(cfg, s, EvictableCleanChunks(s.rows), CachedBytes(s.rows));
    }
  }

  lemma EnsureHeld(cfg: Config, s: State, c: nat, v: Cells)
    requires Represents(cfg, s, v) && Ensure(cfg, s, c).Ok?
    ensures HeldBytes(Run(s, Ensure(cfg, s, c).value).rows) <= HeldBytes(s.rows)
  {
    hide HeldBytes, CachedBytes, Evict, Represents;
    if !Resident(s, c) {
      var data := Fetch(cfg, s, c).value;
      FetchTransparent(cfg, s, c, v);
      FetchedRepresents(cfg, s, FetchTrace(cfg, s, c, data), v);
      AfterFetchRows(cfg, s, c, data);
      HeldBytesUpsert(s.rows, c, FetchedRow(cfg, s, c, data));
      EvictHeld(cfg, Run(s, FetchTrace(cfg, s, c, data)), v);
      RunConcat(s, FetchTrace(cfg, s, c, data), Evict(cfg, Run(s, FetchTrace(cfg, s, c, data))));
    }
  }

  lemma FetchedRepresents(cfg: Config, s: State, t: seq<Effect>, v: Cells)
    requires Transparent(cfg, s, t, v)
    ensures Represents(cfg, Run(s, t), v)
  {
  }

  lemma CommitRows(cfg: Config, s: State, sp: Span, data: seq<byte>)
    requires |data| == sp.len
    ensures Run(s, Commit(cfg, s, sp, data)).rows
         == s.rows[sp.chunkId := DirtyRow(cfg.geo.ChunkLen(sp.chunkId), Look(s, sp.chunkId).Gen() + 1, s.clock)]
  {
    var t := Commit(cfg, s, sp, data);
    hide Run, Overwrite;
    RunFour(s, t[0], t[1], t[2], t[3]);
    assert t == [t[0], t[1], t[2], t[3]];
  }

  lemma PrepareHeld(cfg: Config, s: State, sp: Span, v: Cells)
    requires Represents(cfg, s, v) && Prepare(cfg, s, sp).Ok?
    ensures HeldBytes(Run(s, Prepare(cfg, s, sp).value).rows) <= HeldBytes(s.rows)
  {
    if IsFull(cfg, sp) {
      Emptied(cfg, s, sp.chunkId, 0);
    } else {
      EnsureHeld(cfg, s, sp.chunkId, v);
    }
  }

  /** Writing a span pins at most its own chunk in the cache. */
  lemma SpanHeld(cfg: Config, s: State, sp: Span, data: seq<byte>, v: Cells)
    requires Represents(cfg, s, v) && Within(sp, data) && WriteSpan(cfg, s, sp, data).Ok?
    ensures HeldBytes(Run(s, WriteSpan(cfg, s, sp, data).value).rows)
         <= HeldBytes(s.rows) + cfg.geo.ChunkLen(sp.chunkId)
  {
    hide HeldBytes, Represents, Prepare, Run, Commit, Look;
    var s1 := Run(s, Prepare(cfg, s, sp).value);
    PrepareHeld(cfg, s, sp, v);
    CommitRows(cfg, s1, sp, SpanData(sp, data));
    HeldBytesUpsert(s1.rows, sp.chunkId,
                    DirtyRow(cfg.geo.ChunkLen(sp.chunkId), Look(s1, sp.chunkId).Gen() + 1, s1.clock));
    RunConcat(s, Prepare(cfg, s, sp).value, Commit(cfg, s1, sp, SpanData(sp, data)));
  }

  lemma EnsureElsewhere(cfg: Config, s: State, c: nat, d: nat, v: Cells)
    requires Represents(cfg, s, v) && Ensure(cfg, s, c).Ok? && d != c
    ensures UntouchedOrEvicted(Look(s, d), Look(Run(s, Ensure(cfg, s, c).value), d))
  {
    hide Evict, Represents, Look;
    if !Resident(s, c) {
      var data := Fetch(cfg, s, c).value;
      FetchTransparent(cfg, s, c, v);
      FetchedRepresents(cfg, s, FetchTrace(cfg, s, c, data), v);
      LookAfterRun(s, FetchTrace(cfg, s, c, data), c, d);
      EvictTouches(cfg, Run(s, FetchTrace(cfg, s, c, data)), d, v);
      RunConcat(s, FetchTrace(cfg, s, c, data), Evict(cfg, Run(s, FetchTrace(cfg, s, c, data))));
    }
  }

  lemma PrepareElsewhere(cfg: Config, s: State, sp: Span, d: nat, v: Cells)
    requires Represents(cfg, s, v) && Prepare(cfg, s, sp).Ok? && d != sp.chunkId
    ensures UntouchedOrEvicted(Look(s, d), Look(Run(s, Prepare(cfg, s, sp).value), d))
  {
    if IsFull(cfg, sp) {
      LookAfterRun(s, Prepare(cfg, s, sp).value, sp.chunkId, d);
    } else {
      EnsureElsewhere(cfg, s, sp.chunkId, d, v);
    }
  }

  /** To any other chunk, writing a span does no more than evict it. */
  lemma SpanElsewhere(cfg: Config, s: State, sp: Span, data: seq<byte>, d: nat, v: Cells)
    requires Represents(cfg, s, v) && Within(sp, data) && WriteSpan(cfg, s, sp, data).Ok? && d != sp.chunkId
    ensures UntouchedOrEvicted(Look(s, d), Look(Run(s, WriteSpan(cfg, s, sp, data).value), d))
  {
    hide Represents, Prepare, Run, Look;
    var s1 := Run(s, Prepare(cfg, s, sp).value);
    PrepareElsewhere(cfg, s, sp, d, v);
    CommitIsCommitAt(cfg, s1, sp, SpanData(sp, data));
    LookAfterRun(s1, Commit(cfg, s1, sp, SpanData(sp, data)), sp.chunkId, d);
    RunConcat(s, Prepare(cfg, s, sp).value, Commit(cfg, s1, sp, SpanData(sp, data)));
  }

  // ---------------------------------------------------------------- the guards

  /** A write that restarts at generation 0, as after a refetch, would not be stale either. */
  predicate NotStaleFromZero(sl: Slot) {
    Max(sl.latest.GetOr(0), 1) !in sl.synced
  }

  predicate DirtyHere(sl: Slot) {
    sl.row.Some? && sl.row.value.state == Dirty && sl.row.value.hasPath && sl.file.Some?
  }

  /**
   * The span may be written with the chunk's present generation; and if it is partial and the chunk
   * may have to be refetched, also with generation 0.
   */
  predicate Steady(cfg: Config, sl: Slot, sp: Span) {
    NotStale(sl) && (IsFull(cfg, sp) || DirtyHere(sl) || NotStaleFromZero(sl))
  }

  lemma SteadyStays(cfg: Config, a: Slot, b: Slot, sp: Span)
    requires Steady(cfg, a, sp) && UntouchedOrEvicted(a, b)
    ensures Steady(cfg, b, sp)
  {
  }

  lemma SteadyIsGuard(cfg: Config, s: State, sp: Span, v: Cells)
    requires Represents(cfg, s, v) && ClockAhead(s) && Steady(cfg, Look(s, sp.chunkId), sp)
    requires IsFull(cfg, sp) || Resident(s, sp.chunkId) || HeldBytes(s.rows) + cfg.geo.ChunkLen(sp.chunkId) <= cfg.low
    ensures SpanGuard(cfg, s, sp, v)
  {
    var c := sp.chunkId;
    if IsFull(cfg, sp) {
      Emptied(cfg, s, c, c);
    } else if Ensure(cfg, s, c).Ok? {
      EnsureGuard(cfg, s, sp, v);
    }
  }

  lemma EnsureGuard(cfg: Config, s: State, sp: Span, v: Cells)
    requires Represents(cfg, s, v) && ClockAhead(s) && Steady(cfg, Look(s, sp.chunkId), sp) && !IsFull(cfg, sp)
    requires Resident(s, sp.chunkId) || HeldBytes(s.rows) + cfg.geo.ChunkLen(sp.chunkId) <= cfg.low
    requires Ensure(cfg, s, sp.chunkId).Ok?
    ensures var s1 := Run(s, Ensure(cfg, s, sp.chunkId).value);
            Resident(s1, sp.chunkId) && NotStale(Look(s1, sp.chunkId))
  {
    hide HeldBytes, Evict, Represents;
    var c := sp.chunkId;
    EnsureLook(cfg, s, c, v);
    if !Resident(s, c) {
      FetchedSurvives(cfg, s, c, v);
      LookResident(Run(s, Ensure(cfg, s, c).value), c);
      LookResident(s, c);
    }
  }

  lemma LookResident(s: State, c: nat)
    ensures Resident(s, c) ==> Look(s, c).file.Some?
    ensures DirtyHere(Look(s, c)) ==> Resident(s, c)
  {
  }

  /**
   * Recovery restores freshness where it can: a journaled chunk that still has its file gets its
   * latest journaled generation back, so that the next write to it is journaled above all others.
   */
  lemma RecoveryRefreshes(cfg: Config, s: State, order: seq<nat>, c: nat)
    requires IsOrder(order, s.journal) && c in s.files && LatestLocal(s.journal, c).Some?
    ensures var sl := Look(Run(s, Recover(cfg, s, order)), c);
            && sl.latest == LatestLocal(s.journal, c) && sl.Gen() == sl.latest.value
            && (NotStale(sl) <==> sl.latest.value + 1 !in Synced(s.journal, c))
  {
    hide Recover, Run, LatestLocal, Synced;
    var s' := Run(s, Recover(cfg, s, order));
    RecoverLook(cfg, s, order, c);
    SummaryLatest(s.journal, c);
    LookRow(s, c);
    SameGeneration(Look(s', c),
                   Look(s, c).(row := RecoveredRow(cfg, FileOf(s, c), RowOf(s, c), Summarize(s.journal, c), 0)));
  }

  lemma SameGeneration(a: Slot, b: Slot)
    requires SameButTimes(a, b)
    ensures a.Gen() == b.Gen() && a.latest == b.latest && a.synced == b.synced
  {
    var x, y := a.(row := None), b.(row := None);
    assert x.latest == y.latest && x.synced == y.synced;
    if a.row.Some? {
      assert Timeless(a.row).value.localGen == Timeless(b.row).value.localGen;
    }
  }

  predicate DistinctChunks(spans: seq<Span>) {
    forall i, j :: 0 <= i < j < |spans| ==> spans[i].chunkId != spans[j].chunkId
  }

  function ChunkBytes(cfg: Config, spans: seq<Span>): nat {
    if spans == [] then 0 else cfg.geo.ChunkLen(spans[0].chunkId) + ChunkBytes(cfg, spans[1..])
  }

  /**
   * What a caller can check up front: the chunks of the request fit below the low watermark beside
   * everything that eviction may not touch, and no chunk of it would be written stale.
   */
  ghost predicate CallerGuard(cfg: Config, s: State, spans: seq<Span>) {
    && ClockAhead(s)
    && DistinctChunks(spans)
    && HeldBytes(s.rows) + ChunkBytes(cfg, spans) <= cfg.low
    && forall i :: 0 <= i < |spans| ==> Steady(cfg, Look(s, spans[i].chunkId), spans[i])
  }

  lemma CallerGuardTail(cfg: Config, s: State, spans: seq<Span>, data: seq<byte>, v: Cells)
    requires Represents(cfg, s, v) && AllWithin(spans, data) && spans != [] && WriteSpan(cfg, s, spans[0], data).Ok?
    requires CallerGuard(cfg, s, spans)
    ensures CallerGuard(cfg, Run(s, WriteSpan(cfg, s, spans[0], data).value), spans[1..])
  {
    hide HeldBytes, Represents, WriteSpan, Look, Run, Steady;
    var s1 := Run(s, WriteSpan(cfg, s, spans[0], data).value);
    ClockAheadRun(s, WriteSpan(cfg, s, spans[0], data).value);
    SpanHeld(cfg, s, spans[0], data, v);
    forall i | 0 <= i < |spans[1..]|
      ensures Steady(cfg, Look(s1, spans[1..][i].chunkId), spans[1..][i])
    {
      assert spans[1..][i] == spans[i + 1];
      SpanElsewhere(cfg, s, spans[0], data, spans[i + 1].chunkId, v);
      SteadyStays(cfg, Look(s, spans[i + 1].chunkId), Look(s1, spans[i + 1].chunkId), spans[i + 1]);
    }
  }

  /** A request that passes the caller's guard is safe to write, span after span. */
  lemma {:induction false} CallerGuardSuffices(cfg: Config, s: State, spans: seq<Span>, start: nat, len: nat,
        requestOffset: nat, data: seq<byte>, v: Cells)
    requires Represents(cfg, s, v) && AllWithin(spans, data) && Covers(spans, start, len, cfg.geo, requestOffset)
    requires CallerGuard(cfg, s, spans)
    ensures Guarded(cfg, s, spans, data, v, start)
    decreases |spans|
  {
    hide CallerGuard, Represents, WriteSpan, Look, Run, SpanGuard, Put;
    if spans != [] && WriteSpan(cfg, s, spans[0], data).Ok? {
      FirstSpanGuard(cfg, s, spans, data, v);
      SpanDone(cfg, s, spans[0], start, data, v);
      CallerGuardTail(cfg, s, spans, data, v);
      CallerGuardSuffices(cfg, Run(s, WriteSpan(cfg, s, spans[0], data).value), spans[1..], start + spans[0].len,
                          len - spans[0].len, requestOffset + spans[0].len, data,
                              Put(v, start, SpanData(spans[0], data)));
    }
  }

  lemma FirstSpanGuard(cfg: Config, s: State, spans: seq<Span>, data: seq<byte>, v: Cells)
    requires Represents(cfg, s, v) && spans != [] && CallerGuard(cfg, s, spans)
    ensures SpanGuard(cfg, s, spans[0], v)
  {
    hide HeldBytes, Represents, SpanGuard, Look, Steady;
    assert Steady(cfg, Look(s, spans[0].chunkId), spans[0]);
    SteadyIsGuard(cfg, s, spans[0], v);
  }

  lemma {:induction false} PieceChunk(q: nat, r: nat, len: nat, chunk: nat, requestOffset: nat, k: nat)
    requires r < chunk && k < |PiecesAt(q, r, len, chunk, requestOffset)|
    ensures PiecesAt(q, r, len, chunk, requestOffset)[k].chunkId == q + k
    decreases k
  {
    if k > 0 {
      var take := Min(chunk - r, len);
      PieceChunk(q + 1, 0, len - take, chunk, requestOffset + take, k - 1);
    }
  }

  lemma SpansDistinct(offset: nat, len: nat, g: Geometry)
    requires Spans(offset, len, g).Ok?
    ensures DistinctChunks(Spans(offset, len, g).value)
  {
    DivModFacts(offset, g.chunk);
    var q, r := offset / g.chunk, offset % g.chunk;
    var ps := PiecesAt(q, r, len, g.chunk, 0);
    assert Spans(offset, len, g).value == ps;
    forall i, j | 0 <= i < j < |ps|
      ensures ps[i].chunkId != ps[j].chunkId
    {
      PieceChunk(q, r, len, g.chunk, 0, i);
      PieceChunk(q, r, len, g.chunk, 0, j);
    }
  }

  /** The caller's guard for a whole request. */
  ghost predicate CallerWriteGuard(cfg: Config, s: State, offset: nat, len: nat) {
    Spans(offset, len, cfg.geo).Ok? ==>
      var spans := Spans(offset, len, cfg.geo).value;
      && ClockAhead(s)
      && HeldBytes(s.rows) + ChunkBytes(cfg, spans) <= cfg.low
      && forall i :: 0 <= i < |spans| ==> Steady(cfg, Look(s, spans[i].chunkId), spans[i])
  }

  /**
   * Room and freshness, checked once before the call, make the whole of `write_at` safe: no span of
   * it is written over a chunk that was evicted under it, and none is taken for uploaded later.
   */
  lemma CallerGuardIsWriteGuard(cfg: Config, s: State, offset: nat, data: seq<byte>, v: Cells)
    requires Represents(cfg, s, v) && CallerWriteGuard(cfg, s, offset, |data|)
    ensures WriteGuard(cfg, s, offset, data, v)
  {
    var r := Spans(offset, |data|, cfg.geo);
    if r.Ok? {
      SpansWithin(offset, data, cfg.geo);
      SpansCover(offset, |data|, cfg.geo);
      SpansDistinct(offset, |data|, cfg.geo);
      CallerGuardSuffices(cfg, s, r.value, offset, |data|, 0, data, v);
    }
  }
}
