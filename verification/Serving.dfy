/**
 * What `ensure_chunk_for_read` and `read_at` do to the cache, told on the state before and after the call:
 * when they succeed and how they fail, what is fetched and what goes for it, and which chunks count as
 * used most recently.
 */
module Serving {
  import opened Wrappers
  import opened Mapper
  import opened Metadata
  import opened Store
  import opened Volume
  import opened Operations
  import opened Safety
  import opened Recovery
  import opened Eviction
  import opened Availability
  import opened Loops
  import opened CacheLimit

  /** The chunk can be used as it is: Clean or Dirty, with its file. */
  predicate Held(s: State, c: nat) {
    && c in s.rows && (s.rows[c].state == Clean || s.rows[c].state == Dirty)
    && s.rows[c].hasPath && c in s.files
  }

  /** The cloud answers for chunk c, with an object of the right length or with none. */
  predicate Obtainable(cfg: Config, s: State, c: nat) {
    c !in s.down && (c in s.cloud ==> |s.cloud[c]| == cfg.geo.ChunkLen(c))
  }

  /** What it answers: the object, or zeroes for a chunk never uploaded. */
  function Obtained(cfg: Config, s: State, c: nat): seq<byte> {
    if c in s.cloud then s.cloud[c] else Zeroes(cfg.geo.ChunkLen(c))
  }

  /** Chunk c was fetched and became a Clean chunk without generation, and then the cache was evicted. */
  ghost predicate WasFetched(cfg: Config, s: State, s': State, c: nat) {
    var data := Obtained(cfg, s, c);
    var row := Meta(true, Clean, cfg.geo.ChunkLen(c), None, None, Some(cfg.digest(data)), s.clock, None, 0);
    EvictedExactly(cfg, s.(files := s.files[c := data], rows := s.rows[c := row], clock := s.clock + 1), s')
  }

  lemma AfterFetching(cfg: Config, s: State, c: nat)
    requires Fetch(cfg, s, c).Ok?
    ensures var data := Obtained(cfg, s, c);
            && Fetch(cfg, s, c).value == data
            && Run(s, FetchTrace(cfg, s, c, data))
                == s.(files := s.files[c := data],
                      rows := s.rows[c := Meta(true, Clean, cfg.geo.ChunkLen(c), None, None, Some(cfg.digest(data)),
                                               s.clock, None, 0)],
                      clock := s.clock + 1)
  {
    var t := FetchTrace(cfg, s, c, Obtained(cfg, s, c));
    RunTwo(s, t[0], t[1]);
  }

  /** What the call returns: the chunk has to be held or obtainable, and not in Error. */
  ghost predicate Ensured<T>(cfg: Config, s: State, c: nat, r: Result<T>) {
    && (r.Ok? <==> !InError(s, c) && (Held(s, c) || Obtainable(cfg, s, c)))
    && (r.Err? ==> r.error == if !InError(s, c) && c in s.down then Io else Corrupt)
  }

  /** What it leaves: nothing changes unless a chunk had to be fetched, and was. */
  ghost predicate EnsuredState<T>(cfg: Config, s: State, s': State, c: nat, r: Result<T>) {
    if r.Ok? && !Held(s, c) then WasFetched(cfg, s, s', c) else s' == s
  }

  /**
   * `ensure_chunk_for_read` in every state whatever. It fetches exactly if the chunk is not held, and then
   * leaves the cache within its limit.
   */
  lemma EnsuresExactly(cfg: Config, s: State, c: nat)
    requires cfg.Valid()
    ensures var r := Ensure(cfg, s, c);
            Ensured(cfg, s, c, r) && EnsuredState(cfg, s, if r.Ok? then Run(s, r.value) else s, c, r)
  {
    hide Evict, EvictedExactly, Run, FetchTrace;
    var r := Ensure(cfg, s, c);
    if r.Ok? {
      if Held(s, c) {
        RunNothing(s);
      } else {
        AfterFetching(cfg, s, c);
        var t := FetchTrace(cfg, s, c, Obtained(cfg, s, c));
        EvictsExactly(cfg, Run(s, t));
        RunConcat(s, t, Evict(cfg, Run(s, t)));
      }
    }
  }

  lemma FetchedWithin(cfg: Config, s: State, s': State, c: nat)
    requires WasFetched(cfg, s, s', c)
    ensures WithinLimit(cfg, s'.rows) && CacheOnly(s, s')
  {
    hide WithinLimit;
  }

  // ---------------------------------------------------------------- how a read fails

  /**
   * Why a span cannot be read as things are: its chunk is in Error, or the cloud has an object of another
   * length; else it is an I/O error, be it of the cloud or of a file too short or evicted under the read.
   */
  predicate WhyUnserved(cfg: Config, s: State, c: nat, e: Error) {
    e == if InError(s, c) then Corrupt
         else if Held(s, c) || c in s.down then Io
         else if c in s.cloud && |s.cloud[c]| != cfg.geo.ChunkLen(c) then Corrupt else Io
  }

  /** The first span that is not served when its turn comes is the one that e is about. */
  ghost predicate FailsAs(cfg: Config, s: State, spans: seq<Span>, e: Error)
    decreases spans
  {
    && spans != []
    && if Served(cfg, s, spans[0]) && Ensure(cfg, s, spans[0].chunkId).Ok?
       then FailsAs(cfg, Passed(cfg, s, spans[0].chunkId), spans[1..], e)
       else WhyUnserved(cfg, s, spans[0].chunkId, e)
  }

  lemma ReadOneFails(cfg: Config, s: State, sp: Span, v: Cells)
    requires Represents(cfg, s, v) && ClockAhead(s) && sp.offsetInChunk + sp.len <= cfg.geo.ChunkLen(sp.chunkId)
    ensures ReadOne(cfg, s, sp).result.Ok? <==> Served(cfg, s, sp)
    ensures Served(cfg, s, sp) ==>
              Ensure(cfg, s, sp.chunkId).Ok? && Run(s, ReadOne(cfg, s, sp).trace) == Passed(cfg, s, sp.chunkId)
    ensures ReadOne(cfg, s, sp).result.Err? ==> WhyUnserved(cfg, s, sp.chunkId, ReadOne(cfg, s, sp).result.error)
  {
    hide Represents, Run, RoomFor, Evict, ClockAhead, Touch;
    ServedExactly(cfg, s, sp, v);
  }

  lemma {:induction false} ReadSpansFail(cfg: Config, s: State, spans: seq<Span>, start: nat, len: nat,
        requestOffset: nat, v: Cells)
    requires Represents(cfg, s, v) && ClockAhead(s) && Covers(spans, start, len, cfg.geo, requestOffset)
    ensures ReadSpans(cfg, s, spans).result.Err? ==> FailsAs(cfg, s, spans, ReadSpans(cfg, s, spans).result.error)
    decreases |spans|
  {
    hide Represents, Ensure, Run, Served, ClockAhead, Passed, ReadSpans, ReadOne, WhyUnserved;
    ReadUnfold(cfg, s, spans);
    if spans != [] {
      var c := spans[0].chunkId;
      ReadOneFails(cfg, s, spans[0], v);
      if Served(cfg, s, spans[0]) {
        PassedGoesOn(cfg, s, c, v);
        ReadSpansFail(cfg, Passed(cfg, s, c), spans[1..], start + spans[0].len, len - spans[0].len,
                      requestOffset + spans[0].len, v);
      }
    }
  }

  /** The error of a `read_at` that fails: the range, or the first span that is not served in its turn. */
  lemma ReadFailsAs(cfg: Config, s: State, offset: nat, len: nat, v: Cells)
    requires Represents(cfg, s, v) && ClockAhead(s)
    ensures offset + len > |v| ==> Read(cfg, s, offset, len) == Outcome([], Err(InvalidArgument))
    ensures offset + len <= |v| && Read(cfg, s, offset, len).result.Err? ==>
              FailsAs(cfg, s, Spans(offset, len, cfg.geo).value, Read(cfg, s, offset, len).result.error)
  {
    hide Represents, ReadSpans, FailsAs, Covers, ClockAhead;
    RepresentsSize(cfg, s, v);
    if offset + len <= |v| {
      SpansCover(offset, len, cfg.geo);
      ReadSpansFail(cfg, s, Spans(offset, len, cfg.geo).value, offset, len, 0, v);
    }
  }

  // ---------------------------------------------------------------- reads and the limit

  lemma TouchWithin(cfg: Config, s: State, c: nat)
    requires WithinLimit(cfg, s.rows)
    ensures WithinLimit(cfg, Run(s, Touch(s, c)).rows)
  {
    hide Bytes;
    RunNothing(s);
    if c in s.rows {
      var row := s.rows[c].(lastAccess := s.clock);
      RunOne(s, Upsert(c, row));
      CachedBytesUpsert(s.rows, c, row);
      assert MayGo(row) <==> MayGo(s.rows[c]);
    }
  }

  lemma ReadOneWithin(cfg: Config, s: State, sp: Span)
    requires cfg.Valid() && WithinLimit(cfg, s.rows)
    ensures WithinLimit(cfg, Run(s, ReadOne(cfg, s, sp).trace).rows)
  {
    hide Ensure, Run, WithinLimit, Touch, WasFetched;
    EnsuresExactly(cfg, s, sp.chunkId);
    RunNothing(s);
    var r := Ensure(cfg, s, sp.chunkId);
    if r.Ok? {
      if !Held(s, sp.chunkId) {
        FetchedWithin(cfg, s, Run(s, r.value), sp.chunkId);
      }
      TouchWithin(cfg, Run(s, r.value), sp.chunkId);
      RunConcat(s, r.value, Touch(Run(s, r.value), sp.chunkId));
    }
  }

  lemma {:induction false} ReadSpansWithin(cfg: Config, s: State, spans: seq<Span>)
    requires cfg.Valid() && WithinLimit(cfg, s.rows)
    ensures WithinLimit(cfg, Run(s, ReadSpans(cfg, s, spans).trace).rows)
    decreases |spans|
  {
    hide ReadOne, ReadSpans, Run, WithinLimit;
    ReadUnfold(cfg, s, spans);
    RunNothing(s);
    if spans != [] {
      var one := ReadOne(cfg, s, spans[0]);
      ReadOneWithin(cfg, s, spans[0]);
      if one.result.Ok? {
        ReadSpansWithin(cfg, Run(s, one.trace), spans[1..]);
        RunConcat(s, one.trace, ReadSpans(cfg, Run(s, one.trace), spans[1..]).trace);
      }
    }
  }

  /** `read_at` never takes the cache over its limit, however it ends. */
  lemma ReadKeepsLimit(cfg: Config, s: State, offset: nat, len: nat)
    requires cfg.Valid() && WithinLimit(cfg, s.rows)
    ensures WithinLimit(cfg, Run(s, Read(cfg, s, offset, len).trace).rows)
  {
    hide ReadSpans, Run, WithinLimit, Spans;
    RunNothing(s);
    var spans := Spans(offset, len, cfg.geo);
    if spans.Ok? {
      ReadSpansWithin(cfg, s, spans.value);
    }
  }

  // ---------------------------------------------------------------- most recently used

  /** Rows are stamped no earlier than `now`, and those of other chunks only as Missing. */
  predicate Stamps(t: seq<Effect>, now: nat, chunks: set<nat>) {
    forall i :: 0 <= i < |t| && t[i].Upsert? ==>
      t[i].row.lastAccess >= now && (t[i].c in chunks || t[i].row.state == Missing)
  }

  /** What such effects do to a row. */
  predicate Restamped(s: State, s': State, now: nat, chunks: set<nat>, d: nat) {
    || RowOf(s', d) == RowOf(s, d)
    || (d in s'.rows && s'.rows[d].lastAccess >= now && (d in chunks || s'.rows[d].state == Missing))
  }

  lemma {:induction false} StampsRestamp(s: State, t: seq<Effect>, now: nat, chunks: set<nat>, d: nat)
    requires Stamps(t, now, chunks)
    ensures Restamped(s, Run(s, t), now, chunks, d)
    decreases t
  {
    if t != [] {
      assert forall i :: 0 <= i < |t[1..]| ==> t[1..][i] == t[i + 1];
      StampsRestamp(Apply(s, t[0]), t[1..], now, chunks, d);
    }
  }

  lemma StampsConcat(a: seq<Effect>, b: seq<Effect>, now: nat, later: nat, chunks: set<nat>, more: set<nat>)
    requires Stamps(a, now, chunks) && Stamps(b, later, more) && now <= later && more <= chunks
    ensures Stamps(a + b, now, chunks)
  {
  }

  lemma {:induction false} EvictListStamps(cfg: Config, s: State, list: seq<nat>, cached: nat, chunks: set<nat>)
    requires forall c :: c in list ==> c in s.rows
    ensures Stamps(EvictList(cfg, s, list, cached), s.clock, chunks)
    decreases list
  {
    if list != [] && cached > cfg.low {
      var one := EvictOne(s, list[0]);
      EvictListStamps(cfg, Run(s, one), list[1..], SaturatingSub(cached, s.rows[list[0]].size), chunks);
      StampsConcat(one,
                   EvictList(cfg, Run(s, one), list[1..], SaturatingSub(cached, s.rows[list[0]].size)),
                   s.clock, Run(s, one).clock, chunks, chunks);
    }
  }

  lemma EvictStamps(cfg: Config, s: State, chunks: set<nat>)
    ensures Stamps(Evict(cfg, s), s.clock, chunks)
  {
    if CachedBytes(s.rows) > cfg.cacheMax {
      EvictListStamps(cfg, s, EvictableCleanChunks(s.rows), CachedBytes(s.rows), chunks);
    }
  }

  lemma EnsureStamps(cfg: Config, s: State, c: nat)
    requires Ensure(cfg, s, c).Ok?
    ensures Stamps(Ensure(cfg, s, c).value, s.clock, {c})
  {
    hide Run, Evict, Fetch;
    if !Resident(s, c) {
      var t := FetchTrace(cfg, s, c, Fetch(cfg, s, c).value);
      EvictStamps(cfg, Run(s, t), {c});
      StampsConcat(t, Evict(cfg, Run(s, t)), s.clock, Run(s, t).clock, {c}, {c});
    }
  }

  lemma ReadOneStamps(cfg: Config, s: State, sp: Span)
    ensures Stamps(ReadOne(cfg, s, sp).trace, s.clock, {sp.chunkId})
    ensures ReadOne(cfg, s, sp).result.Ok? ==> StampedAt(Run(s, ReadOne(cfg, s, sp).trace), sp.chunkId, s.clock)
  {
    hide Run, Ensure;
    var c := sp.chunkId;
    if Ensure(cfg, s, c).Ok? {
      var t := Ensure(cfg, s, c).value;
      var s1 := Run(s, t);
      EnsureStamps(cfg, s, c);
      StampsConcat(t, Touch(s1, c), s.clock, s1.clock, {c}, {c});
      if ReadOne(cfg, s, sp).result.Ok? {
        EnsureHasRow(cfg, s, c);
        RunConcat(s, t, Touch(s1, c));
        RunOne(s1, Upsert(c, s1.rows[c].(lastAccess := s1.clock)));
      }
    }
  }

  /** The chunk has a row, used no earlier than `now`. */
  predicate StampedAt(s: State, c: nat, now: nat) { c in s.rows && s.rows[c].lastAccess >= now }

  lemma EnsureHasRow(cfg: Config, s: State, c: nat)
    requires Ensure(cfg, s, c).Ok?
    ensures c in Run(s, Ensure(cfg, s, c).value).rows
  {
    hide Evict;
    if !Resident(s, c) {
      var t := FetchTrace(cfg, s, c, Fetch(cfg, s, c).value);
      RunTwo(s, t[0], t[1]);
      RunConcat(s, t, Evict(cfg, Run(s, t)));
    }
  }

  function ChunksOf(spans: seq<Span>): set<nat> { set sp | sp in spans :: sp.chunkId }

  lemma StaysStamped(s: State, t: seq<Effect>, now: nat, later: nat, chunks: set<nat>, c: nat)
    requires StampedAt(s, c, now) && Stamps(t, later, chunks) && now <= later
    ensures StampedAt(Run(s, t), c, now)
  {
    StampsRestamp(s, t, later, chunks, c);
    assert RowOf(Run(s, t), c) == RowOf(s, c) ==> Run(s, t).rows[c] == s.rows[c];
  }

  lemma {:induction false} ReadSpansStamp(cfg: Config, s: State, spans: seq<Span>)
    ensures Stamps(ReadSpans(cfg, s, spans).trace, s.clock, ChunksOf(spans))
    ensures ReadSpans(cfg, s, spans).result.Ok? ==>
              forall i :: 0 <= i < |spans| ==>
                StampedAt(Run(s, ReadSpans(cfg, s, spans).trace), spans[i].chunkId, s.clock)
    decreases |spans|
  {
    hide ReadOne, ReadSpans, Run, StampedAt;
    ReadUnfold(cfg, s, spans);
    if spans != [] {
      var one := ReadOne(cfg, s, spans[0]);
      var s1, rest := Run(s, one.trace), ReadSpans(cfg, Run(s, one.trace), spans[1..]);
      ReadOneStamps(cfg, s, spans[0]);
      assert spans[0] in spans && spans[0].chunkId in ChunksOf(spans);
      assert forall sp :: sp in spans[1..] ==> sp in spans;
      StampsConcat(one.trace, [], s.clock, s.clock, ChunksOf(spans), {});
      if one.result.Ok? {
        ReadSpansStamp(cfg, s1, spans[1..]);
        assert ChunksOf(spans[1..]) <= ChunksOf(spans);
        StampsConcat(one.trace, rest.trace, s.clock, s1.clock, ChunksOf(spans), ChunksOf(spans[1..]));
        if rest.result.Ok? {
          RunConcat(s, one.trace, rest.trace);
          StaysStamped(s1, rest.trace, s.clock, s1.clock, ChunksOf(spans[1..]), spans[0].chunkId);
          forall i | 0 < i < |spans|
            ensures StampedAt(Run(s1, rest.trace), spans[i].chunkId, s.clock)
          {
            assert spans[i] == spans[1..][i - 1];
            StampedEarlier(Run(s1, rest.trace), spans[i].chunkId, s1.clock, s.clock);
          }
        }
      }
    }
  }

  lemma StampedEarlier(s: State, c: nat, later: nat, now: nat)
    requires StampedAt(s, c, later) && now <= later
    ensures StampedAt(s, c, now)
  {
  }

  /**
   * A read that succeeds makes its chunks the most recently used: every chunk that is cached then and was
   * not read has an earlier access than each that was, and so goes before them in any eviction.
   */
  lemma ReadMakesRecent(cfg: Config, s: State, offset: nat, len: nat, i: nat, d: nat)
    requires ClockAhead(s) && Read(cfg, s, offset, len).result.Ok? && i < |Spans(offset, len, cfg.geo).value|
    ensures var c, s' := Spans(offset, len, cfg.geo).value[i].chunkId, Run(s, Read(cfg, s, offset, len).trace);
            && c in s'.rows
            && (d in s'.rows && Cached(s'.rows[d].state) && d !in ChunksOf(Spans(offset, len, cfg.geo).value) ==>
                  s'.rows[d].lastAccess < s'.rows[c].lastAccess)
  {
    hide ReadSpans, Run, Spans, ChunksOf;
    var spans := Spans(offset, len, cfg.geo).value;
    var t := ReadSpans(cfg, s, spans).trace;
    ReadSpansStamp(cfg, s, spans);
    StampsRestamp(s, t, s.clock, ChunksOf(spans), d);
    assert StampedAt(Run(s, t), spans[i].chunkId, s.clock);
    if d in Run(s, t).rows && RowOf(Run(s, t), d) == RowOf(s, d) {
      assert Run(s, t).rows[d] == s.rows[d];
    }
  }
}
