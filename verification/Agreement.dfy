/**
 * The journal and the chunk states agree: in runs whose writes are all fresh, a chunk's latest
 * journaled generation is known to be in the cloud exactly when its row does not say Dirty. So
 * recovery, which trusts the journal, never turns an acknowledged, not yet uploaded write Clean.
 */
module Agreement {
  import opened Wrappers
  import opened Mapper
  import opened Metadata
  import opened Wal
  import opened Store
  import opened Volume
  import opened Operations
  import opened Safety
  import opened Transparency
  import opened Recovery
  import opened Writing
  import opened Runs

  /** No upload is journaled of a later generation than the chunk's latest local one. */
  predicate SyncedBelow(sl: Slot) {
    sl.latest.Some? ==> forall g :: g in sl.synced ==> g <= sl.latest.value
  }

  /**
   * Between operations: what is journaled and Dirty is still to be uploaded; and, if `clean`, what is
   * journaled and Clean or Missing has been.
   */
  predicate SlotAgrees(clean: bool, sl: Slot) {
    && SyncedBelow(sl)
    && (sl.latest.Some? && sl.State() == Dirty ==> !sl.Committed() && sl.row.value.localGen == sl.latest)
    && (clean && sl.latest.Some? && (sl.State() == Clean || sl.State() == Missing || sl.State() == Fetching) ==>
          sl.Committed())
  }

  /** After any effect: recovery will restore agreement. */
  predicate SlotReconcilable(clean: bool, sl: Slot) {
    && SyncedBelow(sl)
    && (clean && sl.latest.Some? && sl.file.None? ==>
          sl.State() == Clean || sl.State() == Missing || sl.State() == Fetching ==> sl.Committed())
  }

  predicate ChunkAgrees(clean: bool, s: State, c: nat) { SlotAgrees(clean, Look(s, c)) }

  predicate ChunkReconcilable(clean: bool, s: State, c: nat) { SlotReconcilable(clean, Look(s, c)) }

  ghost predicate Agreed(clean: bool, s: State) { forall c: nat :: ChunkAgrees(clean, s, c) }

  ghost predicate Reconcilable(clean: bool, s: State) { forall c: nat :: ChunkReconcilable(clean, s, c) }

  lemma AgreedIsReconcilable(clean: bool, s: State)
    requires Agreed(clean, s)
    ensures Reconcilable(clean, s)
  {
    forall c: nat
      ensures ChunkReconcilable(clean, s, c)
    {
      assert ChunkAgrees(clean, s, c);
    }
  }

  /** Every state on the way through t is reconcilable. */
  ghost predicate ReconcilableAlong(clean: bool, s: State, t: seq<Effect>)
    decreases t
  {
    Reconcilable(clean, s) && (t != [] ==> ReconcilableAlong(clean, Apply(s, t[0]), t[1..]))
  }

  /** An operation keeps the agreement, and stays reconcilable on the way. */
  ghost predicate Keeps(clean: bool, s: State, t: seq<Effect>) {
    ReconcilableAlong(clean, s, t) && Agreed(clean, Run(s, t))
  }

  lemma {:induction false} AlongAt(clean: bool, s: State, t: seq<Effect>, k: nat)
    requires ReconcilableAlong(clean, s, t) && k <= |t|
    ensures Reconcilable(clean, Run(s, t[..k]))
    decreases k
  {
    if k > 0 {
      AlongAt(clean, Apply(s, t[0]), t[1..], k - 1);
      assert t[..k][0] == t[0] && t[..k][1..] == t[1..][..k - 1];
    }
  }

  lemma {:induction false} AlongConcat(clean: bool, s: State, a: seq<Effect>, b: seq<Effect>)
    requires ReconcilableAlong(clean, s, a) && ReconcilableAlong(clean, Run(s, a), b)
    ensures ReconcilableAlong(clean, s, a + b)
    decreases a
  {
    if a == [] {
      assert a + b == b;
    } else {
      AlongConcat(clean, Apply(s, a[0]), a[1..], b);
      assert (a + b)[0] == a[0] && (a + b)[1..] == a[1..] + b;
    }
  }

  lemma KeepsConcat(clean: bool, s: State, a: seq<Effect>, b: seq<Effect>)
    requires Keeps(clean, s, a) && Keeps(clean, Run(s, a), b)
    ensures Keeps(clean, s, a + b)
  {
    AlongConcat(clean, s, a, b);
    RunConcat(s, a, b);
  }

  lemma KeepsNothing(clean: bool, s: State)
    requires Agreed(clean, s)
    ensures Keeps(clean, s, [])
  {
    AgreedIsReconcilable(clean, s);
  }

  // ---------------------------------------------------------------- one chunk

  predicate ReconcilableAt(clean: bool, sl: Slot, t: seq<Effect>)
    decreases t
  {
    SlotReconcilable(clean, sl) && (t != [] ==> ReconcilableAt(clean, ApplyAt(sl, t[0]), t[1..]))
  }

  lemma {:induction false} AlongOne(clean: bool, s: State, t: seq<Effect>, c: nat)
    requires Reconcilable(clean, s) && About(t, c) && ReconcilableAt(clean, Look(s, c), t)
    ensures ReconcilableAlong(clean, s, t)
    decreases t
  {
    if t != [] {
      var s' := Apply(s, t[0]);
      forall d: nat
        ensures ChunkReconcilable(clean, s', d)
      {
        LookAfter(s, t[0], d);
        assert ChunkReconcilable(clean, s, d);
      }
      LookAfter(s, t[0], c);
      AlongOne(clean, s', t[1..], c);
    }
  }

  lemma KeepsOne(clean: bool, s: State, t: seq<Effect>, c: nat)
    requires Agreed(clean, s) && About(t, c) && ReconcilableAt(clean, Look(s, c), t)
    requires SlotAgrees(clean, RunAt(Look(s, c), t))
    ensures Keeps(clean, s, t)
  {
    AgreedIsReconcilable(clean, s);
    AlongOne(clean, s, t, c);
    forall d: nat
      ensures ChunkAgrees(clean, Run(s, t), d)
    {
      LookAfterRun(s, t, c, d);
      assert ChunkAgrees(clean, s, d);
    }
  }

  lemma AtTwo(clean: bool, sl: Slot, a: Effect, b: Effect)
    requires SlotReconcilable(clean, sl) && SlotReconcilable(clean, ApplyAt(sl, a))
    requires SlotReconcilable(clean, ApplyAt(ApplyAt(sl, a), b))
    ensures ReconcilableAt(clean, sl, [a, b]) && RunAt(sl, [a, b]) == ApplyAt(ApplyAt(sl, a), b)
  {
    assert [a, b][1..] == [b] && [b][1..] == [];
    assert RunAt(ApplyAt(sl, a), [b]) == ApplyAt(ApplyAt(sl, a), b);
  }

  lemma AtCons(clean: bool, sl: Slot, a: Effect, t: seq<Effect>)
    requires SlotReconcilable(clean, sl) && ReconcilableAt(clean, ApplyAt(sl, a), t)
    ensures ReconcilableAt(clean, sl, [a] + t) && RunAt(sl, [a] + t) == RunAt(ApplyAt(sl, a), t)
  {
    assert ([a] + t)[1..] == t;
  }

  lemma AtFour(clean: bool, sl: Slot, t: seq<Effect>)
    requires |t| == 4 && SlotReconcilable(clean, sl)
    requires var s1 := ApplyAt(sl, t[0]);
             var s2 := ApplyAt(s1, t[1]);
             var s3 := ApplyAt(s2, t[2]);
             SlotReconcilable(clean, s1) && SlotReconcilable(clean, s2) && SlotReconcilable(clean, s3)
                 && SlotReconcilable(clean, ApplyAt(s3, t[3]))
    ensures ReconcilableAt(clean, sl, t)
    ensures RunAt(sl, t) == ApplyAt(ApplyAt(ApplyAt(ApplyAt(sl, t[0]), t[1]), t[2]), t[3])
  {
    var s1 := ApplyAt(sl, t[0]);
    AtTwo(clean, ApplyAt(s1, t[1]), t[2], t[3]);
    AtCons(clean, s1, t[1], [t[2], t[3]]);
    AtCons(clean, sl, t[0], [t[1], t[2], t[3]]);
    assert t == [t[0]] + [t[1], t[2], t[3]] && [t[1], t[2], t[3]] == [t[1]] + [t[2], t[3]];
  }

  // ---------------------------------------------------------------- operations that do not write

  lemma EvictOneKeeps(clean: bool, s: State, c: nat)
    requires Agreed(clean, s) && c in s.rows && s.rows[c].state == Clean
    ensures Keeps(clean, s, EvictOne(s, c))
  {
    var sl, up := Look(s, c), Upsert(c, EvictedRow(s.rows[c], s.clock));
    assert ChunkAgrees(clean, s, c);
    if s.rows[c].hasPath && c in s.files {
      assert EvictOne(s, c) == [RemoveFile(c), up];
      AtTwo(clean, sl, RemoveFile(c), up);
    } else {
      assert EvictOne(s, c) == [up] && [up][1..] == [];
    }
    KeepsOne(clean, s, EvictOne(s, c), c);
  }

  lemma {:induction false} EvictListKeeps(clean: bool, cfg: Config, s: State, list: seq<nat>, cached: nat)
    requires Agreed(clean, s)
    requires forall c :: c in list ==> c in s.rows && s.rows[c].state == Clean
    requires forall i, j :: 0 <= i < j < |list| ==> list[i] != list[j]
    ensures Keeps(clean, s, EvictList(cfg, s, list, cached))
    decreases list
  {
    KeepsNothing(clean, s);
    if list != [] && cached > cfg.low {
      var c := list[0];
      EvictOneKeeps(clean, s, c);
      forall d | d in list[1..]
        ensures d in Run(s, EvictOne(s, c)).rows && Run(s, EvictOne(s, c)).rows[d].state == Clean
      {
        assert d in list && d != c && About(EvictOne(s, c), c);
        Elsewhere(s, EvictOne(s, c), c, d);
      }
      EvictListKeeps(clean, cfg, Run(s, EvictOne(s, c)), list[1..], SaturatingSub(cached, s.rows[c].size));
      KeepsConcat(clean, s, EvictOne(s, c),
                  EvictList(cfg, Run(s, EvictOne(s, c)), list[1..], SaturatingSub(cached, s.rows[c].size)));
    }
  }

  lemma EvictKeeps(clean: bool, cfg: Config, s: State)
    requires Agreed(clean, s)
    ensures Keeps(clean, s, Evict(cfg, s))
  {
    KeepsNothing(clean, s);
    if CachedBytes(s.rows) > cfg.cacheMax {
      EvictListKeeps(clean, cfg, s, EvictableCleanChunks(s.rows), CachedBytes(s.rows));
    }
  }

  lemma FetchKeeps(clean: bool, cfg: Config, s: State, c: nat, data: seq<byte>, v: Cells)
    requires Agreed(clean, s) && Represents(cfg, s, v) && !Resident(s, c)
    requires RowOf(s, c).Some? ==> s.rows[c].state != ChunkState.Error
    ensures Keeps(clean, s, FetchTrace(cfg, s, c, data))
  {
    var sl, t := Look(s, c), FetchTrace(cfg, s, c, data);
    assert ChunkAgrees(clean, s, c) && ChunkSettled(cfg, s, v, c);
    AtTwo(clean, sl, t[0], t[1]);
    KeepsOne(clean, s, t, c);
  }

  lemma EnsureKeeps(clean: bool, cfg: Config, s: State, c: nat, v: Cells)
    requires Agreed(clean, s) && Represents(cfg, s, v) && Ensure(cfg, s, c).Ok?
    ensures Keeps(clean, s, Ensure(cfg, s, c).value)
  {
    KeepsNothing(clean, s);
    if !Resident(s, c) {
      var data := Fetch(cfg, s, c).value;
      FetchKeeps(clean, cfg, s, c, data, v);
      EvictKeeps(clean, cfg, Run(s, FetchTrace(cfg, s, c, data)));
      KeepsConcat(clean, s, FetchTrace(cfg, s, c, data), Evict(cfg, Run(s, FetchTrace(cfg, s, c, data))));
    }
  }

  lemma TouchKeeps(clean: bool, s: State, c: nat)
    requires Agreed(clean, s)
    ensures Keeps(clean, s, Touch(s, c))
  {
    KeepsNothing(clean, s);
    if Touch(s, c) != [] {
      assert ChunkAgrees(clean, s, c);
      assert Touch(s, c)[1..] == [];
      KeepsOne(clean, s, Touch(s, c), c);
    }
  }

  lemma {:induction false} ReadSpansKeeps(clean: bool, cfg: Config, s: State, spans: seq<Span>, v: Cells)
    requires Agreed(clean, s) && Represents(cfg, s, v)
    ensures Keeps(clean, s, ReadSpans(cfg, s, spans).trace)
    decreases spans
  {
    hide Agreed, Represents, Ensure, Run, Look, Touch;
    KeepsNothing(clean, s);
    if spans != [] && Ensure(cfg, s, spans[0].chunkId).Ok? {
      ReadStepKeeps(clean, cfg, s, spans[0].chunkId, v);
      var t := Ensure(cfg, s, spans[0].chunkId).value;
      var t' := t + Touch(Run(s, t), spans[0].chunkId);
      ReadSpansKeeps(clean, cfg, Run(s, t'), spans[1..], v);
      KeepsConcat(clean, s, t', ReadSpans(cfg, Run(s, t'), spans[1..]).trace);
    }
  }

  lemma ReadStepKeeps(clean: bool, cfg: Config, s: State, c: nat, v: Cells)
    requires Agreed(clean, s) && Represents(cfg, s, v) && Ensure(cfg, s, c).Ok?
    ensures var t := Ensure(cfg, s, c).value;
            && Keeps(clean, s, t)
            && Keeps(clean, s, t + Touch(Run(s, t), c)) && Agreed(clean, Run(s, t + Touch(Run(s, t), c)))
            && Represents(cfg, Run(s, t + Touch(Run(s, t), c)), v)
  {
    var t := Ensure(cfg, s, c).value;
    EnsureKeeps(clean, cfg, s, c, v);
    TouchKeeps(clean, Run(s, t), c);
    KeepsConcat(clean, s, t, Touch(Run(s, t), c));
    ReadOneTransparent(cfg, s, c, v);
  }

  lemma SyncOneKeeps(clean: bool, cfg: Config, s: State, c: nat)
    requires Agreed(clean, s) && c in s.rows && s.rows[c].state == Dirty
    ensures Keeps(clean, s, SyncOne(cfg, s, c).trace)
  {
    var sl, t := Look(s, c), SyncOne(cfg, s, c).trace;
    assert ChunkAgrees(clean, s, c);
    KeepsNothing(clean, s);
    if !s.rows[c].hasPath {
    } else if c !in s.files {
      assert t[1..] == [];
      KeepsOne(clean, s, t, c);
    } else if c in s.down {
      AtTwo(clean, sl, t[0], t[1]);
      KeepsOne(clean, s, t, c);
    } else {
      AtFour(clean, sl, t);
      KeepsOne(clean, s, t, c);
    }
  }

  lemma {:induction false} SyncListKeeps(clean: bool, cfg: Config, s: State, list: seq<nat>)
    requires Agreed(clean, s) && ToSync(s, list)
    ensures Keeps(clean, s, SyncList(cfg, s, list).trace)
    decreases list
  {
    KeepsNothing(clean, s);
    if list != [] {
      SyncOneKeeps(clean, cfg, s, list[0]);
      if SyncOne(cfg, s, list[0]).result.Ok? {
        SyncOneLeavesRest(cfg, s, list);
        SyncListKeeps(clean, cfg, Run(s, SyncOne(cfg, s, list[0]).trace), list[1..]);
        KeepsConcat(clean, s, SyncOne(cfg, s, list[0]).trace,
                    SyncList(cfg, Run(s, SyncOne(cfg, s, list[0]).trace), list[1..]).trace);
      }
    }
  }

  lemma SyncKeeps(clean: bool, cfg: Config, s: State)
    requires Agreed(clean, s)
    ensures Keeps(clean, s, Sync(cfg, s).trace)
  {
    SyncListKeeps(clean, cfg, s, DirtyChunks(s.rows));
    var u := SyncList(cfg, s, DirtyChunks(s.rows));
    if u.result.Ok? {
      EvictKeeps(clean, cfg, Run(s, u.trace));
      KeepsConcat(clean, s, u.trace, Evict(cfg, Run(s, u.trace)));
    }
  }

  // ---------------------------------------------------------------- writes

  /** Every span written finds, when its turn comes, a row whose generation is not behind the journal. */
  ghost predicate FreshSpans(cfg: Config, s: State, spans: seq<Span>, data: seq<byte>)
    requires AllWithin(spans, data)
    decreases spans
  {
    spans != [] && WriteSpan(cfg, s, spans[0], data).Ok? ==>
      && Fresh(Look(Run(s, Prepare(cfg, s, spans[0]).value), spans[0].chunkId))
      && FreshSpans(cfg, Run(s, WriteSpan(cfg, s, spans[0], data).value), spans[1..], data)
  }

  /** A fresh commit leaves the chunk Dirty with an uncommitted latest generation. */
  lemma CommitAgrees(clean: bool, sl: Slot, c: nat, off: nat, data: seq<byte>, n: nat, txid: nat, now: nat)
    requires Fresh(sl) && SlotReconcilable(clean, sl)
    ensures var t := CommitAt(sl, c, off, data, n, txid, now);
            ReconcilableAt(clean, sl, t) && SlotAgrees(clean, RunAt(sl, t))
  {
    var t := CommitAt(sl, c, off, data, n, txid, now);
    CommitEnds(sl, c, off, data, n, txid, now);
    assert ApplyAt(sl, t[0]) == sl;
    AtFour(clean, sl, t);
  }

  lemma CommitKeeps(clean: bool, cfg: Config, s: State, sp: Span, data: seq<byte>)
    requires |data| == sp.len && Fresh(Look(s, sp.chunkId)) && Reconcilable(clean, s)
    requires forall d: nat :: d != sp.chunkId ==> ChunkAgrees(clean, s, d)
    ensures Keeps(clean, s, Commit(cfg, s, sp, data))
  {
    var c, t := sp.chunkId, Commit(cfg, s, sp, data);
    CommitIsCommitAt(cfg, s, sp, data);
    assert ChunkReconcilable(clean, s, c);
    CommitAgrees(clean, Look(s, c), c, sp.offsetInChunk, data, cfg.geo.ChunkLen(c), s.nextTxid, s.clock);
    AlongOne(clean, s, t, c);
    forall d: nat
      ensures ChunkAgrees(clean, Run(s, t), d)
    {
      LookAfterRun(s, t, c, d);
      assert d != c ==> ChunkAgrees(clean, s, d);
    }
  }

  lemma FullPrepareAgrees(clean: bool, cfg: Config, s: State, sp: Span)
    requires Agreed(clean, s) && IsFull(cfg, sp)
    ensures var t := Prepare(cfg, s, sp).value;
            && ReconcilableAlong(clean, s, t) && Reconcilable(clean, Run(s, t))
            && forall d: nat :: d != sp.chunkId ==> ChunkAgrees(clean, Run(s, t), d)
  {
    var t := Prepare(cfg, s, sp).value;
    AgreedIsReconcilable(clean, s);
    assert ChunkReconcilable(clean, s, sp.chunkId);
    assert t[1..] == [t[1]] && t[1..][1..] == [];
    AlongOne(clean, s, t, sp.chunkId);
    AlongAt(clean, s, t, 2);
    assert t[..2] == t;
    forall d: nat | d != sp.chunkId
      ensures ChunkAgrees(clean, Run(s, t), d)
    {
      LookAfterRun(s, t, sp.chunkId, d);
      assert ChunkAgrees(clean, s, d);
    }
  }

  lemma PrepareAgrees(clean: bool, cfg: Config, s: State, sp: Span, v: Cells)
    requires Agreed(clean, s) && Represents(cfg, s, v) && Prepare(cfg, s, sp).Ok?
    ensures var t := Prepare(cfg, s, sp).value;
            && ReconcilableAlong(clean, s, t) && Reconcilable(clean, Run(s, t))
            && forall d: nat :: d != sp.chunkId ==> ChunkAgrees(clean, Run(s, t), d)
  {
    if IsFull(cfg, sp) {
      FullPrepareAgrees(clean, cfg, s, sp);
    } else {
      EnsureKeeps(clean, cfg, s, sp.chunkId, v);
      AgreedIsReconcilable(clean, Run(s, Ensure(cfg, s, sp.chunkId).value));
    }
  }

  lemma WriteSpanKeeps(clean: bool, cfg: Config, s: State, sp: Span, data: seq<byte>, v: Cells)
    requires Agreed(clean, s) && Represents(cfg, s, v) && Within(sp, data) && WriteSpan(cfg, s, sp, data).Ok?
    requires Fresh(Look(Run(s, Prepare(cfg, s, sp).value), sp.chunkId))
    ensures Keeps(clean, s, WriteSpan(cfg, s, sp, data).value)
  {
    hide Represents, Prepare, Run, Commit, Look, Agreed, Reconcilable, Fresh;
    var s1 := Run(s, Prepare(cfg, s, sp).value);
    PrepareAgrees(clean, cfg, s, sp, v);
    CommitKeeps(clean, cfg, s1, sp, SpanData(sp, data));
    AlongConcat(clean, s, Prepare(cfg, s, sp).value, Commit(cfg, s1, sp, SpanData(sp, data)));
    RunConcat(s, Prepare(cfg, s, sp).value, Commit(cfg, s1, sp, SpanData(sp, data)));
  }

  lemma {:induction false} WriteSpansKeeps(clean: bool, cfg: Config, s: State, spans: seq<Span>, start: nat, len: nat,
        requestOffset: nat, data: seq<byte>, v: Cells)
    requires Agreed(clean, s) && Request(cfg, s, spans, start, len, requestOffset, data, v)
    requires AllWithin(spans, data) && FreshSpans(cfg, s, spans, data)
    ensures Keeps(clean, s, WriteSpans(cfg, s, spans, data).trace)
    decreases |spans|
  {
    hide Request, WriteSpan, AfterFirst, PutFirst, Agreed, Run, Look, Fresh, Prepare;
    KeepsNothing(clean, s);
    if spans != [] && WriteSpan(cfg, s, spans[0], data).Ok? {
      RequestRepresents(cfg, s, spans, start, len, requestOffset, data, v);
      RequestFacts(cfg, s, spans, start, len, requestOffset, data, v);
      WriteSpanKeeps(clean, cfg, s, spans[0], data, v);
      RequestTail(cfg, s, spans, start, len, requestOffset, data, v);
      UnfoldRequest(cfg, s, spans, data, 0);
      AfterFirstIs(cfg, s, spans, data);
      KeptAgrees(clean, s, WriteSpan(cfg, s, spans[0], data).value);
      WriteSpansKeeps(clean, cfg, AfterFirst(cfg, s, spans, data), spans[1..], start + spans[0].len, len - spans[0].len,
                      requestOffset + spans[0].len, data, PutFirst(v, start, spans, requestOffset, data));
      KeepsConcat(clean, s, WriteSpan(cfg, s, spans[0], data).value,
                  WriteSpans(cfg, AfterFirst(cfg, s, spans, data), spans[1..], data).trace);
    }
  }

  lemma KeptAgrees(clean: bool, s: State, t: seq<Effect>)
    requires Keeps(clean, s, t)
    ensures Agreed(clean, Run(s, t))
  {
  }

  lemma RequestRepresents(cfg: Config, s: State, spans: seq<Span>, start: nat, len: nat, requestOffset: nat,
        data: seq<byte>, v: Cells)
    requires Request(cfg, s, spans, start, len, requestOffset, data, v)
    ensures Represents(cfg, s, v)
  {
  }

  lemma AfterFirstIs(cfg: Config, s: State, spans: seq<Span>, data: seq<byte>)
    requires spans != [] && Within(spans[0], data) && WriteSpan(cfg, s, spans[0], data).Ok?
    ensures AfterFirst(cfg, s, spans, data) == Run(s, WriteSpan(cfg, s, spans[0], data).value)
  {
  }

  ghost predicate FreshWrite(cfg: Config, s: State, offset: nat, data: seq<byte>) {
    Spans(offset, |data|, cfg.geo).Ok? ==>
      (SpansWithin(offset, data, cfg.geo); FreshSpans(cfg, s, Spans(offset, |data|, cfg.geo).value, data))
  }

  lemma WriteKeeps(clean: bool, cfg: Config, s: State, offset: nat, data: seq<byte>, v: Cells)
    requires Agreed(clean, s) && Represents(cfg, s, v) && WriteGuard(cfg, s, offset, data, v)
    requires FreshWrite(cfg, s, offset, data)
    ensures Keeps(clean, s, Write(cfg, s, offset, data).trace)
  {
    KeepsNothing(clean, s);
    if Spans(offset, |data|, cfg.geo).Ok? {
      var spans := Spans(offset, |data|, cfg.geo).value;
      RequestOfWrite(cfg, s, offset, data, v);
      SpansWithin(offset, data, cfg.geo);
      WriteSpansKeeps(clean, cfg, s, spans, offset, |data|, 0, data, v);
      EvictAfterKeeps(clean, cfg, s, WriteSpans(cfg, s, spans, data).trace);
    }
  }

  lemma EvictAfterKeeps(clean: bool, cfg: Config, s: State, t: seq<Effect>)
    requires Keeps(clean, s, t)
    ensures Keeps(clean, s, t + Evict(cfg, Run(s, t)))
  {
    EvictKeeps(clean, cfg, Run(s, t));
    KeepsConcat(clean, s, t, Evict(cfg, Run(s, t)));
  }

  // ---------------------------------------------------------------- recovery and loss

  lemma RecoverAgrees(clean: bool, cfg: Config, s: State, order: seq<nat>)
    requires Reconcilable(clean, s) && IsOrder(order, s.journal)
    ensures Agreed(clean, Run(s, Recover(cfg, s, order)))
  {
    var s' := Run(s, Recover(cfg, s, order));
    forall d: nat
      ensures ChunkAgrees(clean, s', d)
    {
      assert ChunkReconcilable(clean, s, d);
      RecoverLook(cfg, s, order, d);
      LookRow(s, d);
      var sl := Look(s, d);
      RecoveredAgrees(clean, cfg, sl);
      AgreesIgnoresTimes(clean, Look(s', d),
                         sl.(row := RecoveredRow(cfg, sl.file, sl.row, Summary(sl.latest, sl.Committed()), 0)));
    }
  }

  lemma RecoveredAgrees(clean: bool, cfg: Config, sl: Slot)
    requires SlotReconcilable(clean, sl)
    ensures SlotAgrees(clean, sl.(row := RecoveredRow(cfg, sl.file, sl.row, Summary(sl.latest, sl.Committed()), 0)))
  {
  }

  lemma AgreesIgnoresTimes(clean: bool, a: Slot, b: Slot)
    requires SameButTimes(a, b) && SlotAgrees(clean, b)
    ensures SlotAgrees(clean, a)
  {
    var x, y := a.(row := None), b.(row := None);
    assert x.latest == y.latest && x.synced == y.synced;
    if a.row.Some? {
      var m, n := Timeless(a.row).value, Timeless(b.row).value;
      assert m.state == n.state && m.localGen == n.localGen;
    }
    assert a.State() == b.State();
  }

  /**
   * When recovery restores full agreement, exactly: if no journaled, Clean or Missing chunk without a file
   * lacks its upload record. (A sync that dies before that record leaves one if the file is lost, too.)
   */
  lemma RecoveryAgreesExactly(cfg: Config, s: State, order: seq<nat>)
    requires Reconcilable(false, s) && IsOrder(order, s.journal)
    ensures Agreed(true, Run(s, Recover(cfg, s, order))) <==> Reconcilable(true, s)
  {
    hide Agreed, Recover, Run, IsOrder, ChunkReconcilable;
    if Reconcilable(true, s) {
      RecoverAgrees(true, cfg, s, order);
    } else {
      var c: nat :| !ChunkReconcilable(true, s, c);
      assert ChunkReconcilable(false, s, c);
      RecoverIsRecovered(cfg, s, order);
      StaysUnreconciled(cfg, s, Run(s, Recover(cfg, s, order)), c);
    }
  }

  lemma StaysUnreconciled(cfg: Config, s: State, s': State, c: nat)
    requires ChunkReconcilable(false, s, c) && !ChunkReconcilable(true, s, c) && IsRecovered(cfg, s, s')
    ensures !Agreed(true, s')
  {
    hide LatestLocal, Synced;
    assert ChunkRecovered(cfg, s, s', c);
    var a := Look(s', c);
    var b := Look(s, c).(row := RecoveredRow(cfg, FileOf(s, c), RowOf(s, c), Summarize(s.journal, c), 0));
    StateOfTimeless(a.row, b.row);
    var x, y := a.(row := None), b.(row := None);
    assert x.latest == y.latest && x.synced == y.synced && a.State() == b.State();
    LookRow(s, c);
    assert !ChunkAgrees(true, s', c);
  }

  lemma RecoveryStepReconcilable(clean: bool, cfg: Config, s: State, e: Effect)
    requires RecoveryStep(cfg, s, e) && Reconcilable(clean, s)
    ensures Reconcilable(clean, Apply(s, e))
  {
    forall d: nat
      ensures ChunkReconcilable(clean, Apply(s, e), d)
    {
      assert ChunkReconcilable(clean, s, d);
      LookAfter(s, e, d);
    }
  }

  lemma {:induction false} RecoveryStepsReconcilable(clean: bool, cfg: Config, s: State, t: seq<Effect>)
    requires RecoverySteps(cfg, s, t) && Reconcilable(clean, s)
    ensures ReconcilableAlong(clean, s, t)
    decreases t
  {
    if t != [] {
      RecoveryStepReconcilable(clean, cfg, s, t[0]);
      RecoveryStepsReconcilable(clean, cfg, Apply(s, t[0]), t[1..]);
    }
  }

  lemma ValidateReconcilable(clean: bool, cfg: Config, s: State)
    requires Reconcilable(clean, s)
    ensures Reconcilable(clean, Run(s, Validate(s))) && Run(s, Validate(s)).journal == s.journal
  {
    hide Reconcilable, ReconcilableAlong, Salvageable, Recoverable, ValidateList, RecoverySteps, Run;
    var t := Validate(s);
    ValidateSteps(cfg, s, AllChunks(s.rows));
    RecoveryStepsReconcilable(clean, cfg, s, t);
    AlongAt(clean, s, t, |t|);
    RecoveryStepsSafe(cfg, s, t, [], |t|);
    assert t[..|t|] == t;
  }

  lemma FsckAgrees(clean: bool, cfg: Config, s: State, order: seq<nat>)
    requires Reconcilable(clean, s) && IsOrder(order, s.journal)
    ensures Agreed(clean, Run(s, Fsck(cfg, s, order)))
  {
    hide Reconcilable, Agreed, Recover, Run, Validate;
    ValidateReconcilable(clean, cfg, s);
    RecoverAgrees(clean, cfg, Run(s, Validate(s)), order);
    RunConcat(s, Validate(s), Recover(cfg, Run(s, Validate(s)), order));
  }

  lemma LoadedReconcilable(clean: bool, s: State)
    requires Reconcilable(clean, s)
    ensures Reconcilable(clean, Loaded(s))
  {
    forall d: nat
      ensures ChunkReconcilable(clean, Loaded(s), d)
    {
      assert ChunkReconcilable(clean, s, d) && Look(Loaded(s), d) == Look(s, d);
    }
  }

  lemma ReopenAgrees(clean: bool, cfg: Config, s: State, order: seq<nat>)
    requires Reconcilable(clean, s) && IsOrder(order, s.journal)
    ensures Agreed(clean, Reopened(cfg, s, order))
  {
    LoadedReconcilable(clean, s);
    RecoverAgrees(clean, cfg, Loaded(s), order);
  }

  lemma LossReconcilable(clean: bool, s: State, gone: set<nat>)
    requires Agreed(clean, s)
    ensures Reconcilable(clean, LoseFiles(s, gone))
  {
    forall d: nat
      ensures ChunkReconcilable(clean, LoseFiles(s, gone), d)
    {
      assert ChunkAgrees(clean, s, d);
      assert Look(LoseFiles(s, gone), d) == if d in gone then Look(s, d).(file := None) else Look(s, d);
    }
  }

  lemma VanishingAgrees(clean: bool, s: State, gone: set<nat>)
    requires Agreed(clean, s)
    ensures Agreed(clean, LoseFiles(s, gone))
  {
    forall d: nat
      ensures ChunkAgrees(clean, LoseFiles(s, gone), d)
    {
      assert ChunkAgrees(clean, s, d);
      assert Look(LoseFiles(s, gone), d) == if d in gone then Look(s, d).(file := None) else Look(s, d);
    }
  }

  /** Without `clean`, it does not matter what files are lost when. */
  lemma AnyLossReconcilable(clean: bool, s: State, gone: set<nat>)
    requires Reconcilable(clean, s) && (clean ==> gone == {})
    ensures Reconcilable(clean, LoseFiles(s, gone))
  {
    forall d: nat
      ensures ChunkReconcilable(clean, LoseFiles(s, gone), d)
    {
      assert ChunkReconcilable(clean, s, d);
      assert Look(LoseFiles(s, gone), d) == if d in gone then Look(s, d).(file := None) else Look(s, d);
    }
  }

  lemma {:induction false} BootsReconcilable(clean: bool, cfg: Config, s: State, boots: seq<Boot>)
    requires Reconcilable(clean, s) && BootsFit(cfg, s, boots)
    requires clean ==> forall i :: 0 <= i < |boots| ==> boots[i].gone == {}
    ensures Reconcilable(clean, AfterBoots(cfg, s, boots)) && AfterBoots(cfg, s, boots).journal == s.journal
    decreases boots
  {
    hide Reconcilable, Run, Recover, RecoverySteps, IsOrder, Salvageable, Recoverable, LoseFiles;
    if boots != [] {
      var b := boots[0];
      var f := Booted(s, b);
      AnyLossReconcilable(clean, s, b.gone);
      LoadedReconcilable(clean, LoseFiles(s, b.gone));
      RecoverIsSteps(cfg, f, b.order);
      RecoveryStepsReconcilable(clean, cfg, f, Recover(cfg, f, b.order));
      AlongAt(clean, f, Recover(cfg, f, b.order), b.at);
      BootKeeps(cfg, s, b, []);
      assert forall i :: 0 <= i < |boots[1..]| ==> boots[1..][i] == boots[i + 1];
      BootsReconcilable(clean, cfg, AfterBoot(cfg, s, b), boots[1..]);
    }
  }

  lemma TornReconcilable(clean: bool, s: State, t: seq<Effect>, k: nat, junk: seq<byte>)
    requires k <= |t| && ReconcilableAlong(clean, s, t)
    ensures Reconcilable(clean, Torn(s, t, k, junk))
  {
    AlongAt(clean, s, t, k);
    if k < |t| && t[k].WriteFile? && |junk| <= |t[k].data| {
      var s1 := Run(s, t[..k]);
      forall d: nat
        ensures ChunkReconcilable(clean, Tear(s1, t[k].c, t[k].offset, junk), d)
      {
        assert ChunkReconcilable(clean, s1, d);
        LookTorn(s1, t[k].c, t[k].offset, junk, d);
      }
    }
  }

  // ---------------------------------------------------------------- runs

  /** Every write of the step is fresh, and nothing vanishes unnoticed that matters. */
  ghost predicate FreshStep(cfg: Config, s: State, step: Step) {
    && VanishesSafely(s, step)
    && ((step.Completes? || step.Crashes?) && step.op.WriteOp? ==> FreshWrite(cfg, s, step.op.offset, step.op.data))
  }

  lemma OpAlong(clean: bool, cfg: Config, s: State, op: Op, v: Cells)
    requires Agreed(clean, s) && Represents(cfg, s, v)
    requires op.WriteOp? ==> WriteGuard(cfg, s, op.offset, op.data, v) && FreshWrite(cfg, s, op.offset, op.data)
    ensures ReconcilableAlong(clean, Begin(s, op), TraceOf(cfg, s, op))
    ensures OrderFits(s, op) ==> Agreed(clean, Run(Begin(s, op), TraceOf(cfg, s, op)))
  {
    AgreedIsReconcilable(clean, s);
    KeepsNothing(clean, s);
    match op
    case ReadOp(offset, len) =>
      if Spans(offset, len, cfg.geo).Ok? {
        ReadSpansKeeps(clean, cfg, s, Spans(offset, len, cfg.geo).value, v);
      }
    case WriteOp(offset, data) => WriteKeeps(clean, cfg, s, offset, data, v);
    case SyncOp => SyncKeeps(clean, cfg, s);
    case EvictOp => EvictKeeps(clean, cfg, s);
    case FsckOp(order) =>
      FsckIsSteps(cfg, s, order);
      RecoveryStepsReconcilable(clean, cfg, s, Fsck(cfg, s, order));
      if OrderFits(s, op) {
        FsckAgrees(clean, cfg, s, order);
      }
    case OpenOp(order) =>
      LoadedReconcilable(clean, s);
      RecoverIsSteps(cfg, Loaded(s), order);
      RecoveryStepsReconcilable(clean, cfg, Loaded(s), Recover(cfg, Loaded(s), order));
      if OrderFits(s, op) {
        ReopenAgrees(clean, cfg, s, order);
      }
  }

  /**
   * Journal and state agreement is an invariant of every step of a fresh run, crashes at any effect
   * and losses of local files included, unless files are lost between a crash and the boot that lasts.
   */
  lemma StepAgrees(clean: bool, cfg: Config, s: State, v: Cells, step: Step)
    requires Agreed(clean, s) && Represents(cfg, s, v)
    requires Possible(cfg, s, step) && Safe(cfg, s, v, step) && FreshStep(cfg, s, step)
    requires clean ==> KeepsFilesDown(step)
    ensures Agreed(clean, After(cfg, s, step))
  {
    match step
    case Completes(op) => OpAlong(clean, cfg, s, op, v);
    case Crashes(op, at, junk, boots, order) =>
      OpAlong(clean, cfg, s, op, v);
      TornReconcilable(clean, Begin(s, op), TraceOf(cfg, s, op), at, junk);
      BootsReconcilable(clean, cfg, CrashState(cfg, s, step), boots);
      ReopenAgrees(clean, cfg, AfterBoots(cfg, CrashState(cfg, s, step), boots), order);
    case Loses(gone, live, order) =>
      LossReconcilable(clean, s, gone);
      if live {
        FsckAgrees(clean, cfg, LoseFiles(s, gone), order);
      } else {
        ReopenAgrees(clean, cfg, LoseFiles(s, gone), order);
      }
    case Vanishes(gone) => VanishingAgrees(clean, s, gone);
    case Outage(down) =>
      assert forall d: nat :: Look(s.(down := down), d) == Look(s, d);
      assert forall d: nat :: ChunkAgrees(clean, s, d) ==> ChunkAgrees(clean, s.(down := down), d);
  }

  ghost predicate FreshRun(cfg: Config, s: State, steps: seq<Step>)
    requires PossibleRun(cfg, s, steps)
    decreases steps
  {
    steps != [] ==> FreshStep(cfg, s, steps[0]) && FreshRun(cfg, After(cfg, s, steps[0]), steps[1..])
  }

  /**
   * Over every fresh run, what the journal says is still to be uploaded is so wherever the state is Dirty;
   * and, if no files are lost while the machine is down after a crash, the other way round, too.
   */
  lemma {:induction false} JournalAgreesOverRuns(clean: bool, cfg: Config, s: State, v: Cells, steps: seq<Step>)
    requires Agreed(clean, s) && Represents(cfg, s, v) && (clean ==> AllKeepFilesDown(steps))
    requires PossibleRun(cfg, s, steps) && GuardedRun(cfg, s, v, steps) && FreshRun(cfg, s, steps)
    ensures Agreed(clean, RunAll(cfg, s, steps))
    decreases steps
  {
    hide Agreed, Represents, Possible, Safe, FreshStep, After, Expected;
    if steps != [] {
      assert forall i :: 0 <= i < |steps[1..]| ==> steps[1..][i] == steps[i + 1];
      StepAgrees(clean, cfg, s, v, steps[0]);
      StepRepresents(cfg, s, v, steps[0]);
      JournalAgreesOverRuns(clean, cfg, After(cfg, s, steps[0]), Expected(cfg, s, v, steps[0]), steps[1..]);
    }
  }

  /** Recovery never turns an acknowledged write that is still to be uploaded into a Clean chunk. */
  lemma DirtyStaysDirty(cfg: Config, s: State, order: seq<nat>, c: nat)
    requires Agreed(false, s) && IsOrder(order, s.journal)
    requires c in s.rows && s.rows[c].state == Dirty && c in s.files && LatestLocal(s.journal, c).Some?
    ensures var s' := Run(s, Recover(cfg, s, order));
            c in s'.rows && s'.rows[c].state == Dirty && FileOf(s', c) == FileOf(s, c)
  {
    assert ChunkAgrees(false, s, c);
    RecoveryKeepsRest(cfg, s, order, c);
    var s' := Run(s, Recover(cfg, s, order));
    StateOfTimeless(RowOf(s', c), RecoveredRow(cfg, FileOf(s, c), RowOf(s, c), Summarize(s.journal, c), 0));
  }
}
