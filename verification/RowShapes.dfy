/**
 * What every row of the table looks like after every run that can happen, guarded or not: which of its
 * columns are set in which state, and that its time stamps are in the past.
 */
module RowShapes {
  import opened Wrappers
  import opened Mapper
  import opened Metadata
  import opened Wal
  import opened Store
  import opened Operations
  import opened Transparency
  import opened Recovery
  import opened Writing
  import opened Runs

  /**
   * Exactly the Clean, Dirty and Uploading rows have a path, and only they a size; exactly the last two are
   * dirty since some time, and have a generation and none in the cloud; a generation in the cloud is the
   * local one; a Clean row has a checksum; nothing is pinned, and nothing is left Fetching.
   */
  predicate Shaped(m: Meta) {
    && m.state != Fetching && m.pins == 0
    && (m.hasPath <==> m.state == Clean || m.state == Dirty || m.state == Uploading)
    && (!m.hasPath ==> m.size == 0)
    && (m.dirtySince.Some? <==> m.state == Dirty || m.state == Uploading)
    && (m.state == Dirty || m.state == Uploading ==> m.localGen.Some?)
    && (m.remoteGen.Some? ==> m.remoteGen == m.localGen && (m.state == Clean || m.state == Missing))
    && (m.state == Clean ==> m.checksum.Some?)
  }

  predicate InThePast(m: Meta, clock: nat) {
    m.lastAccess < clock && (m.dirtySince.Some? ==> m.dirtySince.value < clock)
  }

  ghost predicate AllShaped(s: State) {
    forall c :: c in s.rows ==> Shaped(s.rows[c]) && InThePast(s.rows[c], s.clock)
  }

  /** Every row that the effects put in is shaped. */
  predicate Shapes(t: seq<Effect>) { forall i :: 0 <= i < |t| && t[i].Upsert? ==> Shaped(t[i].row) }

  lemma ShapesApply(s: State, e: Effect)
    requires AllShaped(s) && (e.Upsert? ==> Shaped(e.row))
    ensures AllShaped(Apply(s, e))
  {
  }

  lemma {:induction false} ShapesKeep(s: State, t: seq<Effect>, k: nat)
    requires AllShaped(s) && Shapes(t) && k <= |t|
    ensures AllShaped(Run(s, t[..k]))
    decreases k
  {
    hide AllShaped, Shaped;
    RunNothing(s);
    assert t[..0] == [];
    if k > 0 {
      ShapesApply(s, t[0]);
      assert forall i :: 0 <= i < |t[1..]| ==> t[1..][i] == t[i + 1];
      ShapesKeep(Apply(s, t[0]), t[1..], k - 1);
      assert t[..k][0] == t[0] && t[..k][1..] == t[1..][..k - 1];
    }
  }

  lemma ShapesRun(s: State, t: seq<Effect>)
    requires AllShaped(s) && Shapes(t)
    ensures AllShaped(Run(s, t))
  {
    ShapesKeep(s, t, |t|);
    assert t[..|t|] == t;
  }

  // ---------------------------------------------------------------- operations

  lemma {:induction false} EvictListShapes(cfg: Config, s: State, list: seq<nat>, cached: nat)
    requires AllShaped(s) && forall c :: c in list ==> c in s.rows && s.rows[c].state == Clean
    requires forall i, j :: 0 <= i < j < |list| ==> list[i] != list[j]
    ensures Shapes(EvictList(cfg, s, list, cached))
    decreases list
  {
    if list != [] && cached > cfg.low {
      var one := EvictOne(s, list[0]);
      var s1 := Run(s, one);
      ShapesRun(s, one);
      forall c | c in list[1..]
        ensures c in s1.rows && s1.rows[c].state == Clean
      {
        assert c in list && c != list[0];
        Elsewhere(s, one, list[0], c);
      }
      EvictListShapes(cfg, s1, list[1..], SaturatingSub(cached, s.rows[list[0]].size));
    }
  }

  lemma EvictShapes(cfg: Config, s: State)
    requires AllShaped(s)
    ensures Shapes(Evict(cfg, s))
  {
    hide AllShaped;
    if CachedBytes(s.rows) > cfg.cacheMax {
      EvictListShapes(cfg, s, EvictableCleanChunks(s.rows), CachedBytes(s.rows));
    }
  }

  lemma EnsureShapes(cfg: Config, s: State, c: nat)
    requires AllShaped(s) && Ensure(cfg, s, c).Ok?
    ensures Shapes(Ensure(cfg, s, c).value)
  {
    hide Run, Evict, Fetch, AllShaped;
    if !Resident(s, c) {
      var t := FetchTrace(cfg, s, c, Fetch(cfg, s, c).value);
      ShapesRun(s, t);
      EvictShapes(cfg, Run(s, t));
    }
  }

  lemma TouchShapes(s: State, c: nat)
    requires AllShaped(s)
    ensures Shapes(Touch(s, c))
  {
  }

  lemma {:induction false} ReadShapes(cfg: Config, s: State, spans: seq<Span>)
    requires AllShaped(s)
    ensures Shapes(ReadSpans(cfg, s, spans).trace)
    decreases spans
  {
    hide Run, Ensure, AllShaped, Touch, Shaped;
    if spans != [] && Ensure(cfg, s, spans[0].chunkId).Ok? {
      var t := Ensure(cfg, s, spans[0].chunkId).value;
      var t' := t + Touch(Run(s, t), spans[0].chunkId);
      EnsureShapes(cfg, s, spans[0].chunkId);
      ShapesRun(s, t);
      TouchShapes(Run(s, t), spans[0].chunkId);
      ShapesRun(s, t');
      ReadShapes(cfg, Run(s, t'), spans[1..]);
    }
  }

  lemma SpanShapes(cfg: Config, s: State, sp: Span, data: seq<byte>)
    requires AllShaped(s) && Within(sp, data) && WriteSpan(cfg, s, sp, data).Ok?
    ensures Shapes(WriteSpan(cfg, s, sp, data).value)
  {
    hide Run, Ensure, AllShaped, Look, WriteSpan, Commit;
    WriteSpanIs(cfg, s, sp, data);
    if !IsFull(cfg, sp) {
      EnsureShapes(cfg, s, sp.chunkId);
    }
    CommitShapes(cfg, Run(s, Prepare(cfg, s, sp).value), sp, SpanData(sp, data));
  }

  lemma CommitShapes(cfg: Config, s: State, sp: Span, data: seq<byte>)
    ensures Shapes(Commit(cfg, s, sp, data))
  {
    hide Look;
  }

  lemma {:induction false} WriteSpansShape(cfg: Config, s: State, spans: seq<Span>, data: seq<byte>)
    requires AllShaped(s) && AllWithin(spans, data)
    ensures Shapes(WriteSpans(cfg, s, spans, data).trace)
    decreases |spans|
  {
    hide Run, WriteSpan, AllShaped, Shaped;
    if spans != [] && WriteSpan(cfg, s, spans[0], data).Ok? {
      var t := WriteSpan(cfg, s, spans[0], data).value;
      SpanShapes(cfg, s, spans[0], data);
      ShapesRun(s, t);
      WriteSpansShape(cfg, Run(s, t), spans[1..], data);
    }
  }

  lemma WriteShapes(cfg: Config, s: State, offset: nat, data: seq<byte>)
    requires AllShaped(s)
    ensures Shapes(Write(cfg, s, offset, data).trace)
  {
    hide Run, WriteSpans, Evict, AllShaped, Shaped, Spans;
    if Spans(offset, |data|, cfg.geo).Ok? {
      var spans := Spans(offset, |data|, cfg.geo).value;
      SpansWithin(offset, data, cfg.geo);
      var w := WriteSpans(cfg, s, spans, data);
      WriteSpansShape(cfg, s, spans, data);
      ShapesRun(s, w.trace);
      EvictShapes(cfg, Run(s, w.trace));
    }
  }

  lemma SyncOneShapes(cfg: Config, s: State, c: nat)
    requires AllShaped(s) && c in s.rows && s.rows[c].state == Dirty
    ensures Shapes(SyncOne(cfg, s, c).trace)
  {
  }

  lemma {:induction false} SyncListShapes(cfg: Config, s: State, list: seq<nat>)
    requires AllShaped(s) && ToSync(s, list)
    ensures Shapes(SyncList(cfg, s, list).trace)
    decreases list
  {
    hide Run, SyncOne, AllShaped, Shaped;
    if list != [] {
      SyncOneShapes(cfg, s, list[0]);
      if SyncOne(cfg, s, list[0]).result.Ok? {
        ShapesRun(s, SyncOne(cfg, s, list[0]).trace);
        SyncOneLeavesRest(cfg, s, list);
        SyncListShapes(cfg, Run(s, SyncOne(cfg, s, list[0]).trace), list[1..]);
      }
    }
  }

  lemma SyncShapes(cfg: Config, s: State)
    requires AllShaped(s)
    ensures Shapes(Sync(cfg, s).trace)
  {
    hide Run, SyncList, Evict, AllShaped, Shapes, ToSync, DirtyChunks;
    DirtyToSync(s);
    var u := SyncList(cfg, s, DirtyChunks(s.rows));
    SyncListShapes(cfg, s, DirtyChunks(s.rows));
    ShapesRun(s, u.trace);
    EvictShapes(cfg, Run(s, u.trace));
    ShapesConcat(u.trace, Evict(cfg, Run(s, u.trace)));
  }

  lemma ShapesConcat(a: seq<Effect>, b: seq<Effect>)
    requires Shapes(a) && Shapes(b)
    ensures Shapes(a + b)
  {
    hide Shaped;
  }

  lemma RecoveryStepShapes(cfg: Config, s: State, e: Effect)
    requires AllShaped(s) && RecoveryStep(cfg, s, e)
    ensures Shaped(e.row)
  {
    hide LatestLocal, Synced;
  }

  lemma {:induction false} RecoveryShapes(cfg: Config, s: State, t: seq<Effect>)
    requires AllShaped(s) && RecoverySteps(cfg, s, t)
    ensures Shapes(t)
    decreases t
  {
    hide AllShaped, RecoveryStep, Shaped;
    if t != [] {
      RecoveryStepShapes(cfg, s, t[0]);
      ShapesApply(s, t[0]);
      RecoveryShapes(cfg, Apply(s, t[0]), t[1..]);
      assert forall i :: 0 < i < |t| ==> t[i] == t[1..][i - 1];
    }
  }

  // ---------------------------------------------------------------- steps

  lemma SameRowsShaped(s: State, s': State)
    requires AllShaped(s) && s'.rows == s.rows && s'.clock == s.clock
    ensures AllShaped(s')
  {
  }

  lemma OpShapes(cfg: Config, s: State, op: Op)
    requires AllShaped(s)
    ensures AllShaped(Begin(s, op)) && Shapes(TraceOf(cfg, s, op))
  {
    hide Run, ReadSpans, Write, Sync, Evict, Fsck, Recover, RecoverySteps, AllShaped, Shaped, Spans;
    SameRowsShaped(s, Begin(s, op));
    match op
    case ReadOp(offset, len) =>
      if Spans(offset, len, cfg.geo).Ok? {
        ReadShapes(cfg, s, Spans(offset, len, cfg.geo).value);
      }
    case WriteOp(offset, data) => WriteShapes(cfg, s, offset, data);
    case SyncOp => SyncShapes(cfg, s);
    case EvictOp => EvictShapes(cfg, s);
    case FsckOp(order) =>
      FsckIsSteps(cfg, s, order);
      RecoveryShapes(cfg, s, Fsck(cfg, s, order));
    case OpenOp(order) =>
      RecoverIsSteps(cfg, Loaded(s), order);
      RecoveryShapes(cfg, Loaded(s), Recover(cfg, Loaded(s), order));
  }

  lemma TornShaped(s: State, t: seq<Effect>, k: nat, junk: seq<byte>)
    requires AllShaped(s) && Shapes(t) && k <= |t|
    ensures AllShaped(Torn(s, t, k, junk))
  {
    hide AllShaped;
    ShapesKeep(s, t, k);
    SameRowsShaped(Run(s, t[..k]), Torn(s, t, k, junk));
  }

  lemma RecoverShaped(cfg: Config, s: State, order: seq<nat>, k: nat)
    requires AllShaped(s) && k <= |Recover(cfg, s, order)|
    ensures AllShaped(Run(s, Recover(cfg, s, order)[..k])) && AllShaped(Run(s, Recover(cfg, s, order)))
  {
    hide AllShaped, Recover, Run, RecoverySteps, Shaped;
    RecoverIsSteps(cfg, s, order);
    RecoveryShapes(cfg, s, Recover(cfg, s, order));
    ShapesKeep(s, Recover(cfg, s, order), k);
    ShapesRun(s, Recover(cfg, s, order));
  }

  lemma {:induction false} BootsShaped(cfg: Config, s: State, boots: seq<Boot>)
    requires AllShaped(s) && BootsFit(cfg, s, boots)
    ensures AllShaped(AfterBoots(cfg, s, boots))
    decreases boots
  {
    hide AllShaped, Recover, Run, IsOrder;
    if boots != [] {
      SameRowsShaped(s, Booted(s, boots[0]));
      RecoverShaped(cfg, Booted(s, boots[0]), boots[0].order, boots[0].at);
      BootsShaped(cfg, AfterBoot(cfg, s, boots[0]), boots[1..]);
    }
  }

  lemma ReopenShaped(cfg: Config, s: State, order: seq<nat>)
    requires AllShaped(s)
    ensures AllShaped(Reopened(cfg, s, order))
  {
    hide AllShaped, Recover, Run;
    SameRowsShaped(s, Loaded(s));
    RecoverShaped(cfg, Loaded(s), order, 0);
  }

  lemma StepShapes(cfg: Config, s: State, step: Step)
    requires AllShaped(s) && Possible(cfg, s, step)
    ensures AllShaped(After(cfg, s, step))
  {
    hide AllShaped, Recover, Run, IsOrder, TraceOf, RecoverySteps, Fsck, Shaped, Loaded, Reopened;
    match step
    case Completes(op) =>
      OpShapes(cfg, s, op);
      ShapesRun(Begin(s, op), TraceOf(cfg, s, op));
    case Crashes(op, at, junk, boots, order) =>
      OpShapes(cfg, s, op);
      TornShaped(Begin(s, op), TraceOf(cfg, s, op), at, junk);
      BootsShaped(cfg, CrashState(cfg, s, step), boots);
      ReopenShaped(cfg, AfterBoots(cfg, CrashState(cfg, s, step), boots), order);
    case Loses(gone, live, order) =>
      var lost := LoseFiles(s, gone);
      SameRowsShaped(s, lost);
      if live {
        FsckIsSteps(cfg, lost, order);
        RecoveryShapes(cfg, lost, Fsck(cfg, lost, order));
        ShapesRun(lost, Fsck(cfg, lost, order));
      } else {
        ReopenShaped(cfg, lost, order);
      }
    case Vanishes(gone) => SameRowsShaped(s, LoseFiles(s, gone));
    case Outage(down) => SameRowsShaped(s, s.(down := down));
  }

  lemma CreatedShaped(cloud: map<nat, seq<byte>>)
    ensures AllShaped(Created(cloud))
  {
  }

  /** Every row is shaped, and its times are in the past, after every run that can happen. */
  lemma {:induction false} RowsShapedOverRuns(cfg: Config, s: State, steps: seq<Step>)
    requires AllShaped(s) && PossibleRun(cfg, s, steps)
    ensures AllShaped(RunAll(cfg, s, steps))
    decreases steps
  {
    hide AllShaped, Possible, After;
    if steps != [] {
      StepShapes(cfg, s, steps[0]);
      RowsShapedOverRuns(cfg, After(cfg, s, steps[0]), steps[1..]);
    }
  }
}
