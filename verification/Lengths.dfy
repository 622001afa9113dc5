/**
 * Files as long as their chunks, and rows that say so. Every effect of every operation keeps them so, but for
 * the truncation of a file that is about to be replaced; of all crashes only those that leave a file short
 * do not.
 */
module Lengths {
  import opened Wrappers
  import opened Mapper
  import opened Metadata
  import opened Wal
  import opened Store
  import opened Operations
  import opened Transparency
  import opened Recovery
  import opened Writing
  import opened Runs
  import opened Availability

  predicate IsCached(s: State, c: nat) { c in s.rows && Cached(s.rows[c].state) }

  // ---------------------------------------------------------------- files and rows of the right length

  /** The chunk's file, if any, is as long as the chunk, and so says its row, if it claims a file. */
  predicate ChunkFits(cfg: Config, s: State, c: nat) {
    && (c in s.files ==> |s.files[c]| == cfg.geo.ChunkLen(c))
    && (IsCached(s, c) ==> s.rows[c].size == cfg.geo.ChunkLen(c))
  }

  ghost predicate AllFit(cfg: Config, s: State) { forall c: nat :: ChunkFits(cfg, s, c) }

  predicate FitsIn(cfg: Config, e: Effect) {
    match e
    case PutFile(c, data) => |data| == cfg.geo.ChunkLen(c)
    case WriteFile(c, offset, data, len) => offset + |data| <= len && len == cfg.geo.ChunkLen(c)
    case SetLen(c, len) => len == cfg.geo.ChunkLen(c)
    case Upsert(c, row) => Cached(row.state) ==> row.size == cfg.geo.ChunkLen(c)
    case RemoveFile(_) => true
    case Append(_) => true
    case PutObject(_, _) => true
  }

  predicate AllFitIn(cfg: Config, t: seq<Effect>) { forall i :: 0 <= i < |t| ==> FitsIn(cfg, t[i]) }

  /** The effect leaves a file of another length than its chunk's: a truncation. */
  predicate Truncates(cfg: Config, e: Effect) { e.PutFile? && |e.data| != cfg.geo.ChunkLen(e.c) }

  /** Every state on the way through t fits, but for those between a truncation and the set_len after it. */
  ghost predicate FitsAlong(cfg: Config, s: State, t: seq<Effect>)
    decreases |t|
  {
    && AllFit(cfg, s)
    && (t != [] ==>
          if Truncates(cfg, t[0]) then
            && |t| >= 2 && t[1] == SetLen(t[0].c, cfg.geo.ChunkLen(t[0].c))
            && FitsAlong(cfg, Apply(Apply(s, t[0]), t[1]), t[2..])
          else FitsIn(cfg, t[0]) && FitsAlong(cfg, Apply(s, t[0]), t[1..]))
  }

  lemma FitsApply(cfg: Config, s: State, e: Effect)
    requires AllFit(cfg, s) && FitsIn(cfg, e)
    ensures AllFit(cfg, Apply(s, e))
  {
    forall c: nat
      ensures ChunkFits(cfg, Apply(s, e), c)
    {
      assert ChunkFits(cfg, s, c);
    }
  }

  lemma {:induction false} FitsInFitsAlong(cfg: Config, s: State, t: seq<Effect>)
    requires AllFit(cfg, s) && AllFitIn(cfg, t)
    ensures FitsAlong(cfg, s, t)
    decreases |t|
  {
    hide AllFit;
    if t != [] {
      FitsApply(cfg, s, t[0]);
      assert forall i :: 0 <= i < |t[1..]| ==> t[1..][i] == t[i + 1];
      FitsInFitsAlong(cfg, Apply(s, t[0]), t[1..]);
    }
  }

  lemma FitsUnfold(cfg: Config, s: State, t: seq<Effect>)
    requires FitsAlong(cfg, s, t) && t != []
    ensures Truncates(cfg, t[0]) ==>
              |t| >= 2 && t[1] == SetLen(t[0].c, cfg.geo.ChunkLen(t[0].c))
              && FitsAlong(cfg, Apply(Apply(s, t[0]), t[1]), t[2..])
    ensures !Truncates(cfg, t[0]) ==> FitsIn(cfg, t[0]) && FitsAlong(cfg, Apply(s, t[0]), t[1..])
  {
  }

  lemma FitsFold(cfg: Config, s: State, t: seq<Effect>)
    requires AllFit(cfg, s) && t != []
    requires Truncates(cfg, t[0]) ==>
              |t| >= 2 && t[1] == SetLen(t[0].c, cfg.geo.ChunkLen(t[0].c))
              && FitsAlong(cfg, Apply(Apply(s, t[0]), t[1]), t[2..])
    requires !Truncates(cfg, t[0]) ==> FitsIn(cfg, t[0]) && FitsAlong(cfg, Apply(s, t[0]), t[1..])
    ensures FitsAlong(cfg, s, t)
  {
  }

  lemma RunUnfold(s: State, t: seq<Effect>)
    ensures t != [] ==> Run(s, t) == Run(Apply(s, t[0]), t[1..])
    ensures |t| >= 2 ==> Run(s, t) == Run(Apply(Apply(s, t[0]), t[1]), t[2..])
  {
    if |t| >= 2 {
      assert t[1..][0] == t[1] && t[1..][1..] == t[2..];
    }
  }

  lemma {:induction false} FitsConcat(cfg: Config, s: State, a: seq<Effect>, b: seq<Effect>)
    requires FitsAlong(cfg, s, a) && FitsAlong(cfg, Run(s, a), b)
    ensures FitsAlong(cfg, s, a + b)
    decreases |a|
  {
    hide FitsAlong, Apply, Run, FitsIn;
    if a == [] {
      RunNothing(s);
      assert a + b == b;
    } else {
      RunUnfold(s, a);
      FitsUnfold(cfg, s, a);
      FitsNow(cfg, s, a);
      if Truncates(cfg, a[0]) {
        FitsConcat(cfg, Apply(Apply(s, a[0]), a[1]), a[2..], b);
        assert (a + b)[2..] == a[2..] + b;
      } else {
        FitsConcat(cfg, Apply(s, a[0]), a[1..], b);
        assert (a + b)[1..] == a[1..] + b;
      }
      FitsFold(cfg, s, a + b);
    }
  }

  lemma FitsNow(cfg: Config, s: State, t: seq<Effect>)
    requires FitsAlong(cfg, s, t)
    ensures AllFit(cfg, s)
  {
  }

  lemma {:induction false} FitsAtEnd(cfg: Config, s: State, t: seq<Effect>)
    requires FitsAlong(cfg, s, t)
    ensures AllFit(cfg, Run(s, t))
    decreases |t|
  {
    hide FitsAlong, Apply, Run, FitsIn, AllFit;
    FitsNow(cfg, s, t);
    if t == [] {
      RunNothing(s);
    } else {
      RunUnfold(s, t);
      FitsUnfold(cfg, s, t);
      if Truncates(cfg, t[0]) {
        FitsAtEnd(cfg, Apply(Apply(s, t[0]), t[1]), t[2..]);
      } else {
        FitsAtEnd(cfg, Apply(s, t[0]), t[1..]);
      }
    }
  }

  /** The cut leaves a file short: it comes right after a truncation, or inside a write that creates its file. */
  predicate LeavesShort(cfg: Config, s: State, t: seq<Effect>, k: nat)
    requires k <= |t|
  {
    || (k > 0 && Truncates(cfg, t[k - 1]))
    || (k < |t| && t[k].WriteFile? && t[k].c !in Run(s, t[..k]).files)
  }

  lemma {:induction false} FitsCut(cfg: Config, s: State, t: seq<Effect>, k: nat)
    requires FitsAlong(cfg, s, t) && k <= |t| && !(k > 0 && Truncates(cfg, t[k - 1]))
    ensures AllFit(cfg, Run(s, t[..k]))
    ensures k < |t| && t[k].WriteFile? ==> FitsIn(cfg, t[k])
    decreases |t|
  {
    hide FitsAlong, Apply, Run, FitsIn, AllFit;
    FitsNow(cfg, s, t);
    if k == 0 {
      RunNothing(s);
      assert t[..0] == [];
      if t != [] {
        FitsUnfold(cfg, s, t);
      }
    } else {
      FitsUnfold(cfg, s, t);
      RunUnfold(s, t[..k]);
      if Truncates(cfg, t[0]) {
        assert k >= 2;
        assert t[..k][2..] == t[2..][..k - 2] && (k > 2 ==> t[2..][k - 3] == t[k - 1]);
        FitsCut(cfg, Apply(Apply(s, t[0]), t[1]), t[2..], k - 2);
      } else {
        assert t[..k][1..] == t[1..][..k - 1] && (k > 1 ==> t[1..][k - 2] == t[k - 1]);
        FitsCut(cfg, Apply(s, t[0]), t[1..], k - 1);
      }
    }
  }

  lemma FitsTorn(cfg: Config, s: State, t: seq<Effect>, k: nat, junk: seq<byte>)
    requires FitsAlong(cfg, s, t) && k <= |t| && !LeavesShort(cfg, s, t, k)
    ensures AllFit(cfg, Torn(s, t, k, junk))
  {
    hide FitsAlong, Run;
    FitsCut(cfg, s, t, k);
    var s1 := Run(s, t[..k]);
    if k < |t| && t[k].WriteFile? && |junk| <= |t[k].data| {
      forall c: nat
        ensures ChunkFits(cfg, Tear(s1, t[k].c, t[k].offset, junk), c)
      {
        assert ChunkFits(cfg, s1, c);
      }
    }
  }

  // ---------------------------------------------------------------- operations

  lemma {:induction false} EvictListFits(cfg: Config, s: State, list: seq<nat>, cached: nat)
    requires forall c :: c in list ==> c in s.rows
    ensures AllFitIn(cfg, EvictList(cfg, s, list, cached))
    decreases list
  {
    if list != [] && cached > cfg.low {
      EvictListFits(cfg, Run(s, EvictOne(s, list[0])), list[1..], SaturatingSub(cached, s.rows[list[0]].size));
    }
  }

  lemma EvictFits(cfg: Config, s: State)
    ensures AllFitIn(cfg, Evict(cfg, s))
  {
    if CachedBytes(s.rows) > cfg.cacheMax {
      EvictListFits(cfg, s, EvictableCleanChunks(s.rows), CachedBytes(s.rows));
    }
  }

  lemma EnsureFits(cfg: Config, s: State, c: nat)
    requires Ensure(cfg, s, c).Ok?
    ensures AllFitIn(cfg, Ensure(cfg, s, c).value)
  {
    hide Run, Evict, Fetch;
    if !Resident(s, c) {
      FetchedWhole(cfg, s, c);
      EvictFits(cfg, Run(s, FetchTrace(cfg, s, c, Fetch(cfg, s, c).value)));
    }
  }

  lemma TouchFits(cfg: Config, s: State, c: nat)
    requires AllFit(cfg, s)
    ensures AllFitIn(cfg, Touch(s, c))
  {
    assert ChunkFits(cfg, s, c);
  }

  lemma {:induction false} ReadFits(cfg: Config, s: State, spans: seq<Span>)
    requires AllFit(cfg, s)
    ensures AllFitIn(cfg, ReadSpans(cfg, s, spans).trace)
    decreases spans
  {
    hide Run, Ensure, AllFit, Touch, FitsIn;
    if spans != [] && Ensure(cfg, s, spans[0].chunkId).Ok? {
      var t := Ensure(cfg, s, spans[0].chunkId).value;
      var t' := t + Touch(Run(s, t), spans[0].chunkId);
      EnsureFits(cfg, s, spans[0].chunkId);
      FitsRun(cfg, s, t);
      TouchFits(cfg, Run(s, t), spans[0].chunkId);
      FitsRun(cfg, s, t');
      ReadFits(cfg, Run(s, t'), spans[1..]);
    }
  }

  lemma FitsRun(cfg: Config, s: State, t: seq<Effect>)
    requires AllFit(cfg, s) && AllFitIn(cfg, t)
    ensures FitsAlong(cfg, s, t) && AllFit(cfg, Run(s, t))
  {
    FitsInFitsAlong(cfg, s, t);
    FitsAtEnd(cfg, s, t);
  }

  lemma SyncOneFits(cfg: Config, s: State, c: nat)
    requires AllFit(cfg, s) && c in s.rows && s.rows[c].state == Dirty
    ensures AllFitIn(cfg, SyncOne(cfg, s, c).trace)
  {
    assert ChunkFits(cfg, s, c);
  }

  lemma {:induction false} SyncListFits(cfg: Config, s: State, list: seq<nat>)
    requires AllFit(cfg, s) && ToSync(s, list)
    ensures AllFitIn(cfg, SyncList(cfg, s, list).trace)
    decreases list
  {
    hide Run, SyncOne, AllFit, FitsIn;
    if list != [] {
      SyncOneFits(cfg, s, list[0]);
      if SyncOne(cfg, s, list[0]).result.Ok? {
        FitsRun(cfg, s, SyncOne(cfg, s, list[0]).trace);
        SyncOneLeavesRest(cfg, s, list);
        SyncListFits(cfg, Run(s, SyncOne(cfg, s, list[0]).trace), list[1..]);
      }
    }
  }

  lemma FitsInConcat(cfg: Config, a: seq<Effect>, b: seq<Effect>)
    requires AllFitIn(cfg, a) && AllFitIn(cfg, b)
    ensures AllFitIn(cfg, a + b)
  {
    hide FitsIn;
  }

  lemma SyncFits(cfg: Config, s: State)
    requires AllFit(cfg, s)
    ensures AllFitIn(cfg, Sync(cfg, s).trace)
  {
    hide Run, SyncList, Evict, AllFit, AllFitIn, ToSync, DirtyChunks;
    DirtyToSync(s);
    var u := SyncList(cfg, s, DirtyChunks(s.rows));
    SyncListFits(cfg, s, DirtyChunks(s.rows));
    EvictFits(cfg, Run(s, u.trace));
    FitsInConcat(cfg, u.trace, Evict(cfg, Run(s, u.trace)));
  }

  lemma RecoveryStepFits(cfg: Config, s: State, e: Effect)
    requires AllFit(cfg, s) && RecoveryStep(cfg, s, e)
    ensures FitsIn(cfg, e)
  {
    hide LatestLocal, Synced;
    assert ChunkFits(cfg, s, e.c);
  }

  lemma {:induction false} RecoveryFits(cfg: Config, s: State, t: seq<Effect>)
    requires AllFit(cfg, s) && RecoverySteps(cfg, s, t)
    ensures AllFitIn(cfg, t)
    decreases t
  {
    hide AllFit, RecoveryStep, FitsIn;
    if t != [] {
      RecoveryStepFits(cfg, s, t[0]);
      FitsApply(cfg, s, t[0]);
      RecoveryFits(cfg, Apply(s, t[0]), t[1..]);
      assert forall i :: 0 < i < |t| ==> t[i] == t[1..][i - 1];
    }
  }

  // ---------------------------------------------------------------- write_at

  lemma EmptyChunkFits(cfg: Config, s: State, c: nat)
    requires AllFit(cfg, s)
    ensures FitsAlong(cfg, s, EmptyChunk(cfg, c))
  {
    hide AllFit;
    var t, n := EmptyChunk(cfg, c), cfg.geo.ChunkLen(c);
    if n == 0 {
      FitsInFitsAlong(cfg, s, t);
    } else {
      RunTwo(s, t[0], t[1]);
      EmptiedFits(cfg, s, c);
      assert t[2..] == [];
    }
  }

  lemma EmptiedFits(cfg: Config, s: State, c: nat)
    requires AllFit(cfg, s)
    ensures AllFit(cfg, Run(s, EmptyChunk(cfg, c)))
  {
    hide Run;
    Emptied(cfg, s, c, c);
    forall d: nat
      ensures ChunkFits(cfg, Run(s, EmptyChunk(cfg, c)), d)
    {
      assert ChunkFits(cfg, s, d);
    }
  }

  lemma CommitFitsIn(cfg: Config, s: State, sp: Span, data: seq<byte>)
    requires sp.offsetInChunk + |data| <= cfg.geo.ChunkLen(sp.chunkId)
    ensures AllFitIn(cfg, Commit(cfg, s, sp, data))
  {
    hide Look;
  }

  lemma SpanFitsAlong(cfg: Config, s: State, sp: Span, data: seq<byte>)
    requires AllFit(cfg, s) && Within(sp, data) && WriteSpan(cfg, s, sp, data).Ok?
    requires sp.offsetInChunk + sp.len <= cfg.geo.ChunkLen(sp.chunkId)
    ensures FitsAlong(cfg, s, WriteSpan(cfg, s, sp, data).value)
  {
    hide Run, Ensure, AllFit, Look, WriteSpan, Commit, FitsAlong;
    WriteSpanIs(cfg, s, sp, data);
    var a := Prepare(cfg, s, sp).value;
    if IsFull(cfg, sp) {
      EmptyChunkFits(cfg, s, sp.chunkId);
    } else {
      EnsureFits(cfg, s, sp.chunkId);
      FitsInFitsAlong(cfg, s, a);
    }
    FitsAtEnd(cfg, s, a);
    CommitFitsIn(cfg, Run(s, a), sp, SpanData(sp, data));
    FitsInFitsAlong(cfg, Run(s, a), Commit(cfg, Run(s, a), sp, SpanData(sp, data)));
    FitsConcat(cfg, s, a, Commit(cfg, Run(s, a), sp, SpanData(sp, data)));
  }

  lemma {:induction false} WriteSpansFit(cfg: Config, s: State, spans: seq<Span>, data: seq<byte>, start: nat, len: nat,
                                         requestOffset: nat)
    requires AllFit(cfg, s) && AllWithin(spans, data) && Covers(spans, start, len, cfg.geo, requestOffset)
    ensures FitsAlong(cfg, s, WriteSpans(cfg, s, spans, data).trace)
    decreases |spans|
  {
    hide Run, WriteSpan, AllFit;
    if spans != [] && WriteSpan(cfg, s, spans[0], data).Ok? {
      var t := WriteSpan(cfg, s, spans[0], data).value;
      SpanFitsAlong(cfg, s, spans[0], data);
      FitsAtEnd(cfg, s, t);
      WriteSpansFit(cfg, Run(s, t), spans[1..], data, start + spans[0].len, len - spans[0].len,
                    requestOffset + spans[0].len);
      FitsConcat(cfg, s, t, WriteSpans(cfg, Run(s, t), spans[1..], data).trace);
    }
  }

  lemma WriteFits(cfg: Config, s: State, offset: nat, data: seq<byte>)
    requires cfg.Valid() && AllFit(cfg, s)
    ensures FitsAlong(cfg, s, Write(cfg, s, offset, data).trace)
  {
    hide Run, WriteSpans, Evict, AllFit, FitsAlong, Covers, Pieces;
    FitsInFitsAlong(cfg, s, []);
    if Spans(offset, |data|, cfg.geo).Ok? {
      var spans := Spans(offset, |data|, cfg.geo).value;
      SpansCover(offset, |data|, cfg.geo);
      SpansWithin(offset, data, cfg.geo);
      var w := WriteSpans(cfg, s, spans, data);
      WriteSpansFit(cfg, s, spans, data, offset, |data|, 0);
      FitsAtEnd(cfg, s, w.trace);
      EvictFits(cfg, Run(s, w.trace));
      FitsInFitsAlong(cfg, Run(s, w.trace), Evict(cfg, Run(s, w.trace)));
      FitsConcat(cfg, s, w.trace, Evict(cfg, Run(s, w.trace)));
    }
  }

  // ---------------------------------------------------------------- steps

  lemma SameFilesFit(cfg: Config, s: State, s': State)
    requires AllFit(cfg, s) && s'.rows == s.rows && s'.files.Keys <= s.files.Keys
    requires forall c :: c in s'.files ==> s'.files[c] == s.files[c]
    ensures AllFit(cfg, s')
  {
    forall c: nat
      ensures ChunkFits(cfg, s', c)
    {
      assert ChunkFits(cfg, s, c);
    }
  }

  lemma OpFits(cfg: Config, s: State, op: Op)
    requires cfg.Valid() && AllFit(cfg, s)
    ensures AllFit(cfg, Begin(s, op)) && FitsAlong(cfg, Begin(s, op), TraceOf(cfg, s, op))
  {
    hide Run, ReadSpans, Write, Sync, Evict, Fsck, Recover, RecoverySteps, AllFit, FitsIn, Spans, FitsAlong;
    SameFilesFit(cfg, s, Begin(s, op));
    match op
    case ReadOp(offset, len) =>
      FitsInFitsAlong(cfg, s, []);
      if Spans(offset, len, cfg.geo).Ok? {
        ReadFits(cfg, s, Spans(offset, len, cfg.geo).value);
        FitsInFitsAlong(cfg, s, ReadSpans(cfg, s, Spans(offset, len, cfg.geo).value).trace);
      }
    case WriteOp(offset, data) => WriteFits(cfg, s, offset, data);
    case SyncOp =>
      SyncFits(cfg, s);
      FitsInFitsAlong(cfg, s, Sync(cfg, s).trace);
    case EvictOp =>
      EvictFits(cfg, s);
      FitsInFitsAlong(cfg, s, Evict(cfg, s));
    case FsckOp(order) =>
      FsckIsSteps(cfg, s, order);
      RecoveryFits(cfg, s, Fsck(cfg, s, order));
      FitsInFitsAlong(cfg, s, Fsck(cfg, s, order));
    case OpenOp(order) =>
      RecoverIsSteps(cfg, Loaded(s), order);
      RecoveryFits(cfg, Loaded(s), Recover(cfg, Loaded(s), order));
      FitsInFitsAlong(cfg, Loaded(s), Recover(cfg, Loaded(s), order));
  }

  lemma RecoverFits(cfg: Config, s: State, order: seq<nat>, k: nat)
    requires AllFit(cfg, s) && k <= |Recover(cfg, s, order)|
    ensures AllFit(cfg, Run(s, Recover(cfg, s, order)[..k])) && AllFit(cfg, Run(s, Recover(cfg, s, order)))
  {
    hide AllFit, Recover, Run, RecoverySteps, FitsIn;
    RecoverIsSteps(cfg, s, order);
    RecoveryFits(cfg, s, Recover(cfg, s, order));
    FitsRun(cfg, s, Recover(cfg, s, order));
    FitsRun(cfg, s, Recover(cfg, s, order)[..k]);
  }

  lemma {:induction false} BootsFitToo(cfg: Config, s: State, boots: seq<Boot>)
    requires AllFit(cfg, s) && BootsFit(cfg, s, boots)
    ensures AllFit(cfg, AfterBoots(cfg, s, boots))
    decreases boots
  {
    hide AllFit, Recover, Run, IsOrder;
    if boots != [] {
      SameFilesFit(cfg, s, Booted(s, boots[0]));
      RecoverFits(cfg, Booted(s, boots[0]), boots[0].order, boots[0].at);
      BootsFitToo(cfg, AfterBoot(cfg, s, boots[0]), boots[1..]);
    }
  }

  lemma ReopenFits(cfg: Config, s: State, order: seq<nat>)
    requires AllFit(cfg, s)
    ensures AllFit(cfg, Reopened(cfg, s, order))
  {
    hide AllFit, Recover, Run;
    SameFilesFit(cfg, s, Loaded(s));
    RecoverFits(cfg, Loaded(s), order, 0);
  }

  /** The step is a crash that leaves a file short. */
  ghost predicate CutsShort(cfg: Config, s: State, step: Step)
    requires Possible(cfg, s, step)
  {
    step.Crashes? && LeavesShort(cfg, Begin(s, step.op), TraceOf(cfg, s, step.op), step.at)
  }

  /** Every other step, crashes inside writes included, keeps all files as long as their chunks, and the rows right. */
  lemma StepFits(cfg: Config, s: State, step: Step)
    requires cfg.Valid() && AllFit(cfg, s) && Possible(cfg, s, step) && !CutsShort(cfg, s, step)
    ensures AllFit(cfg, After(cfg, s, step))
  {
    hide AllFit, Recover, Run, IsOrder, TraceOf, RecoverySteps, Fsck, FitsIn, Loaded, Reopened, FitsAlong, LeavesShort;
    match step
    case Completes(op) =>
      OpFits(cfg, s, op);
      FitsAtEnd(cfg, Begin(s, op), TraceOf(cfg, s, op));
    case Crashes(op, at, junk, boots, order) =>
      OpFits(cfg, s, op);
      FitsTorn(cfg, Begin(s, op), TraceOf(cfg, s, op), at, junk);
      BootsFitToo(cfg, CrashState(cfg, s, step), boots);
      ReopenFits(cfg, AfterBoots(cfg, CrashState(cfg, s, step), boots), order);
    case Loses(gone, live, order) =>
      var lost := LoseFiles(s, gone);
      SameFilesFit(cfg, s, lost);
      if live {
        FsckIsSteps(cfg, lost, order);
        RecoveryFits(cfg, lost, Fsck(cfg, lost, order));
        FitsRun(cfg, lost, Fsck(cfg, lost, order));
      } else {
        ReopenFits(cfg, lost, order);
      }
    case Vanishes(gone) => SameFilesFit(cfg, s, LoseFiles(s, gone));
    case Outage(down) => SameFilesFit(cfg, s, s.(down := down));
  }
}
