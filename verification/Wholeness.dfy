/**
 * Files and objects that are as long as their chunks. Every step keeps them so but one: a crash inside a
 * write can leave the file of the chunk in flight short, and reads of it fail until it is written again.
 */
module Wholeness {
  import opened Wrappers
  import opened Mapper
  import opened Metadata
  import opened Store
  import opened Volume
  import opened Operations
  import opened Safety
  import opened Transparency
  import opened Recovery
  import opened Writing
  import opened Eviction
  import opened Runs
  import opened Availability

  predicate ChunkWhole(cfg: Config, s: State, c: nat) {
    && WholeFile(cfg, s, c)
    && (c in s.cloud && cfg.geo.ChunkLen(c) > 0 ==> |s.cloud[c]| == cfg.geo.ChunkLen(c))
  }

  ghost predicate AllWhole(cfg: Config, s: State) { forall c: nat :: ChunkWhole(cfg, s, c) }

  /** An effect that puts nothing but whole contents. */
  predicate Sized(cfg: Config, e: Effect) {
    match e
    case PutFile(c, data) => |data| == cfg.geo.ChunkLen(c)
    case WriteFile(c, _, _, len) => len == cfg.geo.ChunkLen(c)
    case SetLen(c, len) => len == cfg.geo.ChunkLen(c)
    case PutObject(c, data) => |data| == cfg.geo.ChunkLen(c)
    case RemoveFile(_) => true
    case Upsert(_, _) => true
    case Append(_) => true
  }

  predicate AllSized(cfg: Config, t: seq<Effect>) { forall i :: 0 <= i < |t| ==> Sized(cfg, t[i]) }

  lemma SizedKeeps(cfg: Config, s: State, e: Effect)
    requires AllWhole(cfg, s) && Sized(cfg, e)
    ensures AllWhole(cfg, Apply(s, e))
  {
    forall c: nat
      ensures ChunkWhole(cfg, Apply(s, e), c)
    {
      assert ChunkWhole(cfg, s, c);
    }
  }

  lemma {:induction false} SizedRun(cfg: Config, s: State, t: seq<Effect>, k: nat)
    requires AllWhole(cfg, s) && AllSized(cfg, t) && k <= |t|
    ensures AllWhole(cfg, Run(s, t[..k]))
    decreases k
  {
    hide AllWhole, Sized;
    if k > 0 {
      SizedKeeps(cfg, s, t[0]);
      assert forall i :: 0 <= i < |t[1..]| ==> t[1..][i] == t[i + 1];
      SizedRun(cfg, Apply(s, t[0]), t[1..], k - 1);
      assert t[..k][0] == t[0] && t[..k][1..] == t[1..][..k - 1];
    }
  }

  lemma SizedWhole(cfg: Config, s: State, t: seq<Effect>)
    requires AllWhole(cfg, s) && AllSized(cfg, t)
    ensures AllWhole(cfg, Run(s, t))
  {
    SizedRun(cfg, s, t, |t|);
    assert t[..|t|] == t;
  }

  lemma SizedConcat(cfg: Config, a: seq<Effect>, b: seq<Effect>)
    requires AllSized(cfg, a) && AllSized(cfg, b)
    ensures AllSized(cfg, a + b)
  {
  }

  // ---------------------------------------------------------------- operations

  lemma {:induction false} EvictListSized(cfg: Config, s: State, list: seq<nat>, cached: nat)
    requires forall c :: c in list ==> c in s.rows
    ensures AllSized(cfg, EvictList(cfg, s, list, cached))
    decreases list
  {
    if list != [] && cached > cfg.low {
      EvictListSized(cfg, Run(s, EvictOne(s, list[0])), list[1..], SaturatingSub(cached, s.rows[list[0]].size));
    }
  }

  lemma EvictSized(cfg: Config, s: State)
    ensures AllSized(cfg, Evict(cfg, s))
  {
    if CachedBytes(s.rows) > cfg.cacheMax {
      EvictListSized(cfg, s, EvictableCleanChunks(s.rows), CachedBytes(s.rows));
    }
  }

  lemma EnsureSized(cfg: Config, s: State, c: nat)
    requires Ensure(cfg, s, c).Ok?
    ensures AllSized(cfg, Ensure(cfg, s, c).value)
  {
    hide Run, Evict, Fetch;
    if !Resident(s, c) {
      FetchedWhole(cfg, s, c);
      EvictSized(cfg, Run(s, FetchTrace(cfg, s, c, Fetch(cfg, s, c).value)));
    }
  }

  lemma {:induction false} ReadSized(cfg: Config, s: State, spans: seq<Span>)
    ensures AllSized(cfg, ReadSpans(cfg, s, spans).trace)
    decreases spans
  {
    hide Run, Ensure;
    if spans != [] && Ensure(cfg, s, spans[0].chunkId).Ok? {
      var t := Ensure(cfg, s, spans[0].chunkId).value;
      EnsureSized(cfg, s, spans[0].chunkId);
      ReadSized(cfg, Run(s, t + Touch(Run(s, t), spans[0].chunkId)), spans[1..]);
    }
  }

  lemma SyncOneSized(cfg: Config, s: State, c: nat)
    requires c in s.rows && AllWhole(cfg, s)
    ensures AllSized(cfg, SyncOne(cfg, s, c).trace)
  {
    assert ChunkWhole(cfg, s, c);
  }

  lemma {:induction false} SyncListSized(cfg: Config, s: State, list: seq<nat>)
    requires ToSync(s, list) && AllWhole(cfg, s)
    ensures AllSized(cfg, SyncList(cfg, s, list).trace)
    decreases list
  {
    hide Run, SyncOne, AllWhole, Sized;
    if list != [] {
      SyncOneSized(cfg, s, list[0]);
      if SyncOne(cfg, s, list[0]).result.Ok? {
        SizedWhole(cfg, s, SyncOne(cfg, s, list[0]).trace);
        SyncOneLeavesRest(cfg, s, list);
        SyncListSized(cfg, Run(s, SyncOne(cfg, s, list[0]).trace), list[1..]);
      }
    }
  }

  lemma SyncSized(cfg: Config, s: State)
    requires AllWhole(cfg, s)
    ensures AllSized(cfg, Sync(cfg, s).trace)
  {
    hide Run, SyncList, Evict, AllWhole, Sized;
    var u := SyncList(cfg, s, DirtyChunks(s.rows));
    SyncListSized(cfg, s, DirtyChunks(s.rows));
    EvictSized(cfg, Run(s, u.trace));
  }

  lemma {:induction false} StepsSized(cfg: Config, s: State, t: seq<Effect>)
    requires RecoverySteps(cfg, s, t)
    ensures AllSized(cfg, t)
    decreases t
  {
    if t != [] {
      StepsSized(cfg, Apply(s, t[0]), t[1..]);
      assert forall i :: 0 < i < |t| ==> t[i] == t[1..][i - 1];
    }
  }

  /** A write that runs on truncates files, but fills them again. */
  lemma SpanWhole(cfg: Config, s: State, sp: Span, data: seq<byte>)
    requires AllWhole(cfg, s) && Within(sp, data) && WriteSpan(cfg, s, sp, data).Ok?
    ensures AllWhole(cfg, Run(s, WriteSpan(cfg, s, sp, data).value))
  {
    hide Run, Commit, WriteSpan, Ensure, AllWhole, Look;
    WriteSpanIs(cfg, s, sp, data);
    var a := Prepare(cfg, s, sp).value;
    if IsFull(cfg, sp) {
      EmptiedWhole(cfg, s, sp.chunkId);
    } else {
      EnsureSized(cfg, s, sp.chunkId);
      SizedWhole(cfg, s, a);
    }
    CommitSized(cfg, Run(s, a), sp, SpanData(sp, data));
    SizedWhole(cfg, Run(s, a), Commit(cfg, Run(s, a), sp, SpanData(sp, data)));
    RunConcat(s, a, Commit(cfg, Run(s, a), sp, SpanData(sp, data)));
  }

  lemma CommitSized(cfg: Config, s: State, sp: Span, data: seq<byte>)
    ensures AllSized(cfg, Commit(cfg, s, sp, data))
  {
  }

  lemma EmptiedWhole(cfg: Config, s: State, c: nat)
    requires AllWhole(cfg, s)
    ensures AllWhole(cfg, Run(s, EmptyChunk(cfg, c)))
  {
    hide Run;
    Emptied(cfg, s, c, c);
    forall d: nat
      ensures ChunkWhole(cfg, Run(s, EmptyChunk(cfg, c)), d)
    {
      assert ChunkWhole(cfg, s, d);
    }
  }

  lemma {:induction false} WriteSpansWhole(cfg: Config, s: State, spans: seq<Span>, data: seq<byte>)
    requires AllWhole(cfg, s) && AllWithin(spans, data)
    ensures AllWhole(cfg, Run(s, WriteSpans(cfg, s, spans, data).trace))
    decreases |spans|
  {
    hide Run, WriteSpan, AllWhole;
    RunNothing(s);
    if spans != [] && WriteSpan(cfg, s, spans[0], data).Ok? {
      var t := WriteSpan(cfg, s, spans[0], data).value;
      SpanWhole(cfg, s, spans[0], data);
      WriteSpansWhole(cfg, Run(s, t), spans[1..], data);
      RunConcat(s, t, WriteSpans(cfg, Run(s, t), spans[1..], data).trace);
    }
  }

  lemma WriteWhole(cfg: Config, s: State, offset: nat, data: seq<byte>)
    requires AllWhole(cfg, s)
    ensures AllWhole(cfg, Run(s, Write(cfg, s, offset, data).trace))
  {
    hide Run, WriteSpans, Evict, AllWhole, Sized;
    RunNothing(s);
    if Spans(offset, |data|, cfg.geo).Ok? {
      var spans := Spans(offset, |data|, cfg.geo).value;
      SpansWithin(offset, data, cfg.geo);
      var w := WriteSpans(cfg, s, spans, data);
      WriteSpansWhole(cfg, s, spans, data);
      EvictSized(cfg, Run(s, w.trace));
      SizedWhole(cfg, Run(s, w.trace), Evict(cfg, Run(s, w.trace)));
      RunConcat(s, w.trace, Evict(cfg, Run(s, w.trace)));
    }
  }

  // ---------------------------------------------------------------- steps

  lemma BeginWhole(cfg: Config, s: State, op: Op)
    requires AllWhole(cfg, s)
    ensures AllWhole(cfg, Begin(s, op))
  {
    assert forall c: nat :: ChunkWhole(cfg, s, c) ==> ChunkWhole(cfg, Begin(s, op), c);
  }

  lemma OpSized(cfg: Config, s: State, op: Op)
    requires AllWhole(cfg, s) && !op.WriteOp?
    ensures AllSized(cfg, TraceOf(cfg, s, op))
  {
    hide Run, ReadSpans, Sync, Evict, Fsck, Recover, RecoverySteps, AllWhole, Sized;
    match op
    case ReadOp(offset, len) =>
      if Spans(offset, len, cfg.geo).Ok? {
        ReadSized(cfg, s, Spans(offset, len, cfg.geo).value);
      }
    case SyncOp => SyncSized(cfg, s);
    case EvictOp => EvictSized(cfg, s);
    case FsckOp(order) =>
      FsckIsSteps(cfg, s, order);
      StepsSized(cfg, s, Fsck(cfg, s, order));
    case OpenOp(order) =>
      RecoverIsSteps(cfg, Loaded(s), order);
      StepsSized(cfg, Loaded(s), Recover(cfg, Loaded(s), order));
  }

  lemma LossWhole(cfg: Config, s: State, gone: set<nat>)
    requires AllWhole(cfg, s)
    ensures AllWhole(cfg, LoseFiles(s, gone)) && AllWhole(cfg, Loaded(LoseFiles(s, gone))) && AllWhole(cfg, Loaded(s))
  {
    assert forall c: nat :: ChunkWhole(cfg, s, c) ==> ChunkWhole(cfg, LoseFiles(s, gone), c);
    assert forall c: nat :: ChunkWhole(cfg, s, c) ==> ChunkWhole(cfg, Loaded(LoseFiles(s, gone)), c);
    assert forall c: nat :: ChunkWhole(cfg, s, c) ==> ChunkWhole(cfg, Loaded(s), c);
  }

  lemma RecoverWhole(cfg: Config, s: State, order: seq<nat>, k: nat)
    requires AllWhole(cfg, s) && k <= |Recover(cfg, s, order)|
    ensures AllWhole(cfg, Run(s, Recover(cfg, s, order)[..k])) && AllWhole(cfg, Run(s, Recover(cfg, s, order)))
  {
    hide AllWhole, RecoverySteps, Recover, Run, Sized;
    RecoverIsSteps(cfg, s, order);
    StepsSized(cfg, s, Recover(cfg, s, order));
    SizedRun(cfg, s, Recover(cfg, s, order), k);
    SizedWhole(cfg, s, Recover(cfg, s, order));
  }

  lemma {:induction false} BootsWhole(cfg: Config, s: State, boots: seq<Boot>)
    requires AllWhole(cfg, s) && BootsFit(cfg, s, boots)
    ensures AllWhole(cfg, AfterBoots(cfg, s, boots))
    decreases boots
  {
    hide AllWhole, Recover, Run, IsOrder, LoseFiles, Loaded;
    if boots != [] {
      LossWhole(cfg, s, boots[0].gone);
      RecoverWhole(cfg, Booted(s, boots[0]), boots[0].order, boots[0].at);
      BootsWhole(cfg, AfterBoot(cfg, s, boots[0]), boots[1..]);
    }
  }

  /** Every step but a crash inside a write keeps all files and objects whole. */
  lemma StepKeepsWhole(cfg: Config, s: State, step: Step)
    requires AllWhole(cfg, s) && Possible(cfg, s, step) && !(step.Crashes? && step.op.WriteOp?)
    ensures AllWhole(cfg, After(cfg, s, step))
  {
    hide AllWhole, Recover, Run, IsOrder, LoseFiles, Loaded, TraceOf, RecoverySteps, Fsck, Sized, Write;
    match step
    case Completes(op) =>
      BeginWhole(cfg, s, op);
      if op.WriteOp? {
        WriteWhole(cfg, s, op.offset, op.data);
        WriteTrace(cfg, s, op);
      } else {
        OpSized(cfg, s, op);
        SizedWhole(cfg, Begin(s, op), TraceOf(cfg, s, op));
      }
    case Crashes(op, at, junk, boots, order) =>
      BeginWhole(cfg, s, op);
      OpSized(cfg, s, op);
      SizedRun(cfg, Begin(s, op), TraceOf(cfg, s, op), at);
      OnlyWritesTear(cfg, s, op, [], at, junk);
      BootsWhole(cfg, CrashState(cfg, s, step), boots);
      LossWhole(cfg, AfterBoots(cfg, CrashState(cfg, s, step), boots), {});
      RecoverWhole(cfg, Loaded(AfterBoots(cfg, CrashState(cfg, s, step), boots)), order, 0);
    case Loses(gone, live, order) =>
      LossWhole(cfg, s, gone);
      if live {
        FsckIsSteps(cfg, LoseFiles(s, gone), order);
        StepsSized(cfg, LoseFiles(s, gone), Fsck(cfg, LoseFiles(s, gone), order));
        SizedWhole(cfg, LoseFiles(s, gone), Fsck(cfg, LoseFiles(s, gone), order));
      } else {
        RecoverWhole(cfg, Loaded(LoseFiles(s, gone)), order, 0);
      }
    case Vanishes(gone) => LossWhole(cfg, s, gone);
    case Outage(down) => OutageWhole(cfg, s, down);
  }

  lemma WriteTrace(cfg: Config, s: State, op: Op)
    requires op.WriteOp?
    ensures TraceOf(cfg, s, op) == Write(cfg, s, op.offset, op.data).trace && Begin(s, op) == s
  {
    hide Write;
  }

  lemma OutageWhole(cfg: Config, s: State, down: set<nat>)
    requires AllWhole(cfg, s)
    ensures AllWhole(cfg, s.(down := down))
  {
    assert forall c: nat :: ChunkWhole(cfg, s, c) ==> ChunkWhole(cfg, s.(down := down), c);
  }

  /** Over runs in which no write is cut by a crash, files and objects stay whole. */
  lemma {:induction false} WholeOverRuns(cfg: Config, s: State, steps: seq<Step>)
    requires AllWhole(cfg, s) && PossibleRun(cfg, s, steps)
    requires forall i :: 0 <= i < |steps| ==> !(steps[i].Crashes? && steps[i].op.WriteOp?)
    ensures AllWhole(cfg, RunAll(cfg, s, steps))
    decreases steps
  {
    hide AllWhole, Possible, After;
    if steps != [] {
      assert forall i :: 0 <= i < |steps[1..]| ==> steps[1..][i] == steps[i + 1];
      StepKeepsWhole(cfg, s, steps[0]);
      WholeOverRuns(cfg, After(cfg, s, steps[0]), steps[1..]);
    }
  }

  // ---------------------------------------------------------------- reads of whole chunks

  lemma WholeServable(cfg: Config, s: State, c: nat)
    requires AllWhole(cfg, s) && cfg.geo.ChunkLen(c) > 0
    ensures Servable(cfg, s, c) <==>
              !InError(s, c) && c !in s.down && HeldBytes(s.rows) + cfg.geo.ChunkLen(c) <= cfg.low
  {
    hide HeldBytes;
    assert ChunkWhole(cfg, s, c);
  }

  /** Then a read succeeds wherever its chunks are readable, the cloud answers, and they fit the cache. */
  lemma WholeReadSucceeds(cfg: Config, s: State, offset: nat, len: nat, v: Cells)
    requires Represents(cfg, s, v) && ClockAhead(s) && AllWhole(cfg, s) && offset + len <= |v|
    requires Spans(offset, len, cfg.geo).Ok? ==>
               forall i :: 0 <= i < |Spans(offset, len, cfg.geo).value| ==>
                 var c := Spans(offset, len, cfg.geo).value[i].chunkId;
                 !InError(s, c) && c !in s.down && HeldBytes(s.rows) + cfg.geo.ChunkLen(c) <= cfg.low
    ensures Read(cfg, s, offset, len).result.Ok? && |Read(cfg, s, offset, len).result.value| == len
  {
    hide Represents, AllWhole, Servable, Read, ClockAhead, HeldBytes, InError, Covers, Spans;
    RepresentsSize(cfg, s, v);
    SpansCover(offset, len, cfg.geo);
    var spans := Spans(offset, len, cfg.geo).value;
    forall i | 0 <= i < |spans|
      ensures Servable(cfg, s, spans[i].chunkId)
    {
      CoveredChunk(spans, offset, len, cfg.geo, 0, i);
      WholeServable(cfg, s, spans[i].chunkId);
    }
    ReadSucceeds(cfg, s, offset, len, v);
  }

  lemma {:induction false} CoveredChunk(spans: seq<Span>, start: nat, len: nat, g: Geometry, requestOffset: nat, i: nat)
    requires Covers(spans, start, len, g, requestOffset) && i < |spans|
    ensures g.ChunkLen(spans[i].chunkId) > 0
    decreases i
  {
    if i > 0 {
      CoveredChunk(spans[1..], start + spans[0].len, len - spans[0].len, g, requestOffset + spans[0].len, i - 1);
    }
  }
}
