/**
 * Whole runs of the engine: completed operations, crashes at any effect of any operation, losses of
 * local files and outages of the cloud, in any order. The engine refines a flat array of cells.
 */
module Runs {
  import opened Wrappers
  import opened Mapper
  import opened Metadata
  import opened Store
  import opened Volume
  import opened Operations
  import opened Safety
  import opened Transparency
  import opened Recovery
  import opened Writing

  datatype Op =
    | ReadOp(offset: nat, len: nat)
    | WriteOp(offset: nat, data: seq<byte>)
    | SyncOp
    | EvictOp
    | FsckOp(order: seq<nat>)
    | OpenOp(order: seq<nat>)

  /**
   * A boot that does not last: files were lost while the machine was down, the engine opens, and dies
   * after `at` effects of its recovery.
   */
  datatype Boot = Boot(gone: set<nat>, order: seq<nat>, at: nat)

  /**
   * One step of a run. A crash performs only the first `at` effects of the operation, the next one
   * torn into `junk` if it is an in-place write, and is followed by any number of boots that do not
   * last, and one that does. Files lost are followed by fsck in a live engine, by a reopen in a
   * stopped one; files that vanish are followed by whatever comes next, and nobody is told.
   */
  datatype Step =
    | Completes(op: Op)
    | Crashes(op: Op, at: nat, junk: seq<byte>, boots: seq<Boot>, order: seq<nat>)
    | Loses(gone: set<nat>, live: bool, order: seq<nat>)
    | Vanishes(gone: set<nat>)
    | Outage(down: set<nat>)

  function Begin(s: State, op: Op): State {
    if op.OpenOp? then Loaded(s) else s
  }

  /** The effects of an operation that runs to its end, from `Begin(s, op)`. */
  ghost function TraceOf(cfg: Config, s: State, op: Op): seq<Effect> {
    match op
    case ReadOp(offset, len) => Read(cfg, s, offset, len).trace
    case WriteOp(offset, data) => Write(cfg, s, offset, data).trace
    case SyncOp => Sync(cfg, s).trace
    case EvictOp => Evict(cfg, s)
    case FsckOp(order) => Fsck(cfg, s, order)
    case OpenOp(order) => Recover(cfg, Loaded(s), order)
  }

  ghost function CrashState(cfg: Config, s: State, step: Step): State
    requires step.Crashes? && step.at <= |TraceOf(cfg, s, step.op)|
  {
    Torn(Begin(s, step.op), TraceOf(cfg, s, step.op), step.at, step.junk)
  }

  /** What a boot finds, and starts to recover. */
  function Booted(s: State, b: Boot): State { Loaded(LoseFiles(s, b.gone)) }

  predicate BootFits(cfg: Config, s: State, b: Boot) { b.at <= |Recover(cfg, Booted(s, b), b.order)| }

  function AfterBoot(cfg: Config, s: State, b: Boot): State
    requires BootFits(cfg, s, b)
  {
    Run(Booted(s, b), Recover(cfg, Booted(s, b), b.order)[..b.at])
  }

  ghost predicate BootsFit(cfg: Config, s: State, boots: seq<Boot>)
    decreases boots
  {
    boots != [] ==>
      IsOrder(boots[0].order, s.journal) && BootFits(cfg, s, boots[0])
          && BootsFit(cfg, AfterBoot(cfg, s, boots[0]), boots[1..])
  }

  ghost function AfterBoots(cfg: Config, s: State, boots: seq<Boot>): State
    requires BootsFit(cfg, s, boots)
    decreases boots
  {
    if boots == [] then s else AfterBoots(cfg, AfterBoot(cfg, s, boots[0]), boots[1..])
  }

  ghost function After(cfg: Config, s: State, step: Step): State
    requires Possible(cfg, s, step)
  {
    match step
    case Completes(op) => Run(Begin(s, op), TraceOf(cfg, s, op))
    case Crashes(_, _, _, boots, order) => Reopened(cfg, AfterBoots(cfg, CrashState(cfg, s, step), boots), order)
    case Loses(gone, live, order) =>
      var lost := LoseFiles(s, gone);
      if live then Run(lost, Fsck(cfg, lost, order)) else Reopened(cfg, lost, order)
    case Vanishes(gone) => LoseFiles(s, gone)
    case Outage(down) => s.(down := down)
  }

  /** The iteration orders used are orders of the journal at hand, and a crash is within what it cuts. */
  ghost predicate Possible(cfg: Config, s: State, step: Step) {
    match step
    case Completes(op) => OrderFits(s, op)
    case Crashes(op, at, _, boots, order) =>
      && OrderFits(s, op) && at <= |TraceOf(cfg, s, op)|
      && BootsFit(cfg, CrashState(cfg, s, step), boots) && IsOrder(order, CrashState(cfg, s, step).journal)
    case Loses(_, _, order) => IsOrder(order, s.journal)
    case Vanishes(_) => true
    case Outage(_) => true
  }

  ghost predicate OrderFits(s: State, op: Op) {
    (op.FsckOp? ==> IsOrder(op.order, s.journal)) && (op.OpenOp? ==> IsOrder(op.order, s.journal))
  }

  /** No file vanishes that is the only copy of its chunk. */
  predicate VanishesSafely(s: State, step: Step) {
    step.Vanishes? ==> forall c :: c in step.gone ==> !OnlyLocal(s, c)
  }

  /** Every write of the step is guarded, and nothing vanishes unnoticed that matters. */
  ghost predicate Safe(cfg: Config, s: State, v: Cells, step: Step) {
    && VanishesSafely(s, step)
    && ((step.Completes? || step.Crashes?) && step.op.WriteOp? ==> WriteGuard(cfg, s, step.op.offset, step.op.data, v))
  }

  /** The step loses no files while the machine is down after a crash. */
  predicate KeepsFilesDown(step: Step) {
    step.Crashes? ==> forall i :: 0 <= i < |step.boots| ==> step.boots[i].gone == {}
  }

  /** The volume after the step: only writes change it, a crash only in the span in flight. */
  ghost function Expected(cfg: Config, s: State, v: Cells, step: Step): Cells {
    if step.Completes? && step.op.WriteOp? then
      Reached(v, step.op.offset, step.op.data, Progress(Acknowledged(cfg, s, step.op.offset, step.op.data), 0))
    else if step.Crashes? && step.op.WriteOp? then
      Reached(v, step.op.offset, step.op.data, WriteProgress(cfg, s, step.op.offset, step.op.data, step.at))
    else v
  }

  // ---------------------------------------------------------------- one step

  lemma FsckIsSteps(cfg: Config, s: State, order: seq<nat>)
    ensures RecoverySteps(cfg, s, Fsck(cfg, s, order))
  {
    ValidateSteps(cfg, s, AllChunks(s.rows));
    RecoverIsSteps(cfg, Run(s, Validate(s)), order);
    StepsConcat(cfg, s, Validate(s), Recover(cfg, Run(s, Validate(s)), order));
  }

  lemma LoadedSame(cfg: Config, s: State, v: Cells)
    ensures Represents(cfg, Loaded(s), v) <==> Represents(cfg, s, v)
    ensures Recoverable(cfg, Loaded(s), v) <==> Recoverable(cfg, s, v)
    ensures Salvageable(cfg, Loaded(s), v) <==> Salvageable(cfg, s, v)
  {
    assert forall c: nat :: Look(Loaded(s), c) == Look(s, c);
    assert forall c: nat :: ChunkSettled(cfg, Loaded(s), v, c) <==> ChunkSettled(cfg, s, v, c);
    assert forall c: nat :: ChunkSafe(cfg, Loaded(s), v, c) <==> ChunkSafe(cfg, s, v, c);
    assert forall c: nat :: ChunkSalvageable(cfg, Loaded(s), v, c) <==> ChunkSalvageable(cfg, s, v, c);
  }

  lemma ReopenRepresents(cfg: Config, s: State, order: seq<nat>, v: Cells)
    requires Salvageable(cfg, s, v) && IsOrder(order, s.journal)
    ensures Represents(cfg, Reopened(cfg, s, order), v)
  {
    LoadedSame(cfg, s, v);
    RecoverRepresents(cfg, Loaded(s), order, v);
  }

  /** An operation other than a write, run to its end, leaves the volume as it was. */
  lemma CompletesTransparently(cfg: Config, s: State, op: Op, v: Cells)
    requires Represents(cfg, s, v) && OrderFits(s, op) && !op.WriteOp?
    ensures Represents(cfg, Run(Begin(s, op), TraceOf(cfg, s, op)), v)
  {
    match op
    case ReadOp(offset, len) => ReadCorrect(cfg, s, offset, len, v);
    case SyncOp => SyncTransparent(cfg, s, v);
    case EvictOp => EvictTransparent(cfg, s, v);
    case FsckOp(order) =>
      SettledIsSafe(cfg, s, v);
      SafeIsSalvageable(cfg, s, v);
      FsckRepresents(cfg, s, order, v);
    case OpenOp(order) =>
      SettledIsSafe(cfg, s, v);
      SafeIsSalvageable(cfg, s, v);
      ReopenRepresents(cfg, s, order, v);
  }

  /** Crash transparency: an operation other than a write, cut anywhere, is recoverable to the same volume. */
  lemma CutTransparently(cfg: Config, s: State, op: Op, v: Cells, k: nat)
    requires Represents(cfg, s, v) && !op.WriteOp? && k <= |TraceOf(cfg, s, op)|
    ensures Recoverable(cfg, Run(Begin(s, op), TraceOf(cfg, s, op)[..k]), v)
  {
    var t := TraceOf(cfg, s, op);
    SettledIsSafe(cfg, s, v);
    match op
    case ReadOp(offset, len) =>
      ReadCorrect(cfg, s, offset, len, v);
      ThroughoutAt(cfg, s, t, v, k);
    case SyncOp =>
      SyncTransparent(cfg, s, v);
      ThroughoutAt(cfg, s, t, v, k);
    case EvictOp =>
      EvictTransparent(cfg, s, v);
      ThroughoutAt(cfg, s, t, v, k);
    case FsckOp(order) =>
      FsckIsSteps(cfg, s, order);
      RecoveryStepsSafe(cfg, s, t, v, k);
    case OpenOp(order) =>
      LoadedSame(cfg, s, v);
      RecoverIsSteps(cfg, Loaded(s), order);
      RecoveryStepsSafe(cfg, Loaded(s), t, v, k);
  }

  /** Only writes contain in-place writes, so nothing else can be torn. */
  lemma OnlyWritesTear(cfg: Config, s: State, op: Op, v: Cells, k: nat, junk: seq<byte>)
    requires !op.WriteOp? && k <= |TraceOf(cfg, s, op)|
    ensures Torn(Begin(s, op), TraceOf(cfg, s, op), k, junk) == Run(Begin(s, op), TraceOf(cfg, s, op)[..k])
  {
    match op
    case ReadOp(offset, len) =>
      if Spans(offset, len, cfg.geo).Ok? {
        ReadQuiet(cfg, s, Spans(offset, len, cfg.geo).value);
      }
    case SyncOp => SyncQuiet(cfg, s);
    case EvictOp => EvictQuiet(cfg, s);
    case FsckOp(order) =>
      FsckIsSteps(cfg, s, order);
      StepsQuiet(cfg, s, TraceOf(cfg, s, op));
    case OpenOp(order) =>
      RecoverIsSteps(cfg, Loaded(s), order);
      StepsQuiet(cfg, Loaded(s), TraceOf(cfg, s, op));
  }

  lemma {:induction false} StepsQuiet(cfg: Config, s: State, t: seq<Effect>)
    requires RecoverySteps(cfg, s, t)
    ensures Quiet(t)
    decreases t
  {
    if t != [] {
      StepsQuiet(cfg, Apply(s, t[0]), t[1..]);
      assert forall i :: 0 < i < |t| ==> t[i] == t[1..][i - 1];
    }
  }

  lemma {:induction false} ReadQuiet(cfg: Config, s: State, spans: seq<Span>)
    ensures Quiet(ReadSpans(cfg, s, spans).trace)
    decreases spans
  {
    hide Ensure, Run, Look;
    if spans != [] && Ensure(cfg, s, spans[0].chunkId).Ok? {
      var t := Ensure(cfg, s, spans[0].chunkId).value;
      EnsureQuiet(cfg, s, spans[0].chunkId);
      ReadQuiet(cfg, Run(s, t + Touch(Run(s, t), spans[0].chunkId)), spans[1..]);
    }
  }

  lemma {:induction false} SyncListQuiet(cfg: Config, s: State, list: seq<nat>)
    requires forall c :: c in list ==> c in s.rows
    ensures Quiet(SyncList(cfg, s, list).trace)
    decreases list
  {
    if list != [] && SyncOne(cfg, s, list[0]).result.Ok? {
      SyncListQuiet(cfg, Run(s, SyncOne(cfg, s, list[0]).trace), list[1..]);
    }
  }

  lemma SyncQuiet(cfg: Config, s: State)
    ensures Quiet(Sync(cfg, s).trace)
  {
    hide Run, SyncList, Evict;
    SyncListQuiet(cfg, s, DirtyChunks(s.rows));
    EvictQuiet(cfg, Run(s, SyncList(cfg, s, DirtyChunks(s.rows)).trace));
  }

  lemma LossIsSafe(cfg: Config, s: State, gone: set<nat>, v: Cells)
    ensures LoseFiles(s, {}) == s
    ensures Salvageable(cfg, s, v) ==> Salvageable(cfg, LoseFiles(s, gone), v)
    ensures gone == {} && Recoverable(cfg, s, v) ==> Recoverable(cfg, LoseFiles(s, gone), v)
  {
    hide Salvageable, Recoverable;
    assert s.files - {} == s.files;
    if Salvageable(cfg, s, v) {
      LossIsSalvageable(cfg, s, gone, v);
    }
  }

  lemma BootKeeps(cfg: Config, s: State, b: Boot, v: Cells)
    requires BootFits(cfg, s, b) && IsOrder(b.order, s.journal)
    ensures AfterBoot(cfg, s, b).journal == s.journal
    ensures Salvageable(cfg, s, v) ==> Salvageable(cfg, AfterBoot(cfg, s, b), v)
    ensures b.gone == {} && Recoverable(cfg, s, v) ==> Recoverable(cfg, AfterBoot(cfg, s, b), v)
  {
    hide Salvageable, Recoverable, Recover, Run, RecoverySteps, Loaded, LoseFiles;
    LossIsSafe(cfg, s, b.gone, v);
    LoadedSame(cfg, LoseFiles(s, b.gone), v);
    BootJournal(s, b);
    RecoverIsSteps(cfg, Booted(s, b), b.order);
    RecoveryStepsSafe(cfg, Booted(s, b), Recover(cfg, Booted(s, b), b.order), v, b.at);
  }

  lemma BootJournal(s: State, b: Boot)
    ensures Booted(s, b).journal == s.journal
  {
  }

  /** However often booting fails, and whatever files are lost meanwhile, nothing that matters is lost. */
  lemma {:induction false} BootsKeep(cfg: Config, s: State, boots: seq<Boot>, v: Cells)
    requires BootsFit(cfg, s, boots)
    ensures AfterBoots(cfg, s, boots).journal == s.journal
    ensures Salvageable(cfg, s, v) ==> Salvageable(cfg, AfterBoots(cfg, s, boots), v)
    ensures (forall i :: 0 <= i < |boots| ==> boots[i].gone == {}) && Recoverable(cfg, s, v) ==>
              Recoverable(cfg, AfterBoots(cfg, s, boots), v)
    decreases boots
  {
    hide Salvageable, Recoverable, AfterBoot, BootFits, IsOrder;
    if boots != [] {
      BootKeeps(cfg, s, boots[0], v);
      BootsKeep(cfg, AfterBoot(cfg, s, boots[0]), boots[1..], v);
      assert forall i :: 0 <= i < |boots[1..]| ==> boots[1..][i] == boots[i + 1];
    }
  }

  /** A file that is not the only copy can vanish unnoticed. */
  lemma VanishingIsSafe(cfg: Config, s: State, gone: set<nat>, v: Cells)
    requires Represents(cfg, s, v) && forall c :: c in gone ==> !OnlyLocal(s, c)
    ensures Represents(cfg, LoseFiles(s, gone), v)
  {
    var s' := LoseFiles(s, gone);
    forall d: nat
      ensures ChunkSettled(cfg, s', v, d)
    {
      assert ChunkSettled(cfg, s, v, d);
      assert Look(s', d) == if d in gone then Look(s, d).(file := None) else Look(s, d);
      LookRow(s, d);
    }
  }

  /** Every step of a run keeps the engine representing the volume that the step is expected to leave. */
  lemma StepRepresents(cfg: Config, s: State, v: Cells, step: Step)
    requires Represents(cfg, s, v) && Possible(cfg, s, step) && Safe(cfg, s, v, step)
    ensures Represents(cfg, After(cfg, s, step), Expected(cfg, s, v, step))
  {
    match step
    case Completes(op) =>
      if op.WriteOp? {
        WriteCorrect(cfg, s, op.offset, op.data, v);
      } else {
        CompletesTransparently(cfg, s, op, v);
      }
    case Crashes(op, at, junk, boots, order) =>
      CrashRepresents(cfg, s, v, step);
    case Loses(gone, live, order) =>
      SettledIsSafe(cfg, s, v);
      SafeIsSalvageable(cfg, s, v);
      LossIsSalvageable(cfg, s, gone, v);
      if live {
        FsckRepresents(cfg, LoseFiles(s, gone), order, v);
      } else {
        ReopenRepresents(cfg, LoseFiles(s, gone), order, v);
      }
    case Vanishes(gone) => VanishingIsSafe(cfg, s, gone, v);
    case Outage(down) =>
      assert forall c: nat :: Look(s.(down := down), c) == Look(s, c);
      assert forall c: nat :: ChunkSettled(cfg, s, v, c) ==> ChunkSettled(cfg, s.(down := down), v, c);
  }

  lemma CrashRepresents(cfg: Config, s: State, v: Cells, step: Step)
    requires Represents(cfg, s, v) && Possible(cfg, s, step) && Safe(cfg, s, v, step) && step.Crashes?
    ensures Recoverable(cfg, CrashState(cfg, s, step), Expected(cfg, s, v, step))
    ensures Represents(cfg, After(cfg, s, step), Expected(cfg, s, v, step))
  {
    var op := step.op;
    if op.WriteOp? {
      WriteCrash(cfg, s, op.offset, op.data, v, step.at, step.junk);
    } else {
      CutTransparently(cfg, s, op, v, step.at);
      OnlyWritesTear(cfg, s, op, v, step.at, step.junk);
    }
    SafeIsSalvageable(cfg, CrashState(cfg, s, step), Expected(cfg, s, v, step));
    BootsKeep(cfg, CrashState(cfg, s, step), step.boots, Expected(cfg, s, v, step));
    ReopenRepresents(cfg, AfterBoots(cfg, CrashState(cfg, s, step), step.boots), step.order, Expected(cfg, s, v, step));
  }

  // ---------------------------------------------------------------- runs

  predicate AllKeepFilesDown(steps: seq<Step>) { forall i :: 0 <= i < |steps| ==> KeepsFilesDown(steps[i]) }

  /** A run that can happen; its writes need not be guarded. */
  ghost predicate PossibleRun(cfg: Config, s: State, steps: seq<Step>)
    decreases steps
  {
    steps != [] ==> Possible(cfg, s, steps[0]) && PossibleRun(cfg, After(cfg, s, steps[0]), steps[1..])
  }

  /** Every write of the run is guarded when its turn comes. */
  ghost predicate GuardedRun(cfg: Config, s: State, v: Cells, steps: seq<Step>)
    requires PossibleRun(cfg, s, steps)
    decreases steps
  {
    steps != [] ==>
      && Safe(cfg, s, v, steps[0])
      && GuardedRun(cfg, After(cfg, s, steps[0]), Expected(cfg, s, v, steps[0]), steps[1..])
  }

  ghost function RunAll(cfg: Config, s: State, steps: seq<Step>): State
    requires PossibleRun(cfg, s, steps)
    decreases steps
  {
    if steps == [] then s else RunAll(cfg, After(cfg, s, steps[0]), steps[1..])
  }

  ghost function ExpectedAll(cfg: Config, s: State, v: Cells, steps: seq<Step>): Cells
    requires PossibleRun(cfg, s, steps)
    decreases steps
  {
    if steps == [] then v else ExpectedAll(cfg, After(cfg, s, steps[0]), Expected(cfg, s, v, steps[0]), steps[1..])
  }

  /** A completed read that succeeds returns bytes that the volume allows at that point. */
  ghost predicate ReadAgrees(cfg: Config, s: State, v: Cells, step: Step) {
    step.Completes? && step.op.ReadOp? ==>
      var o := Read(cfg, s, step.op.offset, step.op.len);
      o.result.Ok? ==>
        && step.op.offset + step.op.len <= |v|
        && Agrees(o.result.value, v[step.op.offset..step.op.offset + step.op.len])
  }

  ghost predicate ReadsAgree(cfg: Config, s: State, v: Cells, steps: seq<Step>)
    requires PossibleRun(cfg, s, steps)
    decreases steps
  {
    steps != [] ==>
      && ReadAgrees(cfg, s, v, steps[0])
      && ReadsAgree(cfg, After(cfg, s, steps[0]), Expected(cfg, s, v, steps[0]), steps[1..])
  }

  lemma StepReadAgrees(cfg: Config, s: State, v: Cells, step: Step)
    requires Represents(cfg, s, v)
    ensures ReadAgrees(cfg, s, v, step)
  {
    hide Represents, Read, Agrees, Run;
    if step.Completes? && step.op.ReadOp? {
      ReadCorrect(cfg, s, step.op.offset, step.op.len, v);
    }
  }

  /**
   * The refinement theorem: over every run of guarded writes, reads, syncs, evictions, fscks and
   * reopens, interleaved with crashes at any effect, losses of any local files and cloud outages,
   * the engine behaves as one flat array of cells, and no read ever returns other bytes.
   */
  lemma {:induction false} EngineRefinesArray(cfg: Config, s: State, v: Cells, steps: seq<Step>)
    requires Represents(cfg, s, v) && PossibleRun(cfg, s, steps) && GuardedRun(cfg, s, v, steps)
    ensures Represents(cfg, RunAll(cfg, s, steps), ExpectedAll(cfg, s, v, steps))
    ensures ReadsAgree(cfg, s, v, steps)
    decreases steps
  {
    hide Represents, Possible, Safe, Expected, After, ReadAgrees;
    if steps != [] {
      StepRepresents(cfg, s, v, steps[0]);
      StepReadAgrees(cfg, s, v, steps[0]);
      EngineRefinesArray(cfg, After(cfg, s, steps[0]), Expected(cfg, s, v, steps[0]), steps[1..]);
    }
  }

  // ---------------------------------------------------------------- where runs start

  /** What the cloud holds of chunk c, or zeroes. */
  function ImageOf(cfg: Config, cloud: map<nat, seq<byte>>, c: nat): seq<byte> {
    if c in cloud then cloud[c] else Zeroes(cfg.geo.ChunkLen(c))
  }

  /** A volume can be created over a cloud exactly if the objects it finds there fit the volume's chunks. */
  lemma CreatedExactly(cfg: Config, cloud: map<nat, seq<byte>>, v: Cells)
    requires cfg.Valid() && |v| == cfg.geo.volume
    ensures Represents(cfg, Created(cloud), v) <==>
              forall c: nat :: c < cfg.geo.TotalChunks() ==> Fills(ImageOf(cfg, cloud, c), Part(v, cfg.geo, c))
  {
    ChunksCoverVolume(cfg.geo);
    forall c: nat
      ensures ChunkSettled(cfg, Created(cloud), v, c) <==> Fills(ImageOf(cfg, cloud, c), Part(v, cfg.geo, c))
      ensures c >= cfg.geo.TotalChunks() ==> Part(v, cfg.geo, c) == []
    {
      PartLength(v, cfg.geo, c);
    }
  }

  /** No object is longer than its chunk; objects beyond the volume do not matter. */
  predicate Fitting(cfg: Config, cloud: map<nat, seq<byte>>)
    requires cfg.geo.chunk > 0
  {
    forall c :: c in cloud && c < cfg.geo.TotalChunks() ==> |cloud[c]| <= cfg.geo.ChunkLen(c)
  }

  /** The objects side by side, with zeroes for those that are missing. */
  function Images(cfg: Config, cloud: map<nat, seq<byte>>): seq<byte>
    requires cfg.geo.chunk > 0
  {
    seq(cfg.geo.volume, i requires 0 <= i < cfg.geo.volume => ByteAt(cloud, i / cfg.geo.chunk, i % cfg.geo.chunk))
  }

  function ByteAt(cloud: map<nat, seq<byte>>, c: nat, k: nat): byte {
    if c in cloud && k < |cloud[c]| then cloud[c][k] else 0
  }

  /** A new volume over a populated backend holds the objects found there, filled with zeroes. */
  lemma CreatedRepresents(cfg: Config, cloud: map<nat, seq<byte>>)
    requires cfg.Valid() && Fitting(cfg, cloud)
    ensures Represents(cfg, Created(cloud), Known(Images(cfg, cloud)))
  {
    hide Represents, Images, Part;
    var v := Known(Images(cfg, cloud));
    ImagesSize(cfg, cloud);
    forall c: nat | c < cfg.geo.TotalChunks()
      ensures Fills(ImageOf(cfg, cloud, c), Part(v, cfg.geo, c))
    {
      ImagesPart(cfg, cloud, c);
    }
    CreatedExactly(cfg, cloud, v);
  }

  lemma ImagesSize(cfg: Config, cloud: map<nat, seq<byte>>)
    requires cfg.Valid()
    ensures |Known(Images(cfg, cloud))| == cfg.geo.volume
  {
  }

  lemma ImagesPart(cfg: Config, cloud: map<nat, seq<byte>>, c: nat)
    requires cfg.Valid() && Fitting(cfg, cloud) && c < cfg.geo.TotalChunks()
    ensures Fills(ImageOf(cfg, cloud, c), Part(Known(Images(cfg, cloud)), cfg.geo, c))
  {
    var v, n, start := Known(Images(cfg, cloud)), cfg.geo.ChunkLen(c), cfg.geo.Start(c);
    PartLength(v, cfg.geo, c);
    StartIs(cfg.geo, c);
    forall k | 0 <= k < n
      ensures Part(v, cfg.geo, c)[k] == Some(ByteAt(cloud, c, k))
    {
      QuotientUnique(c, k, cfg.geo.chunk);
      assert Part(v, cfg.geo, c)[k] == v[start + k];
    }
  }

  /** Over an empty backend it is all zeroes. */
  lemma FreshVolume(cfg: Config)
    requires cfg.Valid()
    ensures Represents(cfg, Created(map[]), Known(Zeroes(cfg.geo.volume)))
  {
    hide Represents;
    CreatedRepresents(cfg, map[]);
    assert Images(cfg, map[]) == Zeroes(cfg.geo.volume);
  }
}
