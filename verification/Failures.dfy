/**
 * What failures leave behind: a lost Dirty chunk stays in Error, and every read of it fails, until
 * it is overwritten whole; and the acknowledged part of a failed write is Dirty and journaled.
 */
module Failures {
  import opened Wrappers
  import opened Mapper
  import opened Metadata
  import opened Store
  import opened Volume
  import opened Operations
  import opened Safety
  import opened Transparency
  import opened Recovery
  import opened Writing
  import opened Runs
  import opened Guards
  import opened Exactness

  /** The chunk is in Error and its file is gone. */
  predicate Broken(s: State, c: nat) { InError(s, c) && c !in s.files }

  predicate Avoids(t: seq<Effect>, c: nat) {
    forall i :: 0 <= i < |t| ==> Target(t[i]) != c
  }

  lemma {:induction false} AvoidsLook(s: State, t: seq<Effect>, c: nat)
    requires Avoids(t, c)
    ensures Look(Run(s, t), c) == Look(s, c)
    decreases t
  {
    if t != [] {
      LookAfter(s, t[0], c);
      AvoidsLook(Apply(s, t[0]), t[1..], c);
    }
  }

  lemma StillBroken(s: State, t: seq<Effect>, c: nat)
    requires Broken(s, c) && Avoids(t, c)
    ensures Broken(Run(s, t), c)
  {
    hide Run;
    AvoidsLook(s, t, c);
    LookRow(s, c);
    LookRow(Run(s, t), c);
  }

  lemma {:induction false} EvictListAvoids(cfg: Config, s: State, list: seq<nat>, cached: nat, c: nat)
    requires (forall d :: d in list ==> d in s.rows) && c !in list
    ensures Avoids(EvictList(cfg, s, list, cached), c)
    decreases list
  {
    if list != [] && cached > cfg.low {
      EvictListAvoids(cfg, Run(s, EvictOne(s, list[0])), list[1..], SaturatingSub(cached, s.rows[list[0]].size), c);
    }
  }

  lemma EvictAvoids(cfg: Config, s: State, c: nat)
    requires Broken(s, c)
    ensures Avoids(Evict(cfg, s), c)
  {
    if CachedBytes(s.rows) > cfg.cacheMax {
      EvictListAvoids(cfg, s, EvictableCleanChunks(s.rows), CachedBytes(s.rows), c);
    }
  }

  lemma EnsureAvoids(cfg: Config, s: State, d: nat, c: nat)
    requires Broken(s, c) && Ensure(cfg, s, d).Ok?
    ensures d != c && Avoids(Ensure(cfg, s, d).value, c) && Broken(Run(s, Ensure(cfg, s, d).value), c)
  {
    if !Resident(s, d) {
      var t := FetchTrace(cfg, s, d, Fetch(cfg, s, d).value);
      StillBroken(s, t, c);
      EvictAvoids(cfg, Run(s, t), c);
    }
    StillBroken(s, Ensure(cfg, s, d).value, c);
  }

  /** A read leaves a broken chunk alone, and fails if it touches it. */
  lemma {:induction false} ReadSpansAvoid(cfg: Config, s: State, spans: seq<Span>, c: nat)
    requires Broken(s, c)
    ensures Avoids(ReadSpans(cfg, s, spans).trace, c)
    ensures (exists i :: 0 <= i < |spans| && spans[i].chunkId == c) ==> ReadSpans(cfg, s, spans).result.Err?
    decreases spans
  {
    hide Run, Evict;
    if spans != [] && Ensure(cfg, s, spans[0].chunkId).Ok? {
      var d, t := spans[0].chunkId, Ensure(cfg, s, spans[0].chunkId).value;
      EnsureAvoids(cfg, s, d, c);
      var t' := t + Touch(Run(s, t), d);
      StillBroken(s, t', c);
      ReadSpansAvoid(cfg, Run(s, t'), spans[1..], c);
      assert forall i :: 0 < i < |spans| ==> spans[i] == spans[1..][i - 1];
    }
  }

  lemma {:induction false} SyncListAvoids(cfg: Config, s: State, list: seq<nat>, c: nat)
    requires ToSync(s, list) && c !in list
    ensures Avoids(SyncList(cfg, s, list).trace, c)
    decreases list
  {
    if list != [] && SyncOne(cfg, s, list[0]).result.Ok? {
      SyncOneLeavesRest(cfg, s, list);
      SyncListAvoids(cfg, Run(s, SyncOne(cfg, s, list[0]).trace), list[1..], c);
    }
  }

  lemma SyncAvoids(cfg: Config, s: State, c: nat)
    requires Broken(s, c)
    ensures Avoids(Sync(cfg, s).trace, c)
  {
    hide Run, Evict, SyncList;
    var list := DirtyChunks(s.rows);
    SyncListAvoids(cfg, s, list, c);
    var u := SyncList(cfg, s, list);
    StillBroken(s, u.trace, c);
    EvictAvoids(cfg, Run(s, u.trace), c);
  }

  /** A span that overwrites chunk c from end to end. */
  predicate ReplacesChunk(cfg: Config, sp: Span, c: nat) { sp.chunkId == c && IsFull(cfg, sp) }

  lemma WriteSpanAvoids(cfg: Config, s: State, sp: Span, data: seq<byte>, c: nat)
    requires Broken(s, c) && Within(sp, data) && WriteSpan(cfg, s, sp, data).Ok? && !ReplacesChunk(cfg, sp, c)
    ensures sp.chunkId != c && Avoids(WriteSpan(cfg, s, sp, data).value, c)
  {
    hide Run, Commit, WriteSpan, Ensure, Look, InError;
    WriteSpanIs(cfg, s, sp, data);
    var a := Prepare(cfg, s, sp).value;
    CommitIsCommitAt(cfg, Run(s, a), sp, SpanData(sp, data));
    if !IsFull(cfg, sp) {
      EnsureAvoids(cfg, s, sp.chunkId, c);
    }
    assert Avoids(a, c) && Avoids(Commit(cfg, Run(s, a), sp, SpanData(sp, data)), c);
  }

  lemma {:induction false} WriteSpansAvoid(cfg: Config, s: State, spans: seq<Span>, data: seq<byte>, c: nat)
    requires Broken(s, c) && AllWithin(spans, data) && forall i :: 0 <= i < |spans| ==> !ReplacesChunk(cfg, spans[i], c)
    ensures Avoids(WriteSpans(cfg, s, spans, data).trace, c)
    decreases spans
  {
    hide Run, WriteSpan;
    if spans != [] && WriteSpan(cfg, s, spans[0], data).Ok? {
      var t := WriteSpan(cfg, s, spans[0], data).value;
      WriteSpanAvoids(cfg, s, spans[0], data, c);
      StillBroken(s, t, c);
      WriteSpansAvoid(cfg, Run(s, t), spans[1..], data, c);
    }
  }

  /** The request overwrites chunk c from end to end. */
  predicate Replaces(cfg: Config, op: Op, c: nat) {
    op.WriteOp? && Spans(op.offset, |op.data|, cfg.geo).Ok?
    && exists sp :: sp in Spans(op.offset, |op.data|, cfg.geo).value && ReplacesChunk(cfg, sp, c)
  }

  lemma WriteAvoids(cfg: Config, s: State, offset: nat, data: seq<byte>, c: nat)
    requires Broken(s, c) && !Replaces(cfg, WriteOp(offset, data), c)
    ensures Avoids(Write(cfg, s, offset, data).trace, c)
  {
    hide Run, WriteSpans, Evict;
    if Spans(offset, |data|, cfg.geo).Ok? {
      var spans := Spans(offset, |data|, cfg.geo).value;
      SpansWithin(offset, data, cfg.geo);
      forall i | 0 <= i < |spans|
        ensures !ReplacesChunk(cfg, spans[i], c)
      {
        assert spans[i] in spans;
      }
      WriteSpansAvoid(cfg, s, spans, data, c);
      var w := WriteSpans(cfg, s, spans, data);
      StillBroken(s, w.trace, c);
      EvictAvoids(cfg, Run(s, w.trace), c);
    }
  }

  lemma {:induction false} ValidateListAvoids(s: State, list: seq<nat>, c: nat)
    requires Broken(s, c) && forall d :: d in list ==> d in s.rows
    ensures Avoids(ValidateList(s, list), c)
    decreases list
  {
    if list != [] {
      StillBroken(s, ValidateOne(s, list[0]), c);
      ValidateListAvoids(Run(s, ValidateOne(s, list[0])), list[1..], c);
    }
  }

  lemma {:induction false} RebuildListAvoids(cfg: Config, s: State, order: seq<nat>, c: nat)
    requires Broken(s, c)
    ensures Avoids(RebuildList(cfg, s, order), c)
    decreases order
  {
    if order != [] {
      StillBroken(s, RebuildOne(cfg, s, order[0]), c);
      RebuildListAvoids(cfg, Run(s, RebuildOne(cfg, s, order[0])), order[1..], c);
    }
  }

  lemma RecoverAvoids(cfg: Config, s: State, order: seq<nat>, c: nat)
    requires Broken(s, c)
    ensures Avoids(Recover(cfg, s, order), c) && Broken(Run(s, Recover(cfg, s, order)), c)
  {
    hide Run, RebuildList, ValidateList, InError;
    ValidateListAvoids(s, AllChunks(s.rows), c);
    StillBroken(s, Validate(s), c);
    RebuildListAvoids(cfg, Run(s, Validate(s)), order, c);
    StillBroken(s, Recover(cfg, s, order), c);
  }

  lemma FsckAvoids(cfg: Config, s: State, order: seq<nat>, c: nat)
    requires Broken(s, c)
    ensures Avoids(Fsck(cfg, s, order), c) && Broken(Run(s, Fsck(cfg, s, order)), c)
  {
    hide Run, Recover, ValidateList, InError;
    ValidateListAvoids(s, AllChunks(s.rows), c);
    StillBroken(s, Validate(s), c);
    RecoverAvoids(cfg, Run(s, Validate(s)), order, c);
    StillBroken(s, Fsck(cfg, s, order), c);
  }

  lemma OpAvoids(cfg: Config, s: State, op: Op, c: nat)
    requires Broken(s, c) && !Replaces(cfg, op, c)
    ensures Broken(Begin(s, op), c) && Avoids(TraceOf(cfg, s, op), c)
  {
    hide Run, Write, ReadSpans, Sync, Evict, Fsck, Recover;
    match op
    case ReadOp(offset, len) =>
      if Spans(offset, len, cfg.geo).Ok? {
        ReadSpansAvoid(cfg, s, Spans(offset, len, cfg.geo).value, c);
      }
    case WriteOp(offset, data) => WriteAvoids(cfg, s, offset, data, c);
    case SyncOp => SyncAvoids(cfg, s, c);
    case EvictOp => EvictAvoids(cfg, s, c);
    case FsckOp(order) => FsckAvoids(cfg, s, order, c);
    case OpenOp(order) => RecoverAvoids(cfg, Loaded(s), order, c);
  }

  lemma TornBroken(s: State, t: seq<Effect>, k: nat, junk: seq<byte>, c: nat)
    requires Broken(s, c) && Avoids(t, c) && k <= |t|
    ensures Broken(Torn(s, t, k, junk), c)
  {
    hide Run;
    StillBroken(s, t[..k], c);
  }

  lemma {:induction false} BootsBroken(cfg: Config, s: State, boots: seq<Boot>, c: nat)
    requires Broken(s, c) && BootsFit(cfg, s, boots)
    ensures Broken(AfterBoots(cfg, s, boots), c)
    decreases boots
  {
    hide Run, Recover, IsOrder;
    if boots != [] {
      var f := Booted(s, boots[0]);
      assert Broken(f, c);
      RecoverAvoids(cfg, f, boots[0].order, c);
      StillBroken(f, Recover(cfg, f, boots[0].order)[..boots[0].at], c);
      BootsBroken(cfg, AfterBoot(cfg, s, boots[0]), boots[1..], c);
    }
  }

  /** The step overwrites chunk c from end to end, or crashes while doing so. */
  predicate StepReplaces(cfg: Config, step: Step, c: nat) {
    (step.Completes? || step.Crashes?) && Replaces(cfg, step.op, c)
  }

  /**
   * No silent repair: a chunk that is in Error for want of its file stays so through every
   * operation, crash, loss, outage, fsck and reopen that does not overwrite it from end to end.
   */
  lemma ErrorPersists(cfg: Config, s: State, step: Step, c: nat)
    requires Broken(s, c) && Possible(cfg, s, step) && !StepReplaces(cfg, step, c)
    ensures Broken(After(cfg, s, step), c)
  {
    hide Run, TraceOf, Recover, Fsck, Replaces, Torn, IsOrder;
    match step
    case Completes(op) =>
      OpAvoids(cfg, s, op, c);
      StillBroken(Begin(s, op), TraceOf(cfg, s, op), c);
    case Crashes(op, at, junk, boots, order) =>
      OpAvoids(cfg, s, op, c);
      TornBroken(Begin(s, op), TraceOf(cfg, s, op), at, junk, c);
      BootsBroken(cfg, CrashState(cfg, s, step), boots, c);
      RecoverAvoids(cfg, Loaded(AfterBoots(cfg, CrashState(cfg, s, step), boots)), order, c);
    case Loses(gone, live, order) =>
      if live {
        FsckAvoids(cfg, LoseFiles(s, gone), order, c);
      } else {
        RecoverAvoids(cfg, Loaded(LoseFiles(s, gone)), order, c);
      }
    case Vanishes(_) =>
    case Outage(_) =>
  }

  /** The same over whole runs; and every read that touches the chunk fails. */
  lemma {:induction false} ErrorPersistsOverRuns(cfg: Config, s: State, steps: seq<Step>, c: nat)
    requires Broken(s, c) && PossibleRun(cfg, s, steps)
    requires forall i :: 0 <= i < |steps| ==> !StepReplaces(cfg, steps[i], c)
    ensures Broken(RunAll(cfg, s, steps), c)
    decreases steps
  {
    hide After, Possible, StepReplaces;
    if steps != [] {
      ErrorPersists(cfg, s, steps[0], c);
      ErrorPersistsOverRuns(cfg, After(cfg, s, steps[0]), steps[1..], c);
    }
  }

  lemma BrokenReadsFail(cfg: Config, s: State, offset: nat, len: nat, c: nat)
    requires Broken(s, c) && Spans(offset, len, cfg.geo).Ok?
    requires exists sp :: sp in Spans(offset, len, cfg.geo).value && sp.chunkId == c
    ensures Read(cfg, s, offset, len).result.Err?
  {
    var spans := Spans(offset, len, cfg.geo).value;
    ReadSpansAvoid(cfg, s, spans, c);
    var sp :| sp in spans && sp.chunkId == c;
    var i :| 0 <= i < |spans| && spans[i] == sp;
  }

  // ---------------------------------------------------------------- the acknowledged part of a write

  /** The chunk is Dirty, and that generation of it is journaled. */
  predicate DirtyAndJournaled(sl: Slot) {
    sl.State() == Dirty && sl.row.value.localGen.Some? && sl.latest.Some?
        && sl.row.value.localGen.value <= sl.latest.value
  }

  /** How many spans a request acknowledges before it ends. */
  ghost function SpansWritten(cfg: Config, s: State, spans: seq<Span>, data: seq<byte>): (n: nat)
    requires AllWithin(spans, data)
    ensures n <= |spans|
    decreases |spans|
  {
    if spans == [] || WriteSpan(cfg, s, spans[0], data).Err? then 0
    else 1 + SpansWritten(cfg, Run(s, WriteSpan(cfg, s, spans[0], data).value), spans[1..], data)
  }

  lemma OtherSpansLeave(cfg: Config, s: State, sp: Span, data: seq<byte>, d: nat, v: Cells)
    requires Represents(cfg, s, v) && Within(sp, data) && WriteSpan(cfg, s, sp, data).Ok? && d != sp.chunkId
    requires DirtyAndJournaled(Look(s, d))
    ensures DirtyAndJournaled(Look(Run(s, WriteSpan(cfg, s, sp, data).value), d))
  {
    hide Represents, WriteSpan, Run, Look;
    SpanElsewhere(cfg, s, sp, data, d, v);
  }

  /** A Dirty, journaled chunk that the request does not touch stays so. */
  lemma {:induction false} RequestLeaves(cfg: Config, s: State, spans: seq<Span>, start: nat, len: nat,
        requestOffset: nat, data: seq<byte>, v: Cells, d: nat)
    requires Request(cfg, s, spans, start, len, requestOffset, data, v)
    requires DirtyAndJournaled(Look(s, d)) && forall i :: 0 <= i < |spans| ==> spans[i].chunkId != d
    ensures AllWithin(spans, data) && DirtyAndJournaled(Look(Run(s, WriteSpans(cfg, s, spans, data).trace), d))
    decreases |spans|
  {
    hide Request, WriteSpan, Run, Look, DirtyAndJournaled, PutFirst, WriteSpans;
    RequestFacts(cfg, s, spans, start, len, requestOffset, data, v);
    WriteSpansUnfold(cfg, s, spans, data);
    if spans != [] && WriteSpan(cfg, s, spans[0], data).Ok? {
      var t := WriteSpan(cfg, s, spans[0], data).value;
      RequestStarts(cfg, s, spans, start, len, requestOffset, data, v);
      OtherSpansLeave(cfg, s, spans[0], data, d, v);
      RequestTail(cfg, s, spans, start, len, requestOffset, data, v);
      RequestLeaves(cfg, Run(s, t), spans[1..], start + spans[0].len, len - spans[0].len, requestOffset + spans[0].len,
                    data, PutFirst(v, start, spans, requestOffset, data), d);
      RunConcat(s, t, WriteSpans(cfg, Run(s, t), spans[1..], data).trace);
    } else {
      RunNothing(s);
    }
  }

  lemma WriteSpansUnfold(cfg: Config, s: State, spans: seq<Span>, data: seq<byte>)
    requires AllWithin(spans, data)
    ensures spans == [] || WriteSpan(cfg, s, spans[0], data).Err? ==> WriteSpans(cfg, s, spans, data).trace == []
    ensures spans != [] && WriteSpan(cfg, s, spans[0], data).Ok? ==>
              var t := WriteSpan(cfg, s, spans[0], data).value;
              && AllWithin(spans[1..], data)
              && AfterFirst(cfg, s, spans, data) == Run(s, t)
              && WriteSpans(cfg, s, spans, data).trace == t + WriteSpans(cfg, Run(s, t), spans[1..], data).trace
  {
    hide WriteSpan, Run;
  }

  lemma RequestStarts(cfg: Config, s: State, spans: seq<Span>, start: nat, len: nat, requestOffset: nat,
        data: seq<byte>, v: Cells)
    requires Request(cfg, s, spans, start, len, requestOffset, data, v)
    ensures Represents(cfg, s, v)
  {
  }

  lemma FirstIsDirty(cfg: Config, s: State, sp: Span, data: seq<byte>)
    requires Within(sp, data) && WriteSpan(cfg, s, sp, data).Ok?
    ensures DirtyAndJournaled(Look(Run(s, WriteSpan(cfg, s, sp, data).value), sp.chunkId))
  {
    hide WriteSpan, Run, Look, Overwrite, Prepare;
    SpanSlot(cfg, s, sp, data);
  }

  lemma {:induction false} WrittenSpansAreDirty(cfg: Config, s: State, spans: seq<Span>, start: nat, len: nat,
        requestOffset: nat,
                                                data: seq<byte>, v: Cells, i: nat)
    requires Request(cfg, s, spans, start, len, requestOffset, data, v) && DistinctChunks(spans)
    requires AllWithin(spans, data) && i < SpansWritten(cfg, s, spans, data)
    ensures DirtyAndJournaled(Look(Run(s, WriteSpans(cfg, s, spans, data).trace), spans[i].chunkId))
    decreases |spans|
  {
    hide Request, WriteSpan, Run, Look, DirtyAndJournaled, PutFirst, WriteSpans;
    RequestFacts(cfg, s, spans, start, len, requestOffset, data, v);
    WriteSpansUnfold(cfg, s, spans, data);
    var t := WriteSpan(cfg, s, spans[0], data).value;
    RequestTail(cfg, s, spans, start, len, requestOffset, data, v);
    RunConcat(s, t, WriteSpans(cfg, Run(s, t), spans[1..], data).trace);
    assert forall k :: 0 <= k < |spans[1..]| ==> spans[1..][k] == spans[k + 1];
    if i == 0 {
      FirstIsDirty(cfg, s, spans[0], data);
      RequestLeaves(cfg, Run(s, t), spans[1..], start + spans[0].len, len - spans[0].len, requestOffset + spans[0].len,
                    data, PutFirst(v, start, spans, requestOffset, data), spans[0].chunkId);
    } else {
      WrittenSpansAreDirty(cfg, Run(s, t), spans[1..], start + spans[0].len, len - spans[0].len,
                           requestOffset + spans[0].len, data, PutFirst(v, start, spans, requestOffset, data), i - 1);
    }
  }

  lemma EvictionLeavesDirty(cfg: Config, s: State, d: nat, v: Cells)
    requires Represents(cfg, s, v) && DirtyAndJournaled(Look(s, d))
    ensures DirtyAndJournaled(Look(Run(s, Evict(cfg, s)), d))
  {
    hide Represents, Evict, Run, Look;
    EvictTouches(cfg, s, d, v);
  }

  /**
   * A failed `write_at` is a prefix: besides what WriteCorrect says of the volume, every chunk whose
   * span was acknowledged is Dirty when the call returns, whether it failed later or not, with its
   * generation journaled; so the next sync uploads it and no recovery forgets it.
   */
  lemma WrittenChunksAreDirty(cfg: Config, s: State, offset: nat, data: seq<byte>, v: Cells, i: nat)
    requires Represents(cfg, s, v) && WriteGuard(cfg, s, offset, data, v) && Spans(offset, |data|, cfg.geo).Ok?
    requires AllWithin(Spans(offset, |data|, cfg.geo).value, data)
    requires i < SpansWritten(cfg, s, Spans(offset, |data|, cfg.geo).value, data)
    ensures DirtyAndJournaled(Look(Run(s, Write(cfg, s, offset, data).trace),
                                   Spans(offset, |data|, cfg.geo).value[i].chunkId))
  {
    hide Represents, WriteGuard, Run, Look, DirtyAndJournaled, WriteSpans, Evict, Request, SpansWritten, Put;
    var spans := Spans(offset, |data|, cfg.geo).value;
    RequestOfWrite(cfg, s, offset, data, v);
    SpansDistinct(offset, |data|, cfg.geo);
    WrittenSpansAreDirty(cfg, s, spans, offset, |data|, 0, data, v, i);
    var w := WriteSpans(cfg, s, spans, data);
    if w.result.Ok? {
      SpansDone(cfg, s, spans, offset, |data|, 0, data, v);
      var n := Written(cfg, s, spans, data);
      EvictionLeavesDirty(cfg, Run(s, w.trace), spans[i].chunkId, Put(v, offset, data[0..n]));
      RunConcat(s, w.trace, Evict(cfg, Run(s, w.trace)));
    }
  }
}
