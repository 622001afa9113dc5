/**
 * A volume created over an empty cloud: there, freshness alone makes writes safe. What was never
 * journaled is promised to be zeroes at most, and what was journaled and had to be refetched is stale.
 */
module Freshness {
  import opened Wrappers
  import opened Mapper
  import opened Wal
  import opened Store
  import opened Volume
  import opened Operations
  import opened Safety
  import opened Transparency
  import opened Writing
  import opened Runs
  import opened Agreement
  import opened History

  /** No byte of these cells is promised to be anything but zero. */
  predicate ZeroAtMost(p: Cells) { forall k :: 0 <= k < |p| && p[k].Some? ==> p[k].value == 0 }

  predicate ChunkZeroBased(cfg: Config, s: State, v: Cells, c: nat) {
    LatestLocal(s.journal, c).None? ==> ZeroAtMost(Part(v, cfg.geo, c))
  }

  /** Only journaled chunks hold promised bytes other than zero. */
  ghost predicate ZeroBased(cfg: Config, s: State, v: Cells) { forall c: nat :: ChunkZeroBased(cfg, s, v, c) }

  // ---------------------------------------------------------------- fresh implies room

  lemma GenerationsPositive(journal: seq<Event>, c: nat)
    requires WellFormed(journal) && LatestLocal(journal, c).Some?
    ensures LatestLocal(journal, c).value > 0
  {
    LatestLocalIsMax(journal, c);
    var e :| e in journal && e.LocalCommitted? && e.chunkId == c && e.after == LatestLocal(journal, c).value;
    var j :| 0 <= j < |journal| && journal[j] == e;
    var i :| 0 <= i < j && Acknowledges(journal[i], journal[j]);
  }

  lemma ZeroAtMostIsRest(p: Cells, off: nat, n: nat)
    requires ZeroAtMost(p) && off + n <= |p|
    ensures RestIsZero(p, off, n)
  {
    BlurIsWeaker(p, off, n);
  }

  /** A fresh span has room: had its chunk been evicted by its own fetch, its generation would be 0. */
  lemma FreshIsGuarded(cfg: Config, s: State, sp: Span, v: Cells)
    requires Represents(cfg, s, v) && ZeroBased(cfg, s, v) && WellFormed(s.journal)
    requires sp.offsetInChunk + sp.len <= |Part(v, cfg.geo, sp.chunkId)|
    requires Prepare(cfg, s, sp).Ok? ==> Fresh(Look(Run(s, Prepare(cfg, s, sp).value), sp.chunkId))
    ensures SpanGuard(cfg, s, sp, v)
  {
    hide Represents, Run, Evict, LatestLocal, Synced, ZeroAtMost, RestIsZero, WellFormed;
    if Prepare(cfg, s, sp).Ok? {
      var c := sp.chunkId;
      var s1 := Run(s, Prepare(cfg, s, sp).value);
      FreshIsNotStale(Look(s1, c));
      assert Look(s1, c).file == FileOf(s1, c);
      if IsFull(cfg, sp) {
        Emptied(cfg, s, c, c);
      } else if c !in s1.files {
        EnsureLook(cfg, s, c, v);
        assert Look(s1, c).latest == Look(s, c).latest && Look(s1, c).Gen() == 0;
        if LatestLocal(s.journal, c).Some? {
          GenerationsPositive(s.journal, c);
        }
        assert ChunkZeroBased(cfg, s, v, c);
        ZeroAtMostIsRest(Part(v, cfg.geo, c), sp.offsetInChunk, sp.len);
      }
    }
  }

  // ---------------------------------------------------------------- the base is kept

  lemma {:induction false} LatestGrows(s: State, t: seq<Effect>, c: nat)
    ensures LatestLocal(Run(s, t).journal, c).None? ==> LatestLocal(s.journal, c).None?
    decreases t
  {
    hide LatestLocal;
    if t != [] {
      LatestGrows(Apply(s, t[0]), t[1..], c);
      if t[0].Append? {
        Snoc(s.journal, t[0].event, c);
      }
    }
  }

  /** Further records and forgotten bytes do no harm. */
  lemma BaseKept(cfg: Config, s: State, v: Cells, s': State, v': Cells)
    requires ZeroBased(cfg, s, v) && Weaker(v', v)
    requires forall c: nat :: LatestLocal(s'.journal, c).None? ==> LatestLocal(s.journal, c).None?
    ensures ZeroBased(cfg, s', v')
  {
    hide LatestLocal;
    forall c: nat
      ensures ChunkZeroBased(cfg, s', v', c)
    {
      assert ChunkZeroBased(cfg, s, v, c);
      PartWeaker(v', v, cfg.geo, c);
    }
  }

  lemma SameIsWeaker(v: Cells)
    ensures Weaker(v, v)
  {
  }

  lemma BaseAfterRun(cfg: Config, s: State, v: Cells, t: seq<Effect>)
    requires ZeroBased(cfg, s, v)
    ensures ZeroBased(cfg, Run(s, t), v)
  {
    hide Run, ZeroBased, LatestLocal, Weaker;
    SameIsWeaker(v);
    forall c: nat
      ensures LatestLocal(Run(s, t).journal, c).None? ==> LatestLocal(s.journal, c).None?
    {
      LatestGrows(s, t, c);
    }
    BaseKept(cfg, s, v, Run(s, t), v);
  }

  lemma BaseAfterTear(cfg: Config, s: State, v: Cells, t: seq<Effect>, k: nat, junk: seq<byte>)
    requires ZeroBased(cfg, s, v) && k <= |t|
    ensures ZeroBased(cfg, Torn(s, t, k, junk), v)
  {
    hide Run;
    BaseAfterRun(cfg, s, v, t[..k]);
    var s' := Run(s, t[..k]);
    assert Torn(s, t, k, junk).journal == s'.journal;
    assert forall c: nat :: ChunkZeroBased(cfg, s', v, c) ==> ChunkZeroBased(cfg, Torn(s, t, k, junk), v, c);
  }

  lemma BaseBlurred(cfg: Config, s: State, v: Cells, start: nat, n: nat)
    requires ZeroBased(cfg, s, v) && start + n <= |v|
    ensures ZeroBased(cfg, s, Blur(v, start, n))
  {
    hide LatestLocal;
    BlurIsWeaker(v, start, n);
    BaseKept(cfg, s, v, s, Blur(v, start, n));
  }

  /** A span that is written becomes promised, and its chunk journaled. */
  lemma BaseAfterSpan(cfg: Config, s: State, sp: Span, start: nat, data: seq<byte>, v: Cells)
    requires ZeroBased(cfg, s, v) && cfg.Valid() && |v| == cfg.geo.volume && Lands(sp, start, cfg.geo)
    requires Within(sp, data)
    requires WriteSpan(cfg, s, sp, data).Ok?
    ensures start + sp.len <= |v|
    ensures ZeroBased(cfg, Run(s, WriteSpan(cfg, s, sp, data).value), Put(v, start, SpanData(sp, data)))
  {
    hide Run, WriteSpan, Put, LatestLocal, ZeroAtMost, Prepare, Commit;
    var s', w := Run(s, WriteSpan(cfg, s, sp, data).value), SpanData(sp, data);
    PutPart(v, cfg.geo, sp, start, w, sp.chunkId);
    SpanJournaled(cfg, s, sp, data);
    forall c: nat
      ensures ChunkZeroBased(cfg, s', Put(v, start, w), c)
    {
      assert ChunkZeroBased(cfg, s, v, c);
      LatestGrows(s, WriteSpan(cfg, s, sp, data).value, c);
      PutPart(v, cfg.geo, sp, start, w, c);
    }
  }

  lemma SpanJournaled(cfg: Config, s: State, sp: Span, data: seq<byte>)
    requires Within(sp, data) && WriteSpan(cfg, s, sp, data).Ok?
    ensures LatestLocal(Run(s, WriteSpan(cfg, s, sp, data).value).journal, sp.chunkId).Some?
  {
    hide Run, WriteSpan, Prepare, Commit, LatestLocal, Synced;
    WriteSpanIs(cfg, s, sp, data);
    var c, a := sp.chunkId, Prepare(cfg, s, sp).value;
    var s1, d := Run(s, a), SpanData(sp, data);
    RunConcat(s, a, Commit(cfg, s1, sp, d));
    CommitIsCommitAt(cfg, s1, sp, d);
    LookAfterRun(s1, Commit(cfg, s1, sp, d), c, c);
    CommitEnds(Look(s1, c), c, sp.offsetInChunk, d, cfg.geo.ChunkLen(c), s1.nextTxid, s1.clock);
  }

  // ---------------------------------------------------------------- a whole write

  lemma CoversFirst(spans: seq<Span>, start: nat, len: nat, g: Geometry, requestOffset: nat)
    requires spans != [] && Covers(spans, start, len, g, requestOffset)
    ensures Lands(spans[0], start, g) && spans[0].len <= len && spans[0].requestOffset == requestOffset
    ensures Covers(spans[1..], start + spans[0].len, len - spans[0].len, g, requestOffset + spans[0].len)
  {
  }

  lemma {:induction false} FreshSpansGuarded(cfg: Config, s: State, spans: seq<Span>, start: nat, len: nat,
        requestOffset: nat, data: seq<byte>, v: Cells)
    requires Represents(cfg, s, v) && ZeroBased(cfg, s, v) && Logged(s)
    requires AllWithin(spans, data) && Covers(spans, start, len, cfg.geo, requestOffset) && start + len <= |v|
    requires FreshSpans(cfg, s, spans, data)
    ensures Guarded(cfg, s, spans, data, v, start)
    decreases |spans|
  {
    hide Represents, ZeroBased, Logged, WriteSpan, Run, SpanGuard, Put, Covers, Prepare, Fresh, Look;
    if spans != [] && WriteSpan(cfg, s, spans[0], data).Ok? {
      var sp, t := spans[0], WriteSpan(cfg, s, spans[0], data).value;
      CoversFirst(spans, start, len, cfg.geo, requestOffset);
      RepresentsSize(cfg, s, v);
      PartOfSpan(v, cfg.geo, sp, start);
      WriteSpanIs(cfg, s, sp, data);
      LoggedIsWellFormed(s);
      FreshIsGuarded(cfg, s, sp, v);
      SpanDone(cfg, s, sp, start, data, v);
      BaseAfterSpan(cfg, s, sp, start, data, v);
      WriteSpanAdmissible(cfg, s, sp, data);
      RunLogged(s, t);
      PutSize(v, start, SpanData(sp, data));
      FreshSpansGuarded(cfg, Run(s, t), spans[1..], start + sp.len, len - sp.len, requestOffset + sp.len, data,
                        Put(v, start, SpanData(sp, data)));
    }
  }

  lemma LoggedIsWellFormed(s: State)
    requires Logged(s)
    ensures WellFormed(s.journal)
  {
  }

  lemma PutSize(v: Cells, start: nat, data: seq<byte>)
    requires start + |data| <= |v|
    ensures |Put(v, start, data)| == |v| && WrittenOver(v, start, data) == Put(v, start, data)
  {
  }

  lemma FreshWriteGuarded(cfg: Config, s: State, offset: nat, data: seq<byte>, v: Cells)
    requires Represents(cfg, s, v) && ZeroBased(cfg, s, v) && Logged(s) && FreshWrite(cfg, s, offset, data)
    ensures WriteGuard(cfg, s, offset, data, v)
  {
    hide Represents, ZeroBased, Logged, FreshSpans, Guarded, Covers;
    RepresentsSize(cfg, s, v);
    if Spans(offset, |data|, cfg.geo).Ok? {
      SpansWithin(offset, data, cfg.geo);
      SpansCover(offset, |data|, cfg.geo);
      FreshSpansGuarded(cfg, s, Spans(offset, |data|, cfg.geo).value, offset, |data|, 0, data, v);
    }
  }

  /** The base holds at whatever effect a request is cut. */
  ghost predicate BaseAt(cfg: Config, s: State, spans: seq<Span>, start: nat, requestOffset: nat, data: seq<byte>,
                         v: Cells, k: nat, junk: seq<byte>)
  {
    && AllWithin(spans, data)
    && (k <= |WriteSpans(cfg, s, spans, data).trace| ==>
          var p := ProgressAt(cfg, s, spans, data, k);
          && start + p.done + p.flight <= |v| && requestOffset + p.done <= |data|
          && ZeroBased(cfg, Torn(s, WriteSpans(cfg, s, spans, data).trace, k, junk),
                       Advanced(v, start, data, requestOffset, p)))
  }

  lemma {:induction false} SpansBase(cfg: Config, s: State, spans: seq<Span>, start: nat, len: nat, requestOffset: nat,
        data: seq<byte>, v: Cells, k: nat, junk: seq<byte>)
    requires Request(cfg, s, spans, start, len, requestOffset, data, v) && ZeroBased(cfg, s, v)
    ensures BaseAt(cfg, s, spans, start, requestOffset, data, v, k, junk)
    decreases |spans|
  {
    hide Request, BaseAt, ZeroBased, WriteSpan, AfterFirst, PutFirst, AllWithin, Within, WriteSpans, Written, Run, Put,
         Covers;
    RequestFacts(cfg, s, spans, start, len, requestOffset, data, v);
    if spans == [] || WriteSpan(cfg, s, spans[0], data).Err? {
      BaseNone(cfg, s, spans, start, requestOffset, data, v, k, junk);
    } else if k < |WriteSpan(cfg, s, spans[0], data).value| {
      BaseFirst(cfg, s, spans, start, len, requestOffset, data, v, k, junk);
    } else {
      RequestTail(cfg, s, spans, start, len, requestOffset, data, v);
      BaseTail(cfg, s, spans, start, len, requestOffset, data, v);
      SpansBase(cfg, AfterFirst(cfg, s, spans, data), spans[1..], start + spans[0].len, len - spans[0].len,
                requestOffset + spans[0].len, data, PutFirst(v, start, spans, requestOffset, data),
                k - |WriteSpan(cfg, s, spans[0], data).value|, junk);
      BaseLater(cfg, s, spans, start, requestOffset, data, v, k, junk);
    }
  }

  lemma BaseNone(cfg: Config, s: State, spans: seq<Span>, start: nat, requestOffset: nat, data: seq<byte>, v: Cells,
        k: nat, junk: seq<byte>)
    requires ZeroBased(cfg, s, v) && AllWithin(spans, data) && start <= |v| && requestOffset <= |data|
    requires spans != [] ==> Within(spans[0], data) && WriteSpan(cfg, s, spans[0], data).Err?
    ensures BaseAt(cfg, s, spans, start, requestOffset, data, v, k, junk)
  {
    hide ZeroBased, WriteSpan, Advanced, Run;
    AdvanceNothing(v, start, data, requestOffset, 0);
    TornNothing(s, junk);
  }

  lemma BaseFirst(cfg: Config, s: State, spans: seq<Span>, start: nat, len: nat, requestOffset: nat, data: seq<byte>,
        v: Cells, k: nat, junk: seq<byte>)
    requires Request(cfg, s, spans, start, len, requestOffset, data, v) && ZeroBased(cfg, s, v)
    requires spans != [] && Within(spans[0], data)
    requires WriteSpan(cfg, s, spans[0], data).Ok? && k < |WriteSpan(cfg, s, spans[0], data).value|
    ensures BaseAt(cfg, s, spans, start, requestOffset, data, v, k, junk)
  {
    hide ZeroBased, WriteSpan, Advanced, Run, Torn, Represents, Guarded, Blur;
    var t, n := WriteSpan(cfg, s, spans[0], data).value, spans[0].len;
    UnfoldRequest(cfg, s, spans, data, 0);
    AdvanceNothing(v, start, data, requestOffset, n);
    BaseAfterTear(cfg, s, v, t, k, junk);
    TornConcat(s, t, WriteSpans(cfg, AfterFirst(cfg, s, spans, data), spans[1..], data).trace, k, junk);
    BaseBlurred(cfg, Torn(s, t, k, junk), v, start, n);
  }

  lemma BaseTail(cfg: Config, s: State, spans: seq<Span>, start: nat, len: nat, requestOffset: nat, data: seq<byte>,
                 v: Cells)
    requires Request(cfg, s, spans, start, len, requestOffset, data, v) && ZeroBased(cfg, s, v)
    requires spans != [] && Within(spans[0], data) && WriteSpan(cfg, s, spans[0], data).Ok?
    ensures start + spans[0].len <= |v| && requestOffset + spans[0].len <= |data|
    ensures ZeroBased(cfg, AfterFirst(cfg, s, spans, data), PutFirst(v, start, spans, requestOffset, data))
  {
    hide ZeroBased, WriteSpan, Run, Represents, Guarded, Put;
    RequestRepresents(cfg, s, spans, start, len, requestOffset, data, v);
    RepresentsSize(cfg, s, v);
    BaseAfterSpan(cfg, s, spans[0], start, data, v);
  }

  lemma BaseLater(cfg: Config, s: State, spans: seq<Span>, start: nat, requestOffset: nat, data: seq<byte>, v: Cells,
        k: nat, junk: seq<byte>)
    requires AllWithin(spans, data) && spans != [] && WriteSpan(cfg, s, spans[0], data).Ok?
    requires k >= |WriteSpan(cfg, s, spans[0], data).value|
    requires start + spans[0].len <= |v| && requestOffset + spans[0].len <= |data|
    requires BaseAt(cfg, AfterFirst(cfg, s, spans, data), spans[1..], start + spans[0].len,
                    requestOffset + spans[0].len, data, PutFirst(v, start, spans, requestOffset, data),
                        k - |WriteSpan(cfg, s, spans[0], data).value|, junk)
    ensures BaseAt(cfg, s, spans, start, requestOffset, data, v, k, junk)
  {
    hide WriteSpan, Run, ZeroBased, Advanced, Torn, ProgressAt, WriteSpans;
    var t, s1 := WriteSpan(cfg, s, spans[0], data).value, AfterFirst(cfg, s, spans, data);
    UnfoldRequest(cfg, s, spans, data, k);
    if k <= |WriteSpans(cfg, s, spans, data).trace| {
      TornConcat(s, t, WriteSpans(cfg, s1, spans[1..], data).trace, k, junk);
      AdvanceOver(v, start, data, requestOffset, spans[0].len, ProgressAt(cfg, s1, spans[1..], data, k - |t|));
    }
  }

  /** The base holds at whatever effect `write_at` is cut, its final eviction included. */
  lemma WriteBased(cfg: Config, s: State, offset: nat, data: seq<byte>, v: Cells, k: nat, junk: seq<byte>)
    requires Represents(cfg, s, v) && ZeroBased(cfg, s, v) && WriteGuard(cfg, s, offset, data, v)
    requires k <= |Write(cfg, s, offset, data).trace|
    ensures ZeroBased(cfg, Torn(s, Write(cfg, s, offset, data).trace, k, junk),
                      Reached(v, offset, data, WriteProgress(cfg, s, offset, data, k)))
  {
    hide Represents, ZeroBased, WriteGuard, Run, WriteSpans, Evict, Torn, ProgressAt, Written, Advanced, Covers,
         Request;
    var r := Spans(offset, |data|, cfg.geo);
    if r.Err? {
      TornNothing(s, junk);
    } else {
      var spans := r.value;
      RequestOfWrite(cfg, s, offset, data, v);
      SpansWithin(offset, data, cfg.geo);
      var w := WriteSpans(cfg, s, spans, data);
      var j := if k <= |w.trace| then k else |w.trace|;
      SpansBase(cfg, s, spans, offset, |data|, 0, data, v, j, junk);
      ReachedIsAdvanced(v, offset, data, ProgressAt(cfg, s, spans, data, j));
      if k <= |w.trace| {
        EvictQuiet(cfg, Run(s, w.trace));
        TornPrefix(s, w.trace, Write(cfg, s, offset, data).trace, k, junk);
      } else {
        ProgressAtEnd(cfg, s, spans, data, k);
        ProgressAtEnd(cfg, s, spans, data, j);
        TornWhole(s, w.trace, junk);
        TornConcat(s, w.trace, Evict(cfg, Run(s, w.trace)), k, junk);
        BaseAfterTear(cfg, Run(s, w.trace), Reached(v, offset, data, ProgressAt(cfg, s, spans, data, j)),
                      Evict(cfg, Run(s, w.trace)), k - |w.trace|, junk);
      }
    }
  }

  lemma TornWhole(s: State, t: seq<Effect>, junk: seq<byte>)
    ensures Torn(s, t, |t|, junk) == Run(s, t)
  {
    assert t[..|t|] == t;
  }

  // ---------------------------------------------------------------- runs

  lemma BaseSameJournal(cfg: Config, s: State, v: Cells, s': State)
    requires ZeroBased(cfg, s, v) && s'.journal == s.journal
    ensures ZeroBased(cfg, s', v)
  {
    assert forall c: nat :: ChunkZeroBased(cfg, s, v, c) ==> ChunkZeroBased(cfg, s', v, c);
  }

  lemma BaseAfterReopen(cfg: Config, s: State, v: Cells, order: seq<nat>)
    requires ZeroBased(cfg, s, v)
    ensures ZeroBased(cfg, Reopened(cfg, s, order), v)
  {
    hide ZeroBased, Run, Recover;
    BaseSameJournal(cfg, s, v, Loaded(s));
    BaseAfterRun(cfg, Loaded(s), v, Recover(cfg, Loaded(s), order));
  }

  /** Every step keeps the base. */
  lemma StepBased(cfg: Config, s: State, v: Cells, step: Step)
    requires Represents(cfg, s, v) && ZeroBased(cfg, s, v) && Possible(cfg, s, step) && Safe(cfg, s, v, step)
    ensures ZeroBased(cfg, After(cfg, s, step), Expected(cfg, s, v, step))
  {
    hide Represents, ZeroBased, Run, TraceOf, Torn, Reopened, Fsck, IsOrder, WriteGuard, WriteProgress, Acknowledged,
         Reached;
    match step
    case Completes(op) =>
      if op.WriteOp? {
        WriteEndsBased(cfg, s, op.offset, op.data, v);
        TraceOfWrite(cfg, s, op);
      } else {
        BaseSameJournal(cfg, s, v, Begin(s, op));
        BaseAfterRun(cfg, Begin(s, op), v, TraceOf(cfg, s, op));
      }
    case Crashes(op, at, junk, boots, order) =>
      if op.WriteOp? {
        TraceOfWrite(cfg, s, op);
        WriteBased(cfg, s, op.offset, op.data, v, at, junk);
      } else {
        BaseSameJournal(cfg, s, v, Begin(s, op));
        BaseAfterTear(cfg, Begin(s, op), v, TraceOf(cfg, s, op), at, junk);
      }
      BootsKeep(cfg, CrashState(cfg, s, step), boots, []);
      BaseSameJournal(cfg, CrashState(cfg, s, step), Expected(cfg, s, v, step),
                      AfterBoots(cfg, CrashState(cfg, s, step), boots));
      BaseAfterReopen(cfg, AfterBoots(cfg, CrashState(cfg, s, step), boots), Expected(cfg, s, v, step), order);
    case Loses(gone, live, order) =>
      BaseSameJournal(cfg, s, v, Recovery.LoseFiles(s, gone));
      if live {
        BaseAfterRun(cfg, Recovery.LoseFiles(s, gone), v, Fsck(cfg, Recovery.LoseFiles(s, gone), order));
      } else {
        BaseAfterReopen(cfg, Recovery.LoseFiles(s, gone), v, order);
      }
    case Vanishes(gone) => BaseSameJournal(cfg, s, v, Recovery.LoseFiles(s, gone));
    case Outage(down) => BaseSameJournal(cfg, s, v, s.(down := down));
  }

  lemma TraceOfWrite(cfg: Config, s: State, op: Op)
    requires op.WriteOp?
    ensures TraceOf(cfg, s, op) == Write(cfg, s, op.offset, op.data).trace && Begin(s, op) == s
  {
    hide Write;
  }

  lemma WriteEndsBased(cfg: Config, s: State, offset: nat, data: seq<byte>, v: Cells)
    requires Represents(cfg, s, v) && ZeroBased(cfg, s, v) && WriteGuard(cfg, s, offset, data, v)
    ensures ZeroBased(cfg, Run(s, Write(cfg, s, offset, data).trace),
                      Reached(v, offset, data, Progress(Acknowledged(cfg, s, offset, data), 0)))
  {
    hide Represents, ZeroBased, WriteGuard, Run, WriteSpans, Evict, Torn, ProgressAt, Written, Reached;
    var t := Write(cfg, s, offset, data).trace;
    WriteBased(cfg, s, offset, data, v, |t|, []);
    TornWhole(s, t, []);
    if Spans(offset, |data|, cfg.geo).Ok? {
      SpansWithin(offset, data, cfg.geo);
      ProgressAtEnd(cfg, s, Spans(offset, |data|, cfg.geo).value, data, |t|);
    }
  }

  lemma FreshStepSafe(cfg: Config, s: State, v: Cells, step: Step)
    requires Represents(cfg, s, v) && ZeroBased(cfg, s, v) && Logged(s) && FreshStep(cfg, s, step)
    ensures Safe(cfg, s, v, step)
  {
    hide Represents, ZeroBased, Logged, FreshWrite, WriteGuard;
    if (step.Completes? || step.Crashes?) && step.op.WriteOp? {
      FreshWriteGuarded(cfg, s, step.op.offset, step.op.data, v);
    }
  }

  /** Over every fresh run from such a state, every write is guarded: freshness is all that is needed. */
  lemma {:induction false} FreshRunGuarded(cfg: Config, s: State, v: Cells, steps: seq<Step>)
    requires Represents(cfg, s, v) && ZeroBased(cfg, s, v) && Logged(s)
    requires PossibleRun(cfg, s, steps) && FreshRun(cfg, s, steps)
    ensures GuardedRun(cfg, s, v, steps)
    decreases steps
  {
    hide Represents, ZeroBased, Logged, Possible, Safe, FreshStep, After, Expected;
    if steps != [] {
      FreshStepSafe(cfg, s, v, steps[0]);
      StepRepresents(cfg, s, v, steps[0]);
      StepBased(cfg, s, v, steps[0]);
      StepLogged(cfg, s, steps[0]);
      FreshRunGuarded(cfg, After(cfg, s, steps[0]), Expected(cfg, s, v, steps[0]), steps[1..]);
    }
  }
}
