/**
 * A crash inside an append: with a part of the line in the journal file, the next open fails, or finds
 * one more record than the effects before the crash have left. What it finds is still recoverable.
 */
module TornAppends {
  import opened Wrappers
  import opened Mapper
  import opened Metadata
  import opened Wal
  import opened WalText
  import opened WalCodec
  import opened WalTorn
  import opened WalFile
  import opened Store
  import opened Volume
  import opened Operations
  import opened Safety
  import opened Recovery
  import opened Writing
  import opened Runs
  import opened Agreement

  // ---------------------------------------------------------------- what operations append, and when

  predicate Silent(t: seq<Effect>) { forall i :: 0 <= i < |t| ==> !t[i].Append? }

  lemma {:induction false} EvictListSilent(cfg: Config, s: State, list: seq<nat>, cached: nat)
    requires forall c :: c in list ==> c in s.rows
    ensures Silent(EvictList(cfg, s, list, cached))
    decreases list
  {
    if list != [] && cached > cfg.low {
      EvictListSilent(cfg, Run(s, EvictOne(s, list[0])), list[1..], SaturatingSub(cached, s.rows[list[0]].size));
    }
  }

  lemma EvictSilent(cfg: Config, s: State)
    ensures Silent(Evict(cfg, s))
  {
    if CachedBytes(s.rows) > cfg.cacheMax {
      EvictListSilent(cfg, s, EvictableCleanChunks(s.rows), CachedBytes(s.rows));
    }
  }

  lemma PrepareSilent(cfg: Config, s: State, sp: Span)
    requires Prepare(cfg, s, sp).Ok?
    ensures Silent(Prepare(cfg, s, sp).value)
  {
    hide Run, Evict, Look;
    if !IsFull(cfg, sp) && !Resident(s, sp.chunkId) {
      EvictSilent(cfg, Run(s, FetchTrace(cfg, s, sp.chunkId, Fetch(cfg, s, sp.chunkId).value)));
    }
  }

  /** An append of a write: never of an upload, and of a LocalCommitted only once the row is Dirty. */
  predicate InOrder(s: State, t: seq<Effect>, k: nat)
    requires k < |t|
  {
    t[k].Append? ==>
      && !t[k].event.CloudCommitted?
      && (t[k].event.LocalCommitted? ==> Look(Run(s, t[..k]), t[k].event.chunkId).State() == Dirty)
  }

  lemma CommitInOrder(cfg: Config, s: State, sp: Span, data: seq<byte>, k: nat)
    requires k < 4
    ensures InOrder(s, Commit(cfg, s, sp, data), k)
  {
    hide Run, Apply, Overwrite;
    var t := Commit(cfg, s, sp, data);
    if k == 3 {
      assert t[..3] == [t[0], t[1]] + [t[2]];
      RunSnoc(s, [t[0], t[1]], t[2]);
      LookAfter(Run(s, [t[0], t[1]]), t[2], sp.chunkId);
    }
  }

  lemma InOrderConcat(s: State, a: seq<Effect>, b: seq<Effect>, k: nat)
    requires k < |a + b|
    requires if k < |a| then InOrder(s, a, k) else InOrder(Run(s, a), b, k - |a|)
    ensures InOrder(s, a + b, k)
  {
    hide Run, Look;
    if k < |a| {
      assert (a + b)[..k] == a[..k];
    } else {
      assert (a + b)[..k] == a + b[..k - |a|];
      RunConcat(s, a, b[..k - |a|]);
    }
  }

  lemma SpanInOrder(cfg: Config, s: State, sp: Span, data: seq<byte>, k: nat)
    requires Within(sp, data) && WriteSpan(cfg, s, sp, data).Ok? && k < |WriteSpan(cfg, s, sp, data).value|
    ensures InOrder(s, WriteSpan(cfg, s, sp, data).value, k)
  {
    hide Run, Prepare, WriteSpan, Look, Commit;
    WriteSpanIs(cfg, s, sp, data);
    var a := Prepare(cfg, s, sp).value;
    var b := Commit(cfg, Run(s, a), sp, SpanData(sp, data));
    PrepareSilent(cfg, s, sp);
    CommitShape(cfg, Run(s, a), sp, SpanData(sp, data));
    if k >= |a| {
      CommitInOrder(cfg, Run(s, a), sp, SpanData(sp, data), k - |a|);
    }
    InOrderConcat(s, a, b, k);
  }

  lemma {:induction false} SpansInOrder(cfg: Config, s: State, spans: seq<Span>, data: seq<byte>, k: nat)
    requires AllWithin(spans, data) && k < |WriteSpans(cfg, s, spans, data).trace|
    ensures InOrder(s, WriteSpans(cfg, s, spans, data).trace, k)
    decreases |spans|
  {
    hide Run, WriteSpan, InOrder;
    var t := WriteSpan(cfg, s, spans[0], data).value;
    if k < |t| {
      SpanInOrder(cfg, s, spans[0], data, k);
    } else {
      SpansInOrder(cfg, Run(s, t), spans[1..], data, k - |t|);
    }
    InOrderConcat(s, t, WriteSpans(cfg, Run(s, t), spans[1..], data).trace, k);
  }

  lemma WriteInOrder(cfg: Config, s: State, offset: nat, data: seq<byte>, k: nat)
    requires k < |Write(cfg, s, offset, data).trace|
    ensures InOrder(s, Write(cfg, s, offset, data).trace, k)
  {
    hide Run, WriteSpans, Evict, Look;
    var spans := Spans(offset, |data|, cfg.geo).value;
    SpansWithin(offset, data, cfg.geo);
    var w := WriteSpans(cfg, s, spans, data);
    EvictSilent(cfg, Run(s, w.trace));
    if k < |w.trace| {
      SpansInOrder(cfg, s, spans, data, k);
    }
    if w.result.Ok? {
      InOrderConcat(s, w.trace, Evict(cfg, Run(s, w.trace)), k);
    }
  }

  /** Every operation but a write appends upload records only. */
  lemma OtherAppends(cfg: Config, s: State, op: Op, k: nat)
    requires !op.WriteOp? && k < |TraceOf(cfg, s, op)| && TraceOf(cfg, s, op)[k].Append?
    ensures TraceOf(cfg, s, op)[k].event.CloudCommitted?
  {
    match op
    case ReadOp(offset, len) =>
      if Spans(offset, len, cfg.geo).Ok? {
        ReadQuiet(cfg, s, Spans(offset, len, cfg.geo).value);
      }
    case SyncOp => SyncQuiet(cfg, s);
    case EvictOp => EvictQuiet(cfg, s);
    case FsckOp(order) =>
      FsckIsSteps(cfg, s, order);
      StepsQuiet(cfg, s, TraceOf(cfg, s, op));
    case OpenOp(order) =>
      RecoverIsSteps(cfg, Loaded(s), order);
      StepsQuiet(cfg, Loaded(s), TraceOf(cfg, s, op));
  }

  // ---------------------------------------------------------------- one more record

  /** What a LocalCommitted of generation g, the right one or a smaller, does to a Dirty chunk. */
  lemma OneMoreLocal(sl: Slot, p: Cells, g: nat)
    requires SlotSafe(sl, p) && SyncedBelow(sl) && sl.State() == Dirty
    ensures SlotSafe(sl.(latest := Some(Max(sl.latest.GetOr(0), g))), p)
  {
  }

  function WithRecord(s: State, e: Event): State { s.(journal := s.journal + [e]) }

  lemma LookWithRecord(s: State, e: Event, d: nat)
    ensures Look(WithRecord(s, e), d) == if d == e.chunkId then ApplyAt(Look(s, d), Append(e)) else Look(s, d)
  {
    Snoc(s.journal, e, d);
  }

  lemma LocalRecordSafe(cfg: Config, s: State, v: Cells, e: Event)
    requires Recoverable(cfg, s, v) && Reconcilable(false, s) && !e.CloudCommitted?
    requires e.LocalCommitted? ==> Look(s, e.chunkId).State() == Dirty
    ensures Recoverable(cfg, WithRecord(s, e), v)
  {
    hide SlotSafe, SyncedBelow, Look;
    forall d: nat
      ensures ChunkSafe(cfg, WithRecord(s, e), v, d)
    {
      assert ChunkSafe(cfg, s, v, d);
      assert ChunkReconcilable(false, s, d);
      LookWithRecord(s, e, d);
      if d == e.chunkId && e.LocalCommitted? {
        OneMoreLocal(Look(s, d), Volume.Part(v, cfg.geo, d), e.after);
      }
    }
  }

  /** The checksum in an upload record does not matter. */
  lemma UploadRecordSame(cfg: Config, s: State, v: Cells, e: Event, e': Event)
    requires e.CloudCommitted? && e'.CloudCommitted? && e'.chunkId == e.chunkId && e'.generation == e.generation
    requires Recoverable(cfg, Apply(s, Append(e)), v)
    ensures Recoverable(cfg, WithRecord(s, e'), v)
  {
    hide SlotSafe, Look;
    forall d: nat
      ensures ChunkSafe(cfg, WithRecord(s, e'), v, d)
    {
      assert ChunkSafe(cfg, Apply(s, Append(e)), v, d);
      LookAfter(s, Append(e), d);
      LookWithRecord(s, e', d);
    }
  }

  lemma NoLargerKind(e: Event, e': Event)
    requires NoLarger(e, e')
    ensures e'.chunkId == e.chunkId && (e'.CloudCommitted? <==> e.CloudCommitted?)
    ensures (e'.LocalCommitted? <==> e.LocalCommitted?) && (e.CloudCommitted? ==> e'.generation == e.generation)
  {
  }

  /** The crash comes while effect k of the operation, an append of e, is under way. */
  ghost predicate Appending(cfg: Config, s: State, v: Cells, op: Op, k: nat) {
    && Represents(cfg, s, v) && Agreed(false, s) && OrderFits(s, op)
    && Safe(cfg, s, v, Completes(op)) && FreshStep(cfg, s, Completes(op))
    && k < |TraceOf(cfg, s, op)| && TraceOf(cfg, s, op)[k].Append?
  }

  ghost function AtCrash(cfg: Config, s: State, op: Op, k: nat): State
    requires k <= |TraceOf(cfg, s, op)|
  {
    Run(Begin(s, op), TraceOf(cfg, s, op)[..k])
  }

  /** The volume as it is expected after a crash at effect k. */
  ghost function CutVolume(cfg: Config, s: State, v: Cells, op: Op, k: nat): Cells {
    Expected(cfg, s, v, Crashes(op, k, [], [], []))
  }

  lemma AtCrashIsSafe(cfg: Config, s: State, v: Cells, op: Op, k: nat)
    requires Appending(cfg, s, v, op, k)
    ensures Recoverable(cfg, AtCrash(cfg, s, op, k), CutVolume(cfg, s, v, op, k))
    ensures Reconcilable(false, AtCrash(cfg, s, op, k))
  {
    hide Represents, Recoverable, Agreed, Reconcilable, Write, Sync, ReadSpans, Evict, Run, WriteGuard, FreshWrite,
         Reached, WriteProgress, RecoverySteps;
    OpAlong(false, cfg, s, op, v);
    AlongAt(false, Begin(s, op), TraceOf(cfg, s, op), k);
    if op.WriteOp? {
      WriteCrash(cfg, s, op.offset, op.data, v, k, []);
    } else {
      CutTransparently(cfg, s, op, v, k);
    }
  }

  lemma OtherUpload(cfg: Config, s: State, v: Cells, op: Op, k: nat)
    requires Appending(cfg, s, v, op, k) && !op.WriteOp?
    ensures TraceOf(cfg, s, op)[k].event.CloudCommitted? && CutVolume(cfg, s, v, op, k) == v
    ensures Recoverable(cfg, Apply(AtCrash(cfg, s, op, k), TraceOf(cfg, s, op)[k]), v)
  {
    hide Represents, Recoverable, Agreed, TraceOf, Run, Apply, Safe, FreshStep;
    var t := TraceOf(cfg, s, op);
    OtherAppends(cfg, s, op, k);
    CutTransparently(cfg, s, op, v, k + 1);
    assert t[..k + 1] == t[..k] + [t[k]];
    RunSnoc(Begin(s, op), t[..k], t[k]);
  }

  /** Whatever the torn line is taken for, the state with that record is recoverable. */
  lemma TornRecordSafe(cfg: Config, s: State, v: Cells, op: Op, k: nat, e': Event)
    requires Appending(cfg, s, v, op, k) && NoLarger(TraceOf(cfg, s, op)[k].event, e')
    ensures Recoverable(cfg, WithRecord(AtCrash(cfg, s, op, k), e'), CutVolume(cfg, s, v, op, k))
  {
    hide Represents, Recoverable, Agreed, Reconcilable, TraceOf, Run, Apply, Safe, FreshStep, Look, CutVolume;
    var e, s1 := TraceOf(cfg, s, op)[k].event, AtCrash(cfg, s, op, k);
    AtCrashIsSafe(cfg, s, v, op, k);
    NoLargerKind(e, e');
    if op.WriteOp? {
      WriteAppends(cfg, s, op, k);
      LocalRecordSafe(cfg, s1, CutVolume(cfg, s, v, op, k), e');
    } else {
      OtherUpload(cfg, s, v, op, k);
      UploadRecordSame(cfg, s1, v, e, e');
    }
  }

  lemma WriteAppends(cfg: Config, s: State, op: Op, k: nat)
    requires op.WriteOp? && k < |TraceOf(cfg, s, op)| && TraceOf(cfg, s, op)[k].Append?
    ensures var e := TraceOf(cfg, s, op)[k].event;
            && !e.CloudCommitted?
            && (e.LocalCommitted? ==> Look(AtCrash(cfg, s, op, k), e.chunkId).State() == Dirty)
  {
    hide Write, Run, Look;
    WriteInOrder(cfg, s, op.offset, op.data, k);
  }

  /** What the journal file reads as once m bytes of the line have reached it. */
  function TornText(text: string, e: Event, m: nat): string
    requires m <= |Encode(e)|
  {
    text + Encode(e)[..m]
  }

  /**
   * A crash inside an append, exactly. The journal file can be read again if and only if nothing of the line
   * reached it, or all but the last value, and a digit of that if it is a number. If so, the volume is
   * recovered as after any other crash at that point, whatever the line is taken for. If not, no engine
   * can open the volume any more.
   */
  lemma TornAppend(cfg: Config, s: State, v: Cells, op: Op, k: nat, text: string, m: nat)
    requires Appending(cfg, s, v, op, k)
    requires Complete(text) && ReadText(text) == Ok(AtCrash(cfg, s, op, k).journal)
    requires var e := TraceOf(cfg, s, op)[k].event;
             Encodable(e) && (e.CloudCommitted? ==> Solid(e.checksum)) && m <= |Encode(e)|
    ensures var e, s1 := TraceOf(cfg, s, op)[k].event, AtCrash(cfg, s, op, k);
            var read := ReadText(TornText(text, e, m));
            && (read.Ok? <==> m == 0 || m >= ReadsFrom(e))
            && (read.Ok? ==> Salvageable(cfg, s1.(journal := read.value), CutVolume(cfg, s, v, op, k)))
  {
    hide Represents, Recoverable, Salvageable, Agreed, TraceOf, Run, Safe, FreshStep, CutVolume, ReadText, Encode,
         Complete, Encodable, ReadsFrom, NoLarger;
    var e, s1 := TraceOf(cfg, s, op)[k].event, AtCrash(cfg, s, op, k);
    var read := ReadText(TornText(text, e, m));
    TornJournal(text, s1.journal, e, m);
    AtCrashIsSafe(cfg, s, v, op, k);
    SafeIsSalvageable(cfg, s1, CutVolume(cfg, s, v, op, k));
    if m > 0 && read.Ok? {
      var e' := read.value[|s1.journal|];
      assert read.value == s1.journal + [e'];
      TornRecordSafe(cfg, s, v, op, k, e');
      SafeIsSalvageable(cfg, WithRecord(s1, e'), CutVolume(cfg, s, v, op, k));
    }
  }
}
