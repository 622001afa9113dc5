/**
 * The order of the durable effects within an operation: what is announced before it is done, and what is
 * recorded only once it is durable.
 */
module Discipline {
  import opened Wrappers
  import opened Mapper
  import opened Metadata
  import opened Wal
  import opened Store
  import opened Operations
  import opened Recovery
  import opened Writing
  import opened Runs

  predicate IsUpsert(e: Effect, c: nat, state: ChunkState) { e.Upsert? && e.c == c && e.row.state == state }

  /**
   * An in-place write comes right after the WriteBegin that announces its chunk, place and length; right
   * after it comes the Dirty row with the generation announced, and then the LocalCommitted that closes it.
   */
  predicate WriteInOrder(t: seq<Effect>, i: nat)
    requires i < |t|
  {
    t[i].WriteFile? ==>
      && i > 0 && i + 2 < |t|
      && t[i - 1].Append? && t[i - 1].event.WriteBegin?
      && var begin := t[i - 1].event;
      && begin.chunkId == t[i].c && begin.offsetInChunk == t[i].offset && begin.length == |t[i].data|
      && IsUpsert(t[i + 1], t[i].c, Dirty) && t[i + 1].row.localGen == Some(begin.after)
      && t[i + 2] == Append(LocalCommitted(begin.txid, t[i].c, begin.after))
  }

  /** Records come only so: of a write around it, and of an upload once object and row are there. */
  predicate RecordInOrder(cfg: Config, t: seq<Effect>, i: nat)
    requires i < |t|
  {
    t[i].Append? ==>
      match t[i].event
      case WriteBegin(_, _, _, _, _, _) => i + 1 < |t| && t[i + 1].WriteFile?
      case LocalCommitted(_, _, _) => i >= 2 && t[i - 2].WriteFile?
      case CloudCommitted(c, g, sum) =>
        && i >= 3 && IsUpsert(t[i - 3], c, Uploading)
        && t[i - 2].PutObject? && t[i - 2].c == c && sum == cfg.digest(t[i - 2].data)
        && IsUpsert(t[i - 1], c, Clean) && t[i - 1].row.remoteGen == Some(g)
  }

  /**
   * A file is removed before its row says so, and put in place before its row does, unless it is truncated to
   * be written whole: then its length is set next.
   */
  predicate FileInOrder(cfg: Config, t: seq<Effect>, i: nat)
    requires i < |t|
  {
    match t[i]
    case RemoveFile(c) => i + 1 < |t| && IsUpsert(t[i + 1], c, Missing)
    case PutFile(c, data) =>
      i + 1 < |t| && (IsUpsert(t[i + 1], c, Clean) || (data == [] && t[i + 1] == SetLen(c, cfg.geo.ChunkLen(c))))
    case SetLen(c, _) => i > 0 && t[i - 1] == PutFile(c, [])
    case PutObject(c, _) => i > 0 && IsUpsert(t[i - 1], c, Uploading) && i + 2 < |t| && t[i + 2].Append?
    case Upsert(_, _) => true
    case WriteFile(_, _, _, _) => true
    case Append(_) => true
  }

  predicate InOrder(cfg: Config, t: seq<Effect>) {
    forall i :: 0 <= i < |t| ==> WriteInOrder(t, i) && RecordInOrder(cfg, t, i) && FileInOrder(cfg, t, i)
  }

  lemma InOrderConcat(cfg: Config, a: seq<Effect>, b: seq<Effect>)
    requires InOrder(cfg, a) && InOrder(cfg, b)
    ensures InOrder(cfg, a + b)
  {
    var t := a + b;
    forall i | 0 <= i < |t|
      ensures WriteInOrder(t, i) && RecordInOrder(cfg, t, i) && FileInOrder(cfg, t, i)
    {
      if i < |a| {
        InFirst(cfg, a, b, i);
      } else {
        InSecond(cfg, a, b, i - |a|);
      }
    }
  }

  lemma InFirst(cfg: Config, a: seq<Effect>, b: seq<Effect>, i: nat)
    requires i < |a| && WriteInOrder(a, i) && RecordInOrder(cfg, a, i) && FileInOrder(cfg, a, i)
    ensures WriteInOrder(a + b, i) && RecordInOrder(cfg, a + b, i) && FileInOrder(cfg, a + b, i)
  {
    assert forall j :: 0 <= j < |a| ==> (a + b)[j] == a[j];
  }

  lemma InSecond(cfg: Config, a: seq<Effect>, b: seq<Effect>, i: nat)
    requires i < |b| && WriteInOrder(b, i) && RecordInOrder(cfg, b, i) && FileInOrder(cfg, b, i)
    ensures WriteInOrder(a + b, |a| + i) && RecordInOrder(cfg, a + b, |a| + i) && FileInOrder(cfg, a + b, |a| + i)
  {
    assert forall j :: 0 <= j < |b| ==> (a + b)[|a| + j] == b[j];
    assert forall j :: |a| <= j < |a + b| ==> (a + b)[j] == b[j - |a|];
  }

  /** Upserts alone are in order. */
  lemma UpsertsInOrder(cfg: Config, t: seq<Effect>)
    requires forall i :: 0 <= i < |t| ==> t[i].Upsert?
    ensures InOrder(cfg, t)
  {
  }

  lemma {:induction false} EvictListInOrder(cfg: Config, s: State, list: seq<nat>, cached: nat)
    requires forall c :: c in list ==> c in s.rows
    ensures InOrder(cfg, EvictList(cfg, s, list, cached))
    decreases list
  {
    hide InOrder, Run, EvictOne;
    UpsertsInOrder(cfg, []);
    if list != [] && cached > cfg.low {
      var one := EvictOne(s, list[0]);
      EvictOneInOrder(cfg, s, list[0]);
      EvictListInOrder(cfg, Run(s, one), list[1..], SaturatingSub(cached, s.rows[list[0]].size));
      InOrderConcat(cfg, one,
                    EvictList(cfg, Run(s, one), list[1..], SaturatingSub(cached, s.rows[list[0]].size)));
    }
  }

  lemma EvictOneInOrder(cfg: Config, s: State, c: nat)
    requires c in s.rows
    ensures InOrder(cfg, EvictOne(s, c))
  {
  }

  lemma EvictInOrder(cfg: Config, s: State)
    ensures InOrder(cfg, Evict(cfg, s))
  {
    hide InOrder;
    UpsertsInOrder(cfg, []);
    if CachedBytes(s.rows) > cfg.cacheMax {
      EvictListInOrder(cfg, s, EvictableCleanChunks(s.rows), CachedBytes(s.rows));
    }
  }

  lemma FetchInOrder(cfg: Config, s: State, c: nat, data: seq<byte>)
    ensures InOrder(cfg, FetchTrace(cfg, s, c, data))
  {
  }

  lemma EnsureInOrder(cfg: Config, s: State, c: nat)
    requires Ensure(cfg, s, c).Ok?
    ensures InOrder(cfg, Ensure(cfg, s, c).value)
  {
    hide InOrder, Run, Evict, FetchTrace, Fetch;
    UpsertsInOrder(cfg, []);
    if !Resident(s, c) {
      var t := FetchTrace(cfg, s, c, Fetch(cfg, s, c).value);
      FetchInOrder(cfg, s, c, Fetch(cfg, s, c).value);
      EvictInOrder(cfg, Run(s, t));
      InOrderConcat(cfg, t, Evict(cfg, Run(s, t)));
    }
  }

  lemma {:induction false} ReadInOrder(cfg: Config, s: State, spans: seq<Span>)
    ensures InOrder(cfg, ReadSpans(cfg, s, spans).trace)
    decreases spans
  {
    hide InOrder, Run, Ensure;
    UpsertsInOrder(cfg, []);
    if spans != [] && Ensure(cfg, s, spans[0].chunkId).Ok? {
      var t := Ensure(cfg, s, spans[0].chunkId).value;
      var touch := Touch(Run(s, t), spans[0].chunkId);
      EnsureInOrder(cfg, s, spans[0].chunkId);
      UpsertsInOrder(cfg, touch);
      InOrderConcat(cfg, t, touch);
      var rest := ReadSpans(cfg, Run(s, t + touch), spans[1..]).trace;
      ReadInOrder(cfg, Run(s, t + touch), spans[1..]);
      InOrderConcat(cfg, t + touch, rest);
    }
  }

  lemma CommitInOrder(cfg: Config, s: State, sp: Span, data: seq<byte>)
    requires |data| == sp.len
    ensures InOrder(cfg, Commit(cfg, s, sp, data))
  {
    hide Look;
  }

  lemma EmptyChunkInOrder(cfg: Config, c: nat)
    ensures InOrder(cfg, EmptyChunk(cfg, c))
  {
  }

  lemma SpanInOrder(cfg: Config, s: State, sp: Span, data: seq<byte>)
    requires Within(sp, data) && WriteSpan(cfg, s, sp, data).Ok?
    ensures InOrder(cfg, WriteSpan(cfg, s, sp, data).value)
  {
    hide InOrder, Run, Ensure, WriteSpan, Commit, EmptyChunk;
    WriteSpanIs(cfg, s, sp, data);
    var a := Prepare(cfg, s, sp).value;
    if IsFull(cfg, sp) {
      EmptyChunkInOrder(cfg, sp.chunkId);
    } else {
      EnsureInOrder(cfg, s, sp.chunkId);
    }
    CommitInOrder(cfg, Run(s, a), sp, SpanData(sp, data));
    InOrderConcat(cfg, a, Commit(cfg, Run(s, a), sp, SpanData(sp, data)));
  }

  lemma {:induction false} WriteSpansInOrder(cfg: Config, s: State, spans: seq<Span>, data: seq<byte>)
    requires AllWithin(spans, data)
    ensures InOrder(cfg, WriteSpans(cfg, s, spans, data).trace)
    decreases |spans|
  {
    hide InOrder, Run, WriteSpan;
    UpsertsInOrder(cfg, []);
    if spans != [] && WriteSpan(cfg, s, spans[0], data).Ok? {
      var t := WriteSpan(cfg, s, spans[0], data).value;
      SpanInOrder(cfg, s, spans[0], data);
      WriteSpansInOrder(cfg, Run(s, t), spans[1..], data);
      InOrderConcat(cfg, t, WriteSpans(cfg, Run(s, t), spans[1..], data).trace);
    }
  }

  lemma WritesInOrder(cfg: Config, s: State, offset: nat, data: seq<byte>)
    ensures InOrder(cfg, Write(cfg, s, offset, data).trace)
  {
    hide InOrder, Run, WriteSpans, Evict, Spans;
    UpsertsInOrder(cfg, []);
    if Spans(offset, |data|, cfg.geo).Ok? {
      var spans := Spans(offset, |data|, cfg.geo).value;
      SpansWithin(offset, data, cfg.geo);
      var w := WriteSpans(cfg, s, spans, data);
      WriteSpansInOrder(cfg, s, spans, data);
      EvictInOrder(cfg, Run(s, w.trace));
      InOrderConcat(cfg, w.trace, Evict(cfg, Run(s, w.trace)));
    }
  }

  lemma SyncOneInOrder(cfg: Config, s: State, c: nat)
    requires c in s.rows
    ensures InOrder(cfg, SyncOne(cfg, s, c).trace)
  {
  }

  lemma {:induction false} SyncListInOrder(cfg: Config, s: State, list: seq<nat>)
    requires forall c :: c in list ==> c in s.rows
    ensures InOrder(cfg, SyncList(cfg, s, list).trace)
    decreases list
  {
    hide InOrder, Run, SyncOne;
    UpsertsInOrder(cfg, []);
    if list != [] {
      var one := SyncOne(cfg, s, list[0]);
      SyncOneInOrder(cfg, s, list[0]);
      if one.result.Ok? {
        SyncListInOrder(cfg, Run(s, one.trace), list[1..]);
        InOrderConcat(cfg, one.trace, SyncList(cfg, Run(s, one.trace), list[1..]).trace);
      }
    }
  }

  lemma SyncInOrder(cfg: Config, s: State)
    ensures InOrder(cfg, Sync(cfg, s).trace)
  {
    hide InOrder, Run, SyncList, Evict;
    var u := SyncList(cfg, s, DirtyChunks(s.rows));
    SyncListInOrder(cfg, s, DirtyChunks(s.rows));
    EvictInOrder(cfg, Run(s, u.trace));
    InOrderConcat(cfg, u.trace, Evict(cfg, Run(s, u.trace)));
  }

  lemma {:induction false} StepsAreUpserts(cfg: Config, s: State, t: seq<Effect>)
    requires RecoverySteps(cfg, s, t)
    ensures forall i :: 0 <= i < |t| ==> t[i].Upsert?
    decreases t
  {
    if t != [] {
      StepsAreUpserts(cfg, Apply(s, t[0]), t[1..]);
      assert forall i :: 0 < i < |t| ==> t[i] == t[1..][i - 1];
    }
  }

  /** Every operation performs its effects in order, in every state whatever. */
  lemma EffectsInOrder(cfg: Config, s: State, op: Op)
    ensures InOrder(cfg, TraceOf(cfg, s, op))
  {
    hide InOrder, Run, ReadSpans, Write, Sync, Evict, Fsck, Recover, RecoverySteps, Spans;
    UpsertsInOrder(cfg, []);
    match op
    case ReadOp(offset, len) =>
      if Spans(offset, len, cfg.geo).Ok? {
        ReadInOrder(cfg, s, Spans(offset, len, cfg.geo).value);
      }
    case WriteOp(offset, data) => WritesInOrder(cfg, s, offset, data);
    case SyncOp => SyncInOrder(cfg, s);
    case EvictOp => EvictInOrder(cfg, s);
    case FsckOp(order) =>
      FsckIsSteps(cfg, s, order);
      StepsAreUpserts(cfg, s, Fsck(cfg, s, order));
      UpsertsInOrder(cfg, Fsck(cfg, s, order));
    case OpenOp(order) =>
      RecoverIsSteps(cfg, Loaded(s), order);
      StepsAreUpserts(cfg, Loaded(s), Recover(cfg, Loaded(s), order));
      UpsertsInOrder(cfg, Recover(cfg, Loaded(s), order));
  }
}
