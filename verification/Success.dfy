/**
 * When `write_at` succeeds and how it fails: span by span, on the state in which the span's turn comes,
 * and for the whole request on the state before the call.
 */
module Success {
  import opened Wrappers
  import opened Mapper
  import opened Metadata
  import opened Store
  import opened Operations
  import opened Recovery
  import opened Writing
  import opened Guards
  import opened CacheLimit
  import opened Serving

  /** The span covers its chunk from end to end. */
  predicate Whole(cfg: Config, sp: Span) { sp.offsetInChunk == 0 && sp.len == cfg.geo.ChunkLen(sp.chunkId) }

  /** The span can be written as things are: it is whole, or its chunk is not in Error and is held or obtainable. */
  predicate Writable(cfg: Config, s: State, sp: Span) {
    Whole(cfg, sp) || (!InError(s, sp.chunkId) && (Held(s, sp.chunkId) || Obtainable(cfg, s, sp.chunkId)))
  }

  /** And why it cannot. */
  predicate WhyRefused(cfg: Config, s: State, sp: Span, e: Error) {
    e == if !InError(s, sp.chunkId) && sp.chunkId in s.down then Io else Corrupt
  }

  lemma SpanSucceeds(cfg: Config, s: State, sp: Span, data: seq<byte>)
    requires cfg.Valid() && Within(sp, data)
    ensures WriteSpan(cfg, s, sp, data).Ok? <==> Writable(cfg, s, sp)
    ensures WriteSpan(cfg, s, sp, data).Err? ==> WhyRefused(cfg, s, sp, WriteSpan(cfg, s, sp, data).error)
  {
    hide Ensure, Run, Commit, EnsuredState, Look;
    EnsuresExactly(cfg, s, sp.chunkId);
  }

  // ---------------------------------------------------------------- span after span

  /** The state in which the turn of span i comes. */
  ghost function Turn(cfg: Config, s: State, spans: seq<Span>, data: seq<byte>, i: nat): State
    requires AllWithin(spans, data) && i <= |spans|
  {
    Run(s, WriteSpans(cfg, s, spans[..i], data).trace)
  }

  lemma FirstTurn(cfg: Config, s: State, spans: seq<Span>, data: seq<byte>)
    requires AllWithin(spans, data)
    ensures Turn(cfg, s, spans, data, 0) == s
  {
    RunNothing(s);
    assert spans[..0] == [];
  }

  lemma NextTurn(cfg: Config, s: State, spans: seq<Span>, data: seq<byte>, i: nat)
    requires AllWithin(spans, data) && 0 < i <= |spans| && WriteSpan(cfg, s, spans[0], data).Ok?
    ensures AllWithin(spans[1..], data)
    ensures Turn(cfg, s, spans, data, i)
         == Turn(cfg, Run(s, WriteSpan(cfg, s, spans[0], data).value), spans[1..], data, i - 1)
  {
    hide Run, WriteSpan;
    var t := WriteSpan(cfg, s, spans[0], data).value;
    assert spans[..i][0] == spans[0] && spans[..i][1..] == spans[1..][..i - 1];
    RunConcat(s, t, WriteSpans(cfg, Run(s, t), spans[1..][..i - 1], data).trace);
  }

  /** The first k spans are writable in their turns, and the next one, if there is one, is refused with the error. */
  ghost predicate StopsAt(cfg: Config, s: State, spans: seq<Span>, data: seq<byte>, k: nat, r: Result<()>)
    requires AllWithin(spans, data)
  {
    && k <= |spans|
    && (forall i :: 0 <= i < k ==> Writable(cfg, Turn(cfg, s, spans, data, i), spans[i]))
    && (k == |spans| ==> r == Ok(()))
    && (k < |spans| ==>
          && !Writable(cfg, Turn(cfg, s, spans, data, k), spans[k])
          && r.Err? && WhyRefused(cfg, Turn(cfg, s, spans, data, k), spans[k], r.error))
  }

  lemma StopsLater(cfg: Config, s: State, spans: seq<Span>, data: seq<byte>, k: nat, r: Result<()>)
    requires AllWithin(spans, data) && spans != [] && Writable(cfg, s, spans[0])
    requires WriteSpan(cfg, s, spans[0], data).Ok?
    requires AllWithin(spans[1..], data)
    requires StopsAt(cfg, Run(s, WriteSpan(cfg, s, spans[0], data).value), spans[1..], data, k, r)
    ensures StopsAt(cfg, s, spans, data, k + 1, r)
  {
    hide Turn, Run, WriteSpan, Writable, WhyRefused;
    FirstTurn(cfg, s, spans, data);
    forall i | 0 < i <= k + 1 && i < |spans|
      ensures Turn(cfg, s, spans, data, i)
           == Turn(cfg, Run(s, WriteSpan(cfg, s, spans[0], data).value), spans[1..], data, i - 1)
      ensures spans[i] == spans[1..][i - 1]
    {
      NextTurn(cfg, s, spans, data, i);
    }
  }

  lemma {:induction false} WriteSpansStop(cfg: Config, s: State, spans: seq<Span>, data: seq<byte>) returns (k: nat)
    requires cfg.Valid() && AllWithin(spans, data)
    ensures StopsAt(cfg, s, spans, data, k, WriteSpans(cfg, s, spans, data).result)
    decreases |spans|
  {
    hide Turn, Run, WriteSpan, Writable, WhyRefused;
    k := 0;
    if spans != [] {
      FirstTurn(cfg, s, spans, data);
      SpanSucceeds(cfg, s, spans[0], data);
      if WriteSpan(cfg, s, spans[0], data).Ok? {
        var s1 := Run(s, WriteSpan(cfg, s, spans[0], data).value);
        k := WriteSpansStop(cfg, s1, spans[1..], data);
        StopsLater(cfg, s, spans, data, k, WriteSpans(cfg, s1, spans[1..], data).result);
        k := k + 1;
      }
    }
  }

  /** What `write_at` answers. */
  ghost predicate WriteAnswer(cfg: Config, s: State, offset: nat, data: seq<byte>, r: Result<()>) {
    if offset + |data| > cfg.geo.volume then r == Err(InvalidArgument)
    else
      && Spans(offset, |data|, cfg.geo).Ok?
      && AllWithin(Spans(offset, |data|, cfg.geo).value, data)
      && var spans := Spans(offset, |data|, cfg.geo).value;
      && (r.Ok? <==>
            forall i :: 0 <= i < |spans| ==> Writable(cfg, Turn(cfg, s, spans, data, i), spans[i]))
      && (r.Err? ==> exists k: nat :: k < |spans| && StopsAt(cfg, s, spans, data, k, r))
  }

  /**
   * `write_at`, exactly and in every state whatever: it succeeds if and only if the range is in the volume
   * and each span, in its turn, covers its whole chunk, or finds its chunk not in Error and held or
   * obtainable. Else it fails with the error of the first span that does not.
   */
  lemma WriteSucceedsExactly(cfg: Config, s: State, offset: nat, data: seq<byte>)
    requires cfg.Valid()
    ensures WriteAnswer(cfg, s, offset, data, Write(cfg, s, offset, data).result)
  {
    hide Turn, Run, WriteSpans, Writable, WhyRefused, Evict, Covers, Pieces;
    if offset + |data| <= cfg.geo.volume {
      SpansCover(offset, |data|, cfg.geo);
      SpansWithin(offset, data, cfg.geo);
      var spans := Spans(offset, |data|, cfg.geo).value;
      var k := WriteSpansStop(cfg, s, spans, data);
      assert StopsAt(cfg, s, spans, data, k, Write(cfg, s, offset, data).result);
    }
  }

  // ---------------------------------------------------------------- told before the call

  /** Nothing that the other spans of a request do keeps this span from being written. */
  predicate SurelyWritable(cfg: Config, s: State, sp: Span) {
    || Whole(cfg, sp)
    || (&& !InError(s, sp.chunkId)
        && (Obtainable(cfg, s, sp.chunkId) || (Held(s, sp.chunkId) && s.rows[sp.chunkId].state == Dirty)))
  }

  /** Nothing happened to chunk d but that it may have been evicted, and the cloud is as it was. */
  predicate LeftAlone(s: State, s': State, d: nat) {
    && (WasKept(s, s', d) || WasEvicted(s, s', d))
    && s'.cloud == s.cloud && s'.down == s.down
  }

  lemma LeftAloneOnce(a: State, b: State, c: State, d: nat)
    requires WasKept(a, b, d) && a.cloud == b.cloud && a.down == b.down && a.clock <= b.clock && LeftAlone(b, c, d)
    ensures LeftAlone(a, c, d)
  {
    SameRow(a, b, d);
  }

  lemma LeftAloneThen(a: State, b: State, c: State, d: nat)
    requires LeftAlone(a, b, d) && WasKept(b, c, d) && b.cloud == c.cloud && b.down == c.down
    ensures LeftAlone(a, c, d)
  {
    SameRow(b, c, d);
  }

  lemma EnsureLeavesAlone(cfg: Config, s: State, c: nat, d: nat)
    requires cfg.Valid() && Ensure(cfg, s, c).Ok? && d != c
    ensures LeftAlone(s, Run(s, Ensure(cfg, s, c).value), d)
  {
    hide Ensure, Run, EvictedExactly, WasEvicted;
    EnsuresExactly(cfg, s, c);
    if !Held(s, c) {
      var data := Obtained(cfg, s, c);
      var row := Meta(true, Clean, cfg.geo.ChunkLen(c), None, None, Some(cfg.digest(data)), s.clock, None, 0);
      var s1 := s.(files := s.files[c := data], rows := s.rows[c := row], clock := s.clock + 1);
      EvictedLeavesAlone(cfg, s1, Run(s, Ensure(cfg, s, c).value), d);
      LeftAloneOnce(s, s1, Run(s, Ensure(cfg, s, c).value), d);
    }
  }

  lemma EvictedLeavesAlone(cfg: Config, s: State, s': State, d: nat)
    requires EvictedExactly(cfg, s, s')
    ensures LeftAlone(s, s', d)
  {
    hide WithinLimit, CachedBytes, Gone, UsedBefore, WasEvicted, WasKept;
  }

  /** An effect on one chunk leaves the others alone, and the cloud if it is no upload. */
  lemma OthersKept(s: State, t: seq<Effect>, c: nat, d: nat)
    requires About(t, c) && d != c
    ensures WasKept(s, Run(s, t), d)
  {
    hide Run, Look;
    LookAfterRun(s, t, c, d);
    LookRow(s, d);
    LookRow(Run(s, t), d);
  }

  lemma {:induction false} NoUpload(s: State, t: seq<Effect>)
    requires forall i :: 0 <= i < |t| ==> !t[i].PutObject?
    ensures Run(s, t).cloud == s.cloud
    decreases t
  {
    if t != [] {
      assert forall i :: 0 <= i < |t[1..]| ==> t[1..][i] == t[i + 1];
      NoUpload(Apply(s, t[0]), t[1..]);
    }
  }

  lemma SpanLeavesAlone(cfg: Config, s: State, sp: Span, data: seq<byte>, d: nat)
    requires cfg.Valid() && Within(sp, data) && WriteSpan(cfg, s, sp, data).Ok? && d != sp.chunkId
    ensures LeftAlone(s, Run(s, WriteSpan(cfg, s, sp, data).value), d)
  {
    hide Run, Ensure, WasEvicted, WasKept, Look;
    WriteSpanIs(cfg, s, sp, data);
    var a := Prepare(cfg, s, sp).value;
    var s1 := Run(s, a);
    var b := Commit(cfg, s1, sp, SpanData(sp, data));
    if IsFull(cfg, sp) {
      OthersKept(s, a, sp.chunkId, d);
      NoUpload(s, a);
    } else {
      EnsureLeavesAlone(cfg, s, sp.chunkId, d);
    }
    assert LeftAlone(s, s1, d);
    OthersKept(s1, b, sp.chunkId, d);
    NoUpload(s1, b);
    LeftAloneThen(s, s1, Run(s1, b), d);
    RunConcat(s, a, b);
  }

  lemma StillWritable(cfg: Config, s: State, s': State, sp: Span)
    requires LeftAlone(s, s', sp.chunkId)
    ensures SurelyWritable(cfg, s, sp) ==> SurelyWritable(cfg, s', sp)
    ensures Writable(cfg, s', sp) ==> Writable(cfg, s, sp)
  {
    var c := sp.chunkId;
    if WasKept(s, s', c) {
      SameRow(s, s', c);
    }
  }

  lemma SurelyIsWritable(cfg: Config, s: State, sp: Span)
    requires SurelyWritable(cfg, s, sp)
    ensures Writable(cfg, s, sp)
  {
  }

  lemma {:induction false} SpansSucceed(cfg: Config, s: State, spans: seq<Span>, data: seq<byte>)
    requires cfg.Valid() && AllWithin(spans, data) && DistinctChunks(spans)
    ensures (forall i :: 0 <= i < |spans| ==> SurelyWritable(cfg, s, spans[i])) ==>
              WriteSpans(cfg, s, spans, data).result.Ok?
    ensures WriteSpans(cfg, s, spans, data).result.Ok? ==> forall i :: 0 <= i < |spans| ==> Writable(cfg, s, spans[i])
    decreases |spans|
  {
    hide Run, WriteSpan, Writable, SurelyWritable, LeftAlone;
    if spans != [] {
      SpanSucceeds(cfg, s, spans[0], data);
      if SurelyWritable(cfg, s, spans[0]) {
        SurelyIsWritable(cfg, s, spans[0]);
      }
      if WriteSpan(cfg, s, spans[0], data).Ok? {
        var s1 := Run(s, WriteSpan(cfg, s, spans[0], data).value);
        forall i | 0 <= i < |spans[1..]|
          ensures spans[1..][i] == spans[i + 1]
          ensures SurelyWritable(cfg, s, spans[i + 1]) ==> SurelyWritable(cfg, s1, spans[1..][i])
          ensures Writable(cfg, s1, spans[1..][i]) ==> Writable(cfg, s, spans[i + 1])
        {
          SpanLeavesAlone(cfg, s, spans[0], data, spans[i + 1].chunkId);
          StillWritable(cfg, s, s1, spans[i + 1]);
        }
        SpansSucceed(cfg, s1, spans[1..], data);
        assert forall i :: 0 < i < |spans| ==> spans[i] == spans[1..][i - 1];
      }
    }
  }

  /** Every span of the request is sure to be writable. */
  ghost predicate SurelySucceeds(cfg: Config, s: State, offset: nat, len: nat) {
    && Spans(offset, len, cfg.geo).Ok?
    && forall i :: 0 <= i < |Spans(offset, len, cfg.geo).value| ==>
         SurelyWritable(cfg, s, Spans(offset, len, cfg.geo).value[i])
  }

  /** Every span of the request is writable as things are. */
  ghost predicate MaySucceed(cfg: Config, s: State, offset: nat, len: nat) {
    && Spans(offset, len, cfg.geo).Ok?
    && forall i :: 0 <= i < |Spans(offset, len, cfg.geo).value| ==>
         Writable(cfg, s, Spans(offset, len, cfg.geo).value[i])
  }

  /**
   * On the state before the call: a write inside the volume succeeds if each of its spans covers its whole
   * chunk, or finds its chunk not in Error and obtainable, or held and Dirty. It fails unless each does, or
   * finds it held and Clean: such a chunk alone may be evicted by the spans before it.
   */
  lemma WriteSucceeds(cfg: Config, s: State, offset: nat, data: seq<byte>)
    requires cfg.Valid() && offset + |data| <= cfg.geo.volume
    ensures SurelySucceeds(cfg, s, offset, |data|) ==> Write(cfg, s, offset, data).result == Ok(())
    ensures Write(cfg, s, offset, data).result.Ok? ==> MaySucceed(cfg, s, offset, |data|)
  {
    hide Run, WriteSpans, Writable, SurelyWritable, Evict, Covers, Pieces;
    SpansCover(offset, |data|, cfg.geo);
    SpansWithin(offset, data, cfg.geo);
    SpansDistinct(offset, |data|, cfg.geo);
    SpansSucceed(cfg, s, Spans(offset, |data|, cfg.geo).value, data);
  }
}
