/**
 * Exactly which requests of `write_at` are safe: those whose spans all are, each in the state that the
 * ones before it leave. What one unsafe span spoils, nothing later in the request mends.
 */
module Requests {
  import opened Wrappers
  import opened Mapper
  import opened Metadata
  import opened Store
  import opened Volume
  import opened Operations
  import opened Safety
  import opened Transparency
  import opened Recovery
  import opened Writing
  import opened Eviction
  import opened Guards
  import opened Exactness
  import opened Failures

  // ---------------------------------------------------------------- a Dirty chunk is left alone

  predicate IsDirtyAt(s: State, c: nat) { c in s.rows && s.rows[c].state == Dirty }

  lemma StillDirty(s: State, t: seq<Effect>, c: nat)
    requires IsDirtyAt(s, c) && Avoids(t, c)
    ensures IsDirtyAt(Run(s, t), c) && Look(Run(s, t), c) == Look(s, c)
  {
    hide Run, Look;
    AvoidsLook(s, t, c);
    LookRow(s, c);
    LookRow(Run(s, t), c);
  }

  lemma EvictSpares(cfg: Config, s: State, c: nat)
    requires IsDirtyAt(s, c)
    ensures Avoids(Evict(cfg, s), c)
  {
    if CachedBytes(s.rows) > cfg.cacheMax {
      EvictListAvoids(cfg, s, EvictableCleanChunks(s.rows), CachedBytes(s.rows), c);
    }
  }

  lemma EnsureSpares(cfg: Config, s: State, d: nat, c: nat)
    requires IsDirtyAt(s, c) && d != c && Ensure(cfg, s, d).Ok?
    ensures Avoids(Ensure(cfg, s, d).value, c)
  {
    hide Run, Evict;
    if !Resident(s, d) {
      var t := FetchTrace(cfg, s, d, Fetch(cfg, s, d).value);
      assert Avoids(t, c);
      StillDirty(s, t, c);
      EvictSpares(cfg, Run(s, t), c);
    }
  }

  lemma SpanSpares(cfg: Config, s: State, sp: Span, data: seq<byte>, c: nat)
    requires IsDirtyAt(s, c) && Within(sp, data) && WriteSpan(cfg, s, sp, data).Ok? && sp.chunkId != c
    ensures Avoids(WriteSpan(cfg, s, sp, data).value, c)
  {
    hide Run, Commit, WriteSpan, Ensure, Look;
    WriteSpanIs(cfg, s, sp, data);
    var a := Prepare(cfg, s, sp).value;
    CommitIsCommitAt(cfg, Run(s, a), sp, SpanData(sp, data));
    if !IsFull(cfg, sp) {
      EnsureSpares(cfg, s, sp.chunkId, c);
    }
    assert Avoids(a, c) && Avoids(Commit(cfg, Run(s, a), sp, SpanData(sp, data)), c);
  }

  // ---------------------------------------------------------------- one span

  /** The span is safe to write: exactly then does it replace its bytes and nothing else. */
  ghost predicate SpanFine(cfg: Config, s: State, sp: Span, data: seq<byte>, v: Cells)
    requires Within(sp, data)
  {
    && sp.offsetInChunk + sp.len <= |Part(v, cfg.geo, sp.chunkId)|
    && RoomEnough(cfg, s, sp, v)
    && (FreshEnough(cfg, s, sp)
        || Fills(Look(s, sp.chunkId).Image(cfg.geo.ChunkLen(sp.chunkId)), NewPart(v, cfg.geo, sp, SpanData(sp, data))))
  }

  /** The chunk is Dirty and does not hold what it should. */
  ghost predicate Spoilt(cfg: Config, s: State, v: Cells, c: nat) {
    IsDirtyAt(s, c) && !ChunkSettled(cfg, s, v, c)
  }

  lemma SpoiltShows(cfg: Config, s: State, v: Cells, c: nat)
    requires Spoilt(cfg, s, v, c)
    ensures !Represents(cfg, s, v)
  {
  }

  lemma EvictedSettles(a: Slot, b: Slot, p: Cells)
    requires SlotSettled(a, p) && UntouchedOrEvicted(a, b)
    ensures SlotSettled(b, p)
  {
  }

  /** A span that is not safe leaves its own chunk Dirty and wrong. */
  lemma SpanSpoils(cfg: Config, s: State, sp: Span, start: nat, data: seq<byte>, v: Cells)
    requires Represents(cfg, s, v) && Lands(sp, start, cfg.geo) && Within(sp, data) && WriteSpan(cfg, s, sp, data).Ok?
    requires start + sp.len <= |v|
    requires !Represents(cfg, Run(s, WriteSpan(cfg, s, sp, data).value), Put(v, start, SpanData(sp, data)))
    ensures Spoilt(cfg, Run(s, WriteSpan(cfg, s, sp, data).value), Put(v, start, SpanData(sp, data)), sp.chunkId)
  {
    hide Run, WriteSpan, Put, SlotSettled, UntouchedOrEvicted, Look, Overwrite, Prepare;
    var s', w := Run(s, WriteSpan(cfg, s, sp, data).value), Put(v, start, SpanData(sp, data));
    SpanSlot(cfg, s, sp, data);
    LookRow(s', sp.chunkId);
    PutSized(v, start, SpanData(sp, data));
    forall d: nat | d != sp.chunkId
      ensures ChunkSettled(cfg, s', w, d)
    {
      assert ChunkSettled(cfg, s, v, d);
      SpanElsewhere(cfg, s, sp, data, d, v);
      EvictedSettles(Look(s, d), Look(s', d), Part(v, cfg.geo, d));
      PutPart(v, cfg.geo, sp, start, SpanData(sp, data), d);
    }
  }

  lemma PutSized(v: Cells, start: nat, data: seq<byte>)
    requires start + |data| <= |v|
    ensures |Put(v, start, data)| == |v|
  {
  }

  // ---------------------------------------------------------------- the rest of the request

  /** A request of distinct chunks that lies inside the volume. */
  ghost predicate Aimed(cfg: Config, spans: seq<Span>, start: nat, len: nat, requestOffset: nat, data: seq<byte>,
                        v: Cells) {
    && cfg.Valid() && |v| == cfg.geo.volume
    && AllWithin(spans, data) && DistinctChunks(spans)
    && Covers(spans, start, len, cfg.geo, requestOffset)
    && start + len <= |v| && requestOffset + len <= |data|
  }

  lemma AimedParts(cfg: Config, spans: seq<Span>, start: nat, len: nat, requestOffset: nat, data: seq<byte>, v: Cells)
    requires Aimed(cfg, spans, start, len, requestOffset, data, v) && spans != []
    ensures Within(spans[0], data) && Lands(spans[0], start, cfg.geo) && 0 < spans[0].len <= len
    ensures SpanData(spans[0], data) == data[requestOffset..requestOffset + spans[0].len]
    ensures start + spans[0].len <= |v| && requestOffset + spans[0].len <= |data|
    ensures Aimed(cfg, spans[1..], start + spans[0].len, len - spans[0].len, requestOffset + spans[0].len, data,
                  PutFirst(v, start, spans, requestOffset, data))
    ensures forall i :: 0 <= i < |spans[1..]| ==> spans[1..][i].chunkId != spans[0].chunkId
  {
    hide Put;
    PutSized(v, start, data[requestOffset..requestOffset + spans[0].len]);
    assert forall i :: 0 <= i < |spans[1..]| ==> spans[1..][i] == spans[i + 1];
  }

  lemma {:induction false} WrittenBound(cfg: Config, s: State, spans: seq<Span>, start: nat, len: nat,
                                        requestOffset: nat,
        data: seq<byte>)
    requires AllWithin(spans, data) && Covers(spans, start, len, cfg.geo, requestOffset)
    ensures Written(cfg, s, spans, data) <= len
    decreases |spans|
  {
    hide WriteSpan, AfterFirst;
    if spans != [] && WriteSpan(cfg, s, spans[0], data).Ok? {
      WrittenBound(cfg, AfterFirst(cfg, s, spans, data), spans[1..], start + spans[0].len, len - spans[0].len,
                   requestOffset + spans[0].len, data);
    }
  }

  /** What spans of other chunks do to a Dirty chunk and to its cells: nothing. */
  ghost predicate Spared(cfg: Config, s: State, spans: seq<Span>, start: nat, requestOffset: nat, data: seq<byte>,
                         v: Cells, c: nat)
  {
    && AllWithin(spans, data)
    && var n, s' := Written(cfg, s, spans, data), Run(s, WriteSpans(cfg, s, spans, data).trace);
    && start + n <= |v| && requestOffset + n <= |data|
    && Look(s', c) == Look(s, c) && IsDirtyAt(s', c)
    && Part(Put(v, start, data[requestOffset..requestOffset + n]), cfg.geo, c) == Part(v, cfg.geo, c)
  }

  lemma {:induction false} RestSpares(cfg: Config, s: State, spans: seq<Span>, start: nat, len: nat, requestOffset: nat,
        data: seq<byte>, v: Cells, c: nat)
    requires Aimed(cfg, spans, start, len, requestOffset, data, v) && IsDirtyAt(s, c)
    requires forall i :: 0 <= i < |spans| ==> spans[i].chunkId != c
    ensures Spared(cfg, s, spans, start, requestOffset, data, v, c)
    decreases |spans|
  {
    hide Aimed, Spared, WriteSpan, Run, PutFirst, AllWithin, WriteSpans, Written, AfterFirst, Look, IsDirtyAt;
    AimedWithin(cfg, spans, start, len, requestOffset, data, v);
    if spans == [] || WriteSpan(cfg, s, spans[0], data).Err? {
      SparedNone(cfg, s, spans, start, len, requestOffset, data, v, c);
    } else {
      AimedParts(cfg, spans, start, len, requestOffset, data, v);
      var t := WriteSpan(cfg, s, spans[0], data).value;
      SpanSpares(cfg, s, spans[0], data, c);
      StillDirty(s, t, c);
      assert forall i :: 0 <= i < |spans[1..]| ==> spans[1..][i] == spans[i + 1];
      RestSpares(cfg, Run(s, t), spans[1..], start + spans[0].len, len - spans[0].len, requestOffset + spans[0].len,
                 data, PutFirst(v, start, spans, requestOffset, data), c);
      SparedLater(cfg, s, spans, start, len, requestOffset, data, v, c);
    }
  }

  lemma AimedWithin(cfg: Config, spans: seq<Span>, start: nat, len: nat, requestOffset: nat, data: seq<byte>, v: Cells)
    requires Aimed(cfg, spans, start, len, requestOffset, data, v)
    ensures AllWithin(spans, data) && start + len <= |v| && requestOffset + len <= |data|
    ensures Covers(spans, start, len, cfg.geo, requestOffset)
    ensures spans != [] ==> Within(spans[0], data)
  {
  }

  lemma PutNone(v: Cells, start: nat, data: seq<byte>, requestOffset: nat)
    requires start <= |v| && requestOffset <= |data|
    ensures Put(v, start, data[requestOffset..requestOffset]) == v
  {
    assert Known(data[requestOffset..requestOffset]) == [];
    PatchNothing(v, start);
  }

  lemma SparedNone(cfg: Config, s: State, spans: seq<Span>, start: nat, len: nat, requestOffset: nat, data: seq<byte>,
        v: Cells, c: nat)
    requires Aimed(cfg, spans, start, len, requestOffset, data, v) && IsDirtyAt(s, c)
    requires spans == [] || (Within(spans[0], data) && WriteSpan(cfg, s, spans[0], data).Err?)
    ensures Spared(cfg, s, spans, start, requestOffset, data, v, c)
  {
    hide WriteSpan, Look, Put, Part, Covers;
    PutNone(v, start, data, requestOffset);
  }

  lemma SparedLater(cfg: Config, s: State, spans: seq<Span>, start: nat, len: nat, requestOffset: nat, data: seq<byte>,
        v: Cells, c: nat)
    requires Aimed(cfg, spans, start, len, requestOffset, data, v) && AllWithin(spans, data)
    requires spans != [] && spans[0].chunkId != c && WriteSpan(cfg, s, spans[0], data).Ok?
    requires Look(Run(s, WriteSpan(cfg, s, spans[0], data).value), c) == Look(s, c)
    requires start + spans[0].len <= |v| && requestOffset + spans[0].len <= |data|
    requires Spared(cfg, Run(s, WriteSpan(cfg, s, spans[0], data).value), spans[1..], start + spans[0].len,
                    requestOffset + spans[0].len, data, PutFirst(v, start, spans, requestOffset, data), c)
    ensures Spared(cfg, s, spans, start, requestOffset, data, v, c)
  {
    hide Aimed, WriteSpan, Run, Look, Part, Put, IsDirtyAt, WriteSpans, Written;
    AimedParts(cfg, spans, start, len, requestOffset, data, v);
    UnfoldRequest(cfg, s, spans, data, 0);
    var s1 := AfterFirst(cfg, s, spans, data);
    var n := Written(cfg, s1, spans[1..], data);
    AimedVolume(cfg, spans, start, len, requestOffset, data, v);
    RunConcat(s, WriteSpan(cfg, s, spans[0], data).value, WriteSpans(cfg, s1, spans[1..], data).trace);
    PutSized(v, start, SpanData(spans[0], data));
    PutConcat(v, start, data, requestOffset, spans[0].len, n);
    PutPart(v, cfg.geo, spans[0], start, SpanData(spans[0], data), c);
  }

  lemma AimedVolume(cfg: Config, spans: seq<Span>, start: nat, len: nat, requestOffset: nat, data: seq<byte>, v: Cells)
    requires Aimed(cfg, spans, start, len, requestOffset, data, v)
    ensures cfg.Valid() && |v| == cfg.geo.volume
  {
  }

  // ---------------------------------------------------------------- the whole request

  /** Every span that gets written is safe, in the state that the spans before it leave. */
  ghost predicate AllFine(cfg: Config, s: State, spans: seq<Span>, data: seq<byte>, v: Cells, start: nat)
    requires AllWithin(spans, data)
    decreases spans
  {
    spans != [] && WriteSpan(cfg, s, spans[0], data).Ok? ==>
      && SpanFine(cfg, s, spans[0], data, v)
      && AllFine(cfg, Run(s, WriteSpan(cfg, s, spans[0], data).value), spans[1..], data,
                 WrittenOver(v, start, SpanData(spans[0], data)), start + spans[0].len)
  }

  /** The spans written so far have replaced their bytes and nothing else, or some chunk is spoilt. */
  ghost predicate FineOrSpoilt(cfg: Config, s: State, spans: seq<Span>, start: nat, requestOffset: nat, data: seq<byte>,
        v: Cells)
  {
    && AllWithin(spans, data)
    && var n, s' := Written(cfg, s, spans, data), Run(s, WriteSpans(cfg, s, spans, data).trace);
    && start + n <= |v| && requestOffset + n <= |data|
    && var v' := Put(v, start, data[requestOffset..requestOffset + n]);
    if AllFine(cfg, s, spans, data, v, start) then Represents(cfg, s', v') else exists c :: Spoilt(cfg, s', v', c)
  }

  lemma {:induction false} SpansExact(cfg: Config, s: State, spans: seq<Span>, start: nat, len: nat, requestOffset: nat,
        data: seq<byte>, v: Cells)
    requires Represents(cfg, s, v) && ClockAhead(s) && Aimed(cfg, spans, start, len, requestOffset, data, v)
    ensures FineOrSpoilt(cfg, s, spans, start, requestOffset, data, v)
    decreases |spans|
  {
    hide Represents, Aimed, FineOrSpoilt, WriteSpan, Run, PutFirst, AllWithin, WriteSpans, Written, AfterFirst,
         SpanFine, Spoilt, ClockAhead;
    AimedWithin(cfg, spans, start, len, requestOffset, data, v);
    if spans == [] || WriteSpan(cfg, s, spans[0], data).Err? {
      FineNone(cfg, s, spans, start, len, requestOffset, data, v);
    } else {
      AimedParts(cfg, spans, start, len, requestOffset, data, v);
      var t := WriteSpan(cfg, s, spans[0], data).value;
      FirstDecides(cfg, s, spans, start, len, requestOffset, data, v);
      if SpanFine(cfg, s, spans[0], data, v) {
        ClockAheadRun(s, t);
        SpansExact(cfg, Run(s, t), spans[1..], start + spans[0].len, len - spans[0].len, requestOffset + spans[0].len,
                   data, PutFirst(v, start, spans, requestOffset, data));
        FineLater(cfg, s, spans, start, len, requestOffset, data, v);
      } else {
        SpoiltStays(cfg, s, spans, start, len, requestOffset, data, v);
      }
    }
  }

  lemma FirstDecides(cfg: Config, s: State, spans: seq<Span>, start: nat, len: nat, requestOffset: nat, data: seq<byte>,
        v: Cells)
    requires Represents(cfg, s, v) && ClockAhead(s) && Aimed(cfg, spans, start, len, requestOffset, data, v)
    requires spans != [] && Within(spans[0], data) && WriteSpan(cfg, s, spans[0], data).Ok?
    ensures start + spans[0].len <= |v| && requestOffset + spans[0].len <= |data|
    ensures var s1 := Run(s, WriteSpan(cfg, s, spans[0], data).value);
            var v1 := PutFirst(v, start, spans, requestOffset, data);
            if SpanFine(cfg, s, spans[0], data, v) then Represents(cfg, s1, v1)
            else Spoilt(cfg, s1, v1, spans[0].chunkId)
  {
    hide Represents, Aimed, WriteSpan, Run, Put, Spoilt, ClockAhead, RoomEnough, FreshEnough, NewPart, Look, Part;
    AimedParts(cfg, spans, start, len, requestOffset, data, v);
    SpanExact(cfg, s, spans[0], start, data, v);
    if !SpanFine(cfg, s, spans[0], data, v) {
      SpanSpoils(cfg, s, spans[0], start, data, v);
    }
  }

  lemma FineNone(cfg: Config, s: State, spans: seq<Span>, start: nat, len: nat, requestOffset: nat, data: seq<byte>,
        v: Cells)
    requires Represents(cfg, s, v) && Aimed(cfg, spans, start, len, requestOffset, data, v)
    requires spans == [] || (Within(spans[0], data) && WriteSpan(cfg, s, spans[0], data).Err?)
    ensures FineOrSpoilt(cfg, s, spans, start, requestOffset, data, v)
  {
    hide Represents, WriteSpan, Put, Covers;
    PutNone(v, start, data, requestOffset);
  }

  lemma AllFineUnfold(cfg: Config, s: State, spans: seq<Span>, data: seq<byte>, v: Cells, start: nat)
    requires AllWithin(spans, data) && spans != [] && WriteSpan(cfg, s, spans[0], data).Ok?
    requires start + spans[0].len <= |v|
    ensures AllWithin(spans[1..], data)
    ensures AllFine(cfg, s, spans, data, v, start) <==>
              && SpanFine(cfg, s, spans[0], data, v)
              && AllFine(cfg, Run(s, WriteSpan(cfg, s, spans[0], data).value), spans[1..], data,
                         Put(v, start, SpanData(spans[0], data)), start + spans[0].len)
  {
    hide WriteSpan, Run, SpanFine, Put;
    assert forall i :: 0 <= i < |spans[1..]| ==> spans[1..][i] == spans[i + 1];
  }

  lemma FineLater(cfg: Config, s: State, spans: seq<Span>, start: nat, len: nat, requestOffset: nat, data: seq<byte>,
        v: Cells)
    requires Aimed(cfg, spans, start, len, requestOffset, data, v) && AllWithin(spans, data)
    requires spans != [] && WriteSpan(cfg, s, spans[0], data).Ok? && SpanFine(cfg, s, spans[0], data, v)
    requires start + spans[0].len <= |v| && requestOffset + spans[0].len <= |data|
    requires FineOrSpoilt(cfg, Run(s, WriteSpan(cfg, s, spans[0], data).value), spans[1..], start + spans[0].len,
                          requestOffset + spans[0].len, data, PutFirst(v, start, spans, requestOffset, data))
    ensures FineOrSpoilt(cfg, s, spans, start, requestOffset, data, v)
  {
    hide Aimed, WriteSpan, Run, Represents, Spoilt, Put, WriteSpans, Written, AllFine, SpanFine;
    AimedParts(cfg, spans, start, len, requestOffset, data, v);
    UnfoldRequest(cfg, s, spans, data, 0);
    AllFineUnfold(cfg, s, spans, data, v, start);
    var s1 := AfterFirst(cfg, s, spans, data);
    var n := Written(cfg, s1, spans[1..], data);
    RunConcat(s, WriteSpan(cfg, s, spans[0], data).value, WriteSpans(cfg, s1, spans[1..], data).trace);
    PutSized(v, start, SpanData(spans[0], data));
    PutConcat(v, start, data, requestOffset, spans[0].len, n);
  }

  /** The first span was unsafe: the rest of the request leaves its chunk as it is. */
  lemma SpoiltStays(cfg: Config, s: State, spans: seq<Span>, start: nat, len: nat, requestOffset: nat, data: seq<byte>,
        v: Cells)
    requires Aimed(cfg, spans, start, len, requestOffset, data, v) && AllWithin(spans, data)
    requires spans != [] && WriteSpan(cfg, s, spans[0], data).Ok? && !SpanFine(cfg, s, spans[0], data, v)
    requires start + spans[0].len <= |v| && requestOffset + spans[0].len <= |data|
    requires Spoilt(cfg, Run(s, WriteSpan(cfg, s, spans[0], data).value),
                    PutFirst(v, start, spans, requestOffset, data), spans[0].chunkId)
    ensures FineOrSpoilt(cfg, s, spans, start, requestOffset, data, v)
  {
    hide Aimed, WriteSpan, Run, Represents, Put, WriteSpans, Written, AllFine, SpanFine, Look, IsDirtyAt, SlotSettled,
         Part;
    AimedParts(cfg, spans, start, len, requestOffset, data, v);
    UnfoldRequest(cfg, s, spans, data, 0);
    AllFineUnfold(cfg, s, spans, data, v, start);
    var c, s1 := spans[0].chunkId, AfterFirst(cfg, s, spans, data);
    var v1 := PutFirst(v, start, spans, requestOffset, data);
    RestSpares(cfg, s1, spans[1..], start + spans[0].len, len - spans[0].len, requestOffset + spans[0].len, data, v1,
               c);
    var n := Written(cfg, s1, spans[1..], data);
    RunConcat(s, WriteSpan(cfg, s, spans[0], data).value, WriteSpans(cfg, s1, spans[1..], data).trace);
    PutSized(v, start, SpanData(spans[0], data));
    PutConcat(v, start, data, requestOffset, spans[0].len, n);
    assert Spoilt(cfg, Run(s, WriteSpans(cfg, s, spans, data).trace),
                  Put(v, start, data[requestOffset..requestOffset + (spans[0].len + n)]), c);
  }

  lemma SpoiltByNoEviction(cfg: Config, s: State, v: Cells, c: nat)
    requires Spoilt(cfg, s, v, c)
    ensures !Represents(cfg, Run(s, Evict(cfg, s)), v)
  {
    hide Run, Evict, Look;
    EvictSpares(cfg, s, c);
    StillDirty(s, Evict(cfg, s), c);
    SpoiltShows(cfg, Run(s, Evict(cfg, s)), v, c);
  }

  /**
   * `write_at`, exactly: when it returns, successful or not, the volume has exactly the acknowledged
   * prefix of the range replaced, now and after any crash or eviction, if and only if every span it
   * wrote was safe in the state that it found.
   */
  lemma WriteExact(cfg: Config, s: State, offset: nat, data: seq<byte>, v: Cells)
    requires Represents(cfg, s, v) && ClockAhead(s) && Spans(offset, |data|, cfg.geo).Ok?
    ensures AllWithin(Spans(offset, |data|, cfg.geo).value, data)
    ensures Acknowledged(cfg, s, offset, data) <= |data| && offset + |data| <= |v|
    ensures Represents(cfg, Run(s, Write(cfg, s, offset, data).trace),
                       Put(v, offset, data[..Acknowledged(cfg, s, offset, data)]))
            <==> AllFine(cfg, s, Spans(offset, |data|, cfg.geo).value, data, v, offset)
  {
    hide Represents, Run, WriteSpans, Written, AllFine, Put, Spoilt, Evict, ClockAhead, Covers, Pieces;
    var spans := Spans(offset, |data|, cfg.geo).value;
    RepresentsSize(cfg, s, v);
    SpansWithin(offset, data, cfg.geo);
    SpansCover(offset, |data|, cfg.geo);
    SpansDistinct(offset, |data|, cfg.geo);
    SpansExact(cfg, s, spans, offset, |data|, 0, data, v);
    WrittenBound(cfg, s, spans, offset, |data|, 0, data);
    var w, n := WriteSpans(cfg, s, spans, data), Written(cfg, s, spans, data);
    assert data[0..0 + n] == data[..n];
    RunConcat(s, w.trace, Evict(cfg, Run(s, w.trace)));
    if AllFine(cfg, s, spans, data, v, offset) {
      EvictTransparent(cfg, Run(s, w.trace), Put(v, offset, data[..n]));
    } else {
      var c :| Spoilt(cfg, Run(s, w.trace), Put(v, offset, data[..n]), c);
      SpoiltShows(cfg, Run(s, w.trace), Put(v, offset, data[..n]), c);
      SpoiltByNoEviction(cfg, Run(s, w.trace), Put(v, offset, data[..n]), c);
    }
  }
}
