/**
 * What `write_at` leaves of the spans it wrote, in every state whatever: their records, their rows, their
 * bytes, and the order in which they will be uploaded.
 */
module Records {
  import opened Wrappers
  import opened Mapper
  import opened Metadata
  import opened Wal
  import opened Store
  import opened Operations
  import opened Recovery
  import opened Writing
  import opened Guards
  import opened Loops
  import opened CacheLimit
  import opened Serving
  import opened Success

  /** The generation that a write of the span starts from: none is known of a chunk that has to be fetched. */
  function StartsFrom(cfg: Config, s: State, sp: Span): nat {
    if (Whole(cfg, sp) || Held(s, sp.chunkId)) && sp.chunkId in s.rows then s.rows[sp.chunkId].localGen.GetOr(0) else 0
  }

  /** The span's bytes are in its chunk's file, the row is Dirty with the new generation, and not yet uploaded. */
  predicate WasWritten(cfg: Config, s: State, s': State, sp: Span, data: seq<byte>, generation: nat)
    requires Within(sp, data)
  {
    var c, n := sp.chunkId, cfg.geo.ChunkLen(sp.chunkId);
    && c in s'.rows && c in s'.files
    && (sp.offsetInChunk + sp.len <= n ==>
          |s'.files[c]| == n
          && s'.files[c][sp.offsetInChunk..sp.offsetInChunk + sp.len]
              == data[sp.requestOffset..sp.requestOffset + sp.len])
    && var m := s'.rows[c];
    && m == Meta(true, Dirty, n, None, Some(generation), None, m.lastAccess, m.dirtySince, 0)
    && m.dirtySince.Some? && s.clock <= m.lastAccess < m.dirtySince.value < s'.clock
  }

  /** The two records of a write: that it begins, and that it is in the file. */
  predicate AreRecordsOf(cfg: Config, s: State, sp: Span, txid: nat, begin: Event, end: Event) {
    var g := StartsFrom(cfg, s, sp);
    && begin == WriteBegin(txid, sp.chunkId, sp.offsetInChunk, sp.len, g, g + 1)
    && end == LocalCommitted(txid, sp.chunkId, g + 1)
  }

  // ---------------------------------------------------------------- one span

  lemma CommitExactly(cfg: Config, s: State, sp: Span, data: seq<byte>)
    requires Within(sp, data)
    ensures var s' := Run(s, Commit(cfg, s, sp, SpanData(sp, data)));
            var g := Look(s, sp.chunkId).Gen();
            && s'.journal == s.journal + [WriteBegin(s.nextTxid, sp.chunkId, sp.offsetInChunk, sp.len, g, g + 1),
                                          LocalCommitted(s.nextTxid, sp.chunkId, g + 1)]
            && s'.nextTxid == s.nextTxid + 1
            && WasWritten(cfg, s, s', sp, data, g + 1)
  {
    hide Run;
    CommitRuns(cfg, s, sp, SpanData(sp, data), Look(s, sp.chunkId).Gen());
    var n := cfg.geo.ChunkLen(sp.chunkId);
    var was := FileOf(s, sp.chunkId).GetOr([]);
    if sp.offsetInChunk + sp.len <= n {
      OverwritePuts(was, sp.offsetInChunk, SpanData(sp, data), n);
    }
  }

  lemma OverwritePuts(was: seq<byte>, offset: nat, data: seq<byte>, n: nat)
    requires offset + |data| <= n
    ensures Overwrite(was, offset, data, n)[offset..offset + |data|] == data
  {
    var part := Overwrite(was, offset, data, n)[offset..offset + |data|];
    forall i | 0 <= i < |data|
      ensures part[i] == data[i]
    {
      assert part[i] == Overwrite(was, offset, data, n)[offset + i];
    }
  }

  lemma PreparedGen(cfg: Config, s: State, sp: Span)
    requires cfg.Valid() && Prepare(cfg, s, sp).Ok?
    ensures var s1 := Run(s, Prepare(cfg, s, sp).value);
            && Look(s1, sp.chunkId).Gen() == StartsFrom(cfg, s, sp)
            && s1.journal == s.journal && s1.nextTxid == s.nextTxid && s.clock <= s1.clock
  {
    hide Run, Ensure, EvictedExactly, Look;
    var s1 := Run(s, Prepare(cfg, s, sp).value);
    LookRow(s1, sp.chunkId);
    if IsFull(cfg, sp) {
      RunTwo(s, PutFile(sp.chunkId, []), SetLen(sp.chunkId, cfg.geo.ChunkLen(sp.chunkId)));
    } else {
      EnsuresExactly(cfg, s, sp.chunkId);
      if !Held(s, sp.chunkId) {
        FetchedFromZero(cfg, s, s1, sp.chunkId);
      }
    }
  }

  lemma FetchedFromZero(cfg: Config, s: State, s': State, c: nat)
    requires WasFetched(cfg, s, s', c)
    ensures c in s'.rows && s'.rows[c].localGen == None && CacheOnly(s, s')
  {
    hide WithinLimit, CachedBytes, UsedBefore;
    var data := Obtained(cfg, s, c);
    var row := Meta(true, Clean, cfg.geo.ChunkLen(c), None, None, Some(cfg.digest(data)), s.clock, None, 0);
    var s1 := s.(files := s.files[c := data], rows := s.rows[c := row], clock := s.clock + 1);
    if c !in Gone(s1, s') {
      assert WasKept(s1, s', c);
      SameRow(s1, s', c);
    }
  }

  lemma LaterWritten(cfg: Config, s: State, s1: State, s': State, sp: Span, data: seq<byte>, generation: nat)
    requires Within(sp, data) && WasWritten(cfg, s1, s', sp, data, generation) && s.clock <= s1.clock
    ensures WasWritten(cfg, s, s', sp, data, generation)
  {
  }

  /** One span that is written. */
  lemma SpanExactly(cfg: Config, s: State, sp: Span, data: seq<byte>)
    requires cfg.Valid() && Within(sp, data) && WriteSpan(cfg, s, sp, data).Ok?
    ensures var s' := Run(s, WriteSpan(cfg, s, sp, data).value);
            && s'.nextTxid == s.nextTxid + 1
            && |s'.journal| == |s.journal| + 2 && s'.journal[..|s.journal|] == s.journal
            && AreRecordsOf(cfg, s, sp, s.nextTxid, s'.journal[|s.journal|], s'.journal[|s.journal| + 1])
            && WasWritten(cfg, s, s', sp, data, StartsFrom(cfg, s, sp) + 1)
            && s.clock <= s'.clock
  {
    hide Run, Prepare, Commit, Look, WasWritten;
    WriteSpanIs(cfg, s, sp, data);
    PreparedGen(cfg, s, sp);
    var a := Prepare(cfg, s, sp).value;
    var s1 := Run(s, a);
    CommitExactly(cfg, s1, sp, data);
    RunConcat(s, a, Commit(cfg, s1, sp, SpanData(sp, data)));
    LaterWritten(cfg, s, s1, Run(s1, Commit(cfg, s1, sp, SpanData(sp, data))), sp, data, StartsFrom(cfg, s, sp) + 1);
  }

  // ---------------------------------------------------------------- span after span

  /** Each of the first k spans left its two records, in order, with the next txids. */
  ghost predicate RecordsFirst(cfg: Config, s: State, s': State, spans: seq<Span>, data: seq<byte>, k: nat)
    requires AllWithin(spans, data) && k <= |spans|
  {
    var n := |s.journal|;
    && |s'.journal| == n + 2 * k && s'.journal[..n] == s.journal && s'.nextTxid == s.nextTxid + k
    && forall i :: 0 <= i < k ==>
         AreRecordsOf(cfg, Turn(cfg, s, spans, data, i), spans[i], s.nextTxid + i, s'.journal[n + 2 * i],
                      s'.journal[n + 2 * i + 1])
  }

  /** They are Dirty, the earlier ones since longer, and no other chunk did more than get evicted. */
  ghost predicate RowsFirst(cfg: Config, s: State, s': State, spans: seq<Span>, data: seq<byte>, k: nat)
    requires AllWithin(spans, data) && k <= |spans|
  {
    && (forall i :: 0 <= i < k ==>
          WasWritten(cfg, s, s', spans[i], data, StartsFrom(cfg, Turn(cfg, s, spans, data, i), spans[i]) + 1))
    && (forall i, j :: 0 <= i < j < k ==> SinceBefore(s', spans[i].chunkId, spans[j].chunkId))
    && (forall d: nat :: (forall i :: 0 <= i < k ==> spans[i].chunkId != d) ==> LeftAlone(s, s', d))
  }

  /** Both are dirty since some time, and c since an earlier one. */
  predicate SinceBefore(s: State, c: nat, d: nat) {
    && c in s.rows && d in s.rows && s.rows[c].dirtySince.Some? && s.rows[d].dirtySince.Some?
    && s.rows[c].dirtySince.value < s.rows[d].dirtySince.value
  }

  lemma RecordsMore(cfg: Config, s: State, s1: State, s': State, spans: seq<Span>, data: seq<byte>, k: nat)
    requires cfg.Valid() && AllWithin(spans, data) && spans != [] && WriteSpan(cfg, s, spans[0], data).Ok?
    requires s1 == Run(s, WriteSpan(cfg, s, spans[0], data).value) && AllWithin(spans[1..], data) && k < |spans|
    requires RecordsFirst(cfg, s1, s', spans[1..], data, k)
    ensures RecordsFirst(cfg, s, s', spans, data, k + 1)
  {
    hide Turn, Run, WriteSpan, AreRecordsOf, WasWritten;
    var n := |s.journal|;
    SpanExactly(cfg, s, spans[0], data);
    FirstTurn(cfg, s, spans, data);
    assert s'.journal[..n] == s'.journal[..n + 2][..n];
    assert s'.journal[n] == s'.journal[..n + 2][n] && s'.journal[n + 1] == s'.journal[..n + 2][n + 1];
    forall i | 0 < i < k + 1
      ensures AreRecordsOf(cfg, Turn(cfg, s, spans, data, i), spans[i], s.nextTxid + i, s'.journal[n + 2 * i],
                           s'.journal[n + 2 * i + 1])
    {
      NextTurn(cfg, s, spans, data, i);
      assert spans[i] == spans[1..][i - 1];
      assert AreRecordsOf(cfg, Turn(cfg, s1, spans[1..], data, i - 1), spans[1..][i - 1], s1.nextTxid + (i - 1),
                          s'.journal[n + 2 + 2 * (i - 1)], s'.journal[n + 2 + 2 * (i - 1) + 1]);
    }
  }

  lemma LeftAloneTrans(a: State, b: State, c: State, d: nat)
    requires LeftAlone(a, b, d) && LeftAlone(b, c, d) && a.clock <= b.clock
    ensures LeftAlone(a, c, d)
  {
    if WasKept(a, b, d) {
      SameRow(a, b, d);
    } else if WasKept(b, c, d) {
      SameRow(b, c, d);
    }
  }

  /** What was written stays so while the chunk is left alone: a Dirty chunk is not evicted. */
  lemma WrittenStays(cfg: Config, s: State, s1: State, s': State, sp: Span, data: seq<byte>, generation: nat)
    requires Within(sp, data) && WasWritten(cfg, s, s1, sp, data, generation) && LeftAlone(s1, s', sp.chunkId)
    requires s1.clock <= s'.clock
    ensures WasWritten(cfg, s, s', sp, data, generation)
    ensures s'.rows[sp.chunkId] == s1.rows[sp.chunkId] && s'.rows[sp.chunkId].dirtySince.value < s1.clock
  {
    SameRow(s1, s', sp.chunkId);
  }

  lemma WrittenSince(cfg: Config, s: State, s': State, sp: Span, data: seq<byte>, generation: nat)
    requires Within(sp, data) && WasWritten(cfg, s, s', sp, data, generation)
    ensures sp.chunkId in s'.rows && s'.rows[sp.chunkId].dirtySince.Some?
    ensures s.clock < s'.rows[sp.chunkId].dirtySince.value
  {
  }

  lemma RowsMore(cfg: Config, s: State, s1: State, s': State, spans: seq<Span>, data: seq<byte>, k: nat)
    requires cfg.Valid() && AllWithin(spans, data) && spans != [] && WriteSpan(cfg, s, spans[0], data).Ok?
    requires s1 == Run(s, WriteSpan(cfg, s, spans[0], data).value) && AllWithin(spans[1..], data) && k < |spans|
    requires DistinctChunks(spans) && s1.clock <= s'.clock
    requires RowsFirst(cfg, s1, s', spans[1..], data, k)
    ensures RowsFirst(cfg, s, s', spans, data, k + 1)
  {
    hide Turn, Run, WriteSpan, AreRecordsOf, WasWritten, LeftAlone, StartsFrom;
    var c, g := spans[0].chunkId, StartsFrom(cfg, s, spans[0]) + 1;
    SpanExactly(cfg, s, spans[0], data);
    FirstTurn(cfg, s, spans, data);
    assert forall i :: 0 <= i < k ==> spans[1..][i] == spans[i + 1];
    assert LeftAlone(s1, s', c);
    WrittenStays(cfg, s, s1, s', spans[0], data, g);
    forall i | 0 < i < k + 1
      ensures WasWritten(cfg, s, s', spans[i], data, StartsFrom(cfg, Turn(cfg, s, spans, data, i), spans[i]) + 1)
      ensures SinceBefore(s', c, spans[i].chunkId)
    {
      NextTurn(cfg, s, spans, data, i);
      assert spans[i] == spans[1..][i - 1];
      var gi := StartsFrom(cfg, Turn(cfg, s1, spans[1..], data, i - 1), spans[1..][i - 1]) + 1;
      assert WasWritten(cfg, s1, s', spans[1..][i - 1], data, gi);
      WrittenSince(cfg, s1, s', spans[i], data, gi);
      LaterWritten(cfg, s, s1, s', spans[i], data, gi);
      WrittenSince(cfg, s, s1, spans[0], data, g);
    }
    forall i, j | 0 <= i < j < k + 1
      ensures SinceBefore(s', spans[i].chunkId, spans[j].chunkId)
    {
      if i > 0 {
        assert SinceBefore(s', spans[1..][i - 1].chunkId, spans[1..][j - 1].chunkId);
      }
    }
    forall d: nat | forall i :: 0 <= i < k + 1 ==> spans[i].chunkId != d
      ensures LeftAlone(s, s', d)
    {
      assert spans[0].chunkId != d;
      SpanLeavesAlone(cfg, s, spans[0], data, d);
      assert forall i :: 0 <= i < k ==> spans[1..][i].chunkId == spans[i + 1].chunkId != d;
      LeftAloneTrans(s, s1, s', d);
    }
  }

  lemma NothingWritten(cfg: Config, s: State, spans: seq<Span>, data: seq<byte>)
    requires AllWithin(spans, data)
    ensures RecordsFirst(cfg, s, s, spans, data, 0) && RowsFirst(cfg, s, s, spans, data, 0)
  {
    hide Turn;
  }

  lemma {:induction false} WriteSpansExactly(cfg: Config, s: State, spans: seq<Span>, data: seq<byte>)
    returns (k: nat)
    requires cfg.Valid() && AllWithin(spans, data) && DistinctChunks(spans)
    ensures StopsAt(cfg, s, spans, data, k, WriteSpans(cfg, s, spans, data).result)
    ensures RecordsFirst(cfg, s, Run(s, WriteSpans(cfg, s, spans, data).trace), spans, data, k)
    ensures RowsFirst(cfg, s, Run(s, WriteSpans(cfg, s, spans, data).trace), spans, data, k)
    decreases |spans|
  {
    hide Run, WriteSpan, Writable, WhyRefused, RecordsFirst, RowsFirst, Turn, StopsAt;
    k := 0;
    RunNothing(s);
    NothingWritten(cfg, s, spans, data);
    if spans == [] || WriteSpan(cfg, s, spans[0], data).Err? {
      StopsHere(cfg, s, spans, data);
    } else {
      SpanSucceeds(cfg, s, spans[0], data);
      var t := WriteSpan(cfg, s, spans[0], data).value;
      var s1 := Run(s, t);
      assert AllWithin(spans[1..], data) && DistinctChunks(spans[1..]);
      k := WriteSpansExactly(cfg, s1, spans[1..], data);
      var rest := WriteSpans(cfg, s1, spans[1..], data);
      StopsSome(cfg, s1, spans[1..], data, k, rest.result);
      StopsLater(cfg, s, spans, data, k, rest.result);
      RunConcat(s, t, rest.trace);
      RecordsMore(cfg, s, s1, Run(s1, rest.trace), spans, data, k);
      RowsMore(cfg, s, s1, Run(s1, rest.trace), spans, data, k);
      k := k + 1;
    }
  }

  lemma StopsHere(cfg: Config, s: State, spans: seq<Span>, data: seq<byte>)
    requires cfg.Valid() && AllWithin(spans, data) && (spans == [] || WriteSpan(cfg, s, spans[0], data).Err?)
    ensures StopsAt(cfg, s, spans, data, 0, WriteSpans(cfg, s, spans, data).result)
  {
    hide Run, WriteSpan, Writable, WhyRefused, Turn;
    FirstTurn(cfg, s, spans, data);
    if spans != [] {
      SpanSucceeds(cfg, s, spans[0], data);
    }
  }

  lemma StopsSome(cfg: Config, s: State, spans: seq<Span>, data: seq<byte>, k: nat, r: Result<()>)
    requires AllWithin(spans, data) && StopsAt(cfg, s, spans, data, k, r)
    ensures k <= |spans|
  {
  }

  // ---------------------------------------------------------------- write_at

  /** Bytes before span k of the request, or all of them. */
  function BytesBefore(spans: seq<Span>, k: nat, len: nat): nat { if k < |spans| then spans[k].requestOffset else len }

  lemma {:induction false} WrittenIsBefore(cfg: Config, s: State, spans: seq<Span>, start: nat, len: nat, at: nat,
                                           data: seq<byte>, k: nat)
    requires cfg.Valid() && AllWithin(spans, data) && Covers(spans, start, len, cfg.geo, at)
    requires StopsAt(cfg, s, spans, data, k, WriteSpans(cfg, s, spans, data).result)
    ensures at + Written(cfg, s, spans, data) == BytesBefore(spans, k, at + len)
    decreases |spans|
  {
    hide Run, WriteSpan, Writable, WhyRefused, Turn, Lands;
    if spans != [] {
      FirstTurn(cfg, s, spans, data);
      SpanSucceeds(cfg, s, spans[0], data);
      if WriteSpan(cfg, s, spans[0], data).Ok? {
        var s1 := Run(s, WriteSpan(cfg, s, spans[0], data).value);
        StopsTail(cfg, s, s1, spans, data, k, WriteSpans(cfg, s, spans, data).result);
        WrittenIsBefore(cfg, s1, spans[1..], start + spans[0].len, len - spans[0].len, at + spans[0].len, data, k - 1);
      }
    }
  }

  lemma StopsTail(cfg: Config, s: State, s1: State, spans: seq<Span>, data: seq<byte>, k: nat, r: Result<()>)
    requires AllWithin(spans, data) && spans != [] && Writable(cfg, s, spans[0])
    requires WriteSpan(cfg, s, spans[0], data).Ok?
    requires s1 == Run(s, WriteSpan(cfg, s, spans[0], data).value) && StopsAt(cfg, s, spans, data, k, r)
    ensures k > 0 && AllWithin(spans[1..], data) && StopsAt(cfg, s1, spans[1..], data, k - 1, r)
  {
    hide Run, WriteSpan, Writable, WhyRefused, Turn;
    FirstTurn(cfg, s, spans, data);
    forall i | 0 <= i < k && i < |spans[1..]|
      ensures Turn(cfg, s, spans, data, i + 1) == Turn(cfg, s1, spans[1..], data, i)
      ensures spans[1..][i] == spans[i + 1]
    {
      NextTurn(cfg, s, spans, data, i + 1);
    }
  }

  lemma EvictionKeepsRecords(cfg: Config, s: State, mid: State, s': State, spans: seq<Span>, data: seq<byte>, k: nat)
    requires AllWithin(spans, data) && k <= |spans| && EvictedExactly(cfg, mid, s')
    requires mid.clock <= s'.clock && s.clock <= mid.clock
    requires RecordsFirst(cfg, s, mid, spans, data, k) && RowsFirst(cfg, s, mid, spans, data, k)
    ensures RecordsFirst(cfg, s, s', spans, data, k) && RowsFirst(cfg, s, s', spans, data, k)
  {
    hide Turn, StartsFrom, AreRecordsOf, WasWritten, LeftAlone, EvictedExactly;
    EvictionIsCacheOnly(cfg, mid, s');
    forall d: nat
      ensures LeftAlone(mid, s', d)
    {
      EvictedLeavesAlone(cfg, mid, s', d);
    }
    forall i | 0 <= i < k
      ensures WasWritten(cfg, s, s', spans[i], data, StartsFrom(cfg, Turn(cfg, s, spans, data, i), spans[i]) + 1)
      ensures spans[i].chunkId in s'.rows && spans[i].chunkId in mid.rows
      ensures s'.rows[spans[i].chunkId] == mid.rows[spans[i].chunkId]
    {
      var g := StartsFrom(cfg, Turn(cfg, s, spans, data, i), spans[i]) + 1;
      WrittenSince(cfg, s, mid, spans[i], data, g);
      WrittenStays(cfg, s, mid, s', spans[i], data, g);
    }
    forall i, j | 0 <= i < j < k
      ensures SinceBefore(s', spans[i].chunkId, spans[j].chunkId)
    {
      assert SinceBefore(mid, spans[i].chunkId, spans[j].chunkId);
    }
    forall d: nat | forall i :: 0 <= i < k ==> spans[i].chunkId != d
      ensures LeftAlone(s, s', d)
    {
      LeftAloneTrans(s, mid, s', d);
    }
  }

  lemma EvictionIsCacheOnly(cfg: Config, s: State, s': State)
    requires EvictedExactly(cfg, s, s')
    ensures CacheOnly(s, s') && WithinLimit(cfg, s'.rows)
  {
  }

  /** What `write_at` did from s to s': it wrote the first k spans of the request, and none if the range is wrong. */
  ghost predicate WroteFirst(cfg: Config, s: State, s': State, offset: nat, data: seq<byte>, k: nat, r: Result<()>) {
    var spans := Spans(offset, |data|, cfg.geo);
    if spans.Err? then k == 0 && s' == s
    else
      && k <= |spans.value| && AllWithin(spans.value, data)
      && RecordsFirst(cfg, s, s', spans.value, data, k)
      && RowsFirst(cfg, s, s', spans.value, data, k)
      && Acknowledged(cfg, s, offset, data) == BytesBefore(spans.value, k, |data|)
      && (r.Ok? ==> k == |spans.value| && WithinLimit(cfg, s'.rows))
  }

  /**
   * `write_at`, in every state whatever: each span up to the first that is refused left its two records,
   * with the next txid and the generation after the one it found, its bytes in the file and a Dirty row, to
   * be uploaded in the order of the spans; nothing else changed but that chunks were evicted. If none was
   * refused, the cache is within its limit.
   */
  lemma WritesExactly(cfg: Config, s: State, offset: nat, data: seq<byte>) returns (k: nat)
    requires cfg.Valid()
    ensures WroteFirst(cfg, s, Run(s, Write(cfg, s, offset, data).trace), offset, data, k,
                       Write(cfg, s, offset, data).result)
  {
    hide Run, WriteSpans, StopsAt, RecordsFirst, RowsFirst, Evict, Covers, Pieces, EvictedExactly, Written, WithinLimit;
    RunNothing(s);
    k := 0;
    var r := Spans(offset, |data|, cfg.geo);
    if r.Ok? {
      var spans := r.value;
      SpansCover(offset, |data|, cfg.geo);
      SpansWithin(offset, data, cfg.geo);
      SpansDistinct(offset, |data|, cfg.geo);
      var w := WriteSpans(cfg, s, spans, data);
      var mid := Run(s, w.trace);
      k := WriteSpansExactly(cfg, s, spans, data);
      StopsSome(cfg, s, spans, data, k, w.result);
      WrittenIsBefore(cfg, s, spans, offset, |data|, 0, data, k);
      if w.result.Ok? {
        StopsNowhere(cfg, s, spans, data, k, w.result);
        EvictsExactly(cfg, mid);
        EvictionIsCacheOnly(cfg, mid, Run(mid, Evict(cfg, mid)));
        EvictionKeepsRecords(cfg, s, mid, Run(mid, Evict(cfg, mid)), spans, data, k);
        RunConcat(s, w.trace, Evict(cfg, mid));
      }
    }
  }

  lemma StopsNowhere(cfg: Config, s: State, spans: seq<Span>, data: seq<byte>, k: nat, r: Result<()>)
    requires AllWithin(spans, data) && StopsAt(cfg, s, spans, data, k, r) && r.Ok?
    ensures k == |spans|
  {
  }
}
