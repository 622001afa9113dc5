/**
 * Generations and transaction ids stay within the range that SQLite and the journal text can hold,
 * for as many further span writes as there is headroom.
 */
module Headroom {
  import opened Wrappers
  import opened Mapper
  import opened Metadata
  import opened Store
  import opened Operations
  import opened Guards

  const I64_MAX: nat := 0x7FFF_FFFF_FFFF_FFFF

  /** Every generation in the table leaves room for n more. */
  predicate RowsBelow(rows: Table, n: nat) {
    forall c :: c in rows ==> c <= U64_MAX && rows[c].localGen.GetOr(0) + n <= I64_MAX
  }

  predicate HasHeadroom(s: State, n: nat) {
    s.nextTxid + n <= I64_MAX && RowsBelow(s.rows, n)
  }

  /** No effect of t writes a larger generation or starts a transaction. */
  predicate Modest(t: seq<Effect>, n: nat) {
    forall i :: 0 <= i < |t| ==>
      && (t[i].Upsert? ==> t[i].c <= U64_MAX && t[i].row.localGen.GetOr(0) + n <= I64_MAX)
      && (t[i].Append? ==> !t[i].event.WriteBegin?)
  }

  lemma {:induction false} ModestKeeps(s: State, t: seq<Effect>, n: nat)
    requires HasHeadroom(s, n) && Modest(t, n)
    ensures HasHeadroom(Run(s, t), n)
    decreases t
  {
    if t != [] {
      assert forall i :: 0 <= i < |t[1..]| ==> t[1..][i] == t[i + 1];
      ModestKeeps(Apply(s, t[0]), t[1..], n);
    }
  }

  lemma {:induction false} EvictListModest(cfg: Config, s: State, list: seq<nat>, cached: nat, n: nat)
    requires (forall c :: c in list ==> c in s.rows) && HasHeadroom(s, n)
    ensures Modest(EvictList(cfg, s, list, cached), n)
    decreases list
  {
    if list != [] && cached > cfg.low {
      var one := EvictOne(s, list[0]);
      assert Modest(one, n);
      ModestKeeps(s, one, n);
      EvictListModest(cfg, Run(s, one), list[1..], SaturatingSub(cached, s.rows[list[0]].size), n);
    }
  }

  lemma EvictModest(cfg: Config, s: State, n: nat)
    requires HasHeadroom(s, n)
    ensures Modest(Evict(cfg, s), n)
  {
    if CachedBytes(s.rows) > cfg.cacheMax {
      EvictListModest(cfg, s, EvictableCleanChunks(s.rows), CachedBytes(s.rows), n);
    }
  }

  lemma EnsureModest(cfg: Config, s: State, c: nat, n: nat)
    requires HasHeadroom(s, n) && Ensure(cfg, s, c).Ok? && c <= U64_MAX
    ensures Modest(Ensure(cfg, s, c).value, n)
  {
    hide Run, Evict;
    if !Resident(s, c) {
      var t := FetchTrace(cfg, s, c, Fetch(cfg, s, c).value);
      assert Modest(t, n);
      ModestKeeps(s, t, n);
      EvictModest(cfg, Run(s, t), n);
    }
  }

  lemma PrepareHeadroom(cfg: Config, s: State, sp: Span, n: nat)
    requires HasHeadroom(s, n) && Prepare(cfg, s, sp).Ok? && sp.chunkId <= U64_MAX
    ensures HasHeadroom(Run(s, Prepare(cfg, s, sp).value), n)
  {
    if IsFull(cfg, sp) {
      assert Modest(Prepare(cfg, s, sp).value, n);
    } else {
      EnsureModest(cfg, s, sp.chunkId, n);
    }
    ModestKeeps(s, Prepare(cfg, s, sp).value, n);
  }

  lemma GenBelow(s: State, c: nat, n: nat)
    requires HasHeadroom(s, n)
    ensures Look(s, c).Gen() + n <= I64_MAX
  {
  }

  lemma CommitTxid(cfg: Config, s: State, sp: Span, data: seq<byte>)
    requires |data| == sp.len
    ensures Run(s, Commit(cfg, s, sp, data)).nextTxid == s.nextTxid + 1
  {
    var t := Commit(cfg, s, sp, data);
    hide Run, Overwrite;
    RunFour(s, t[0], t[1], t[2], t[3]);
    assert t == [t[0], t[1], t[2], t[3]];
  }

  /** Writing one span uses up one step of the headroom. */
  lemma SpanHeadroom(cfg: Config, s: State, sp: Span, data: seq<byte>, n: nat)
    requires HasHeadroom(s, n + 1) && Within(sp, data) && WriteSpan(cfg, s, sp, data).Ok? && sp.chunkId <= U64_MAX
    ensures HasHeadroom(Run(s, WriteSpan(cfg, s, sp, data).value), n)
  {
    hide Prepare, Run, Commit, Look;
    var s1 := Run(s, Prepare(cfg, s, sp).value);
    PrepareHeadroom(cfg, s, sp, n + 1);
    CommitRows(cfg, s1, sp, SpanData(sp, data));
    CommitTxid(cfg, s1, sp, SpanData(sp, data));
    GenBelow(s1, sp.chunkId, n + 1);
    RunConcat(s, Prepare(cfg, s, sp).value, Commit(cfg, s1, sp, SpanData(sp, data)));
  }

  /** No more spans than bytes, each with u64 fields. */
  lemma {:induction false} SpansSmall(spans: seq<Span>, start: nat, len: nat, g: Geometry, at: nat)
    requires g.Valid() && Covers(spans, start, len, g, at) && start + len <= g.volume
    ensures |spans| <= len
    ensures forall i :: 0 <= i < |spans| ==>
              spans[i].chunkId <= U64_MAX && spans[i].offsetInChunk <= U64_MAX && spans[i].len <= U64_MAX
    decreases spans
  {
    if spans != [] {
      var sp := spans[0];
      SpansSmall(spans[1..], start + sp.len, len - sp.len, g, at + sp.len);
      StartAtLeast(g, sp.chunkId);
      assert forall i :: 0 < i < |spans| ==> spans[i] == spans[1..][i - 1];
    }
  }

  lemma {:induction false} StartAtLeast(g: Geometry, c: nat)
    requires g.chunk > 0
    ensures g.Start(c) >= c
  {
    if c > 0 {
      StartAtLeast(g, c - 1);
    }
  }

  lemma LessHeadroom(s: State, n: nat, m: nat)
    requires HasHeadroom(s, n) && m <= n
    ensures HasHeadroom(s, m)
  {
  }

  lemma {:induction false} WriteSpansHeadroom(cfg: Config, s: State, spans: seq<Span>, data: seq<byte>, n: nat)
    requires AllWithin(spans, data) && HasHeadroom(s, |spans| + n)
    requires forall i :: 0 <= i < |spans| ==> spans[i].chunkId <= U64_MAX
    ensures HasHeadroom(Run(s, WriteSpans(cfg, s, spans, data).trace), n)
    decreases |spans|
  {
    hide WriteSpan, HasHeadroom, Run;
    if spans == [] || WriteSpan(cfg, s, spans[0], data).Err? {
      RunNone(s);
      LessHeadroom(s, |spans| + n, n);
    } else {
      var one := WriteSpan(cfg, s, spans[0], data).value;
      SpanHeadroom(cfg, s, spans[0], data, |spans[1..]| + n);
      WriteSpansHeadroom(cfg, Run(s, one), spans[1..], data, n);
      RunConcat(s, one, WriteSpans(cfg, Run(s, one), spans[1..], data).trace);
    }
  }

  lemma RunNone(s: State)
    ensures Run(s, []) == s
  {
  }

  /** A write of m bytes uses up no more than m steps of the headroom. */
  lemma WriteHeadroom(cfg: Config, s: State, offset: nat, data: seq<byte>)
    requires cfg.Valid()
    ensures forall n: nat :: HasHeadroom(s, |data| + n) ==> HasHeadroom(Run(s, Write(cfg, s, offset, data).trace), n)
  {
    forall n: nat | HasHeadroom(s, |data| + n)
      ensures HasHeadroom(Run(s, Write(cfg, s, offset, data).trace), n)
    {
      WriteHeadroomBy(cfg, s, offset, data, n);
    }
  }

  lemma WriteHeadroomBy(cfg: Config, s: State, offset: nat, data: seq<byte>, n: nat)
    requires cfg.Valid() && HasHeadroom(s, |data| + n)
    ensures HasHeadroom(Run(s, Write(cfg, s, offset, data).trace), n)
  {
    hide HasHeadroom, Run, WriteSpans, Evict, Covers;
    var r := Spans(offset, |data|, cfg.geo);
    if r.Err? {
      RunNone(s);
      LessHeadroom(s, |data| + n, n);
    } else {
      SpansWithin(offset, data, cfg.geo);
      SpansCover(offset, |data|, cfg.geo);
      SpansSmall(r.value, offset, |data|, cfg.geo, 0);
      LessHeadroom(s, |data| + n, |r.value| + n);
      WriteSpansHeadroom(cfg, s, r.value, data, n);
      var w := WriteSpans(cfg, s, r.value, data);
      EvictModest(cfg, Run(s, w.trace), n);
      ModestKeeps(Run(s, w.trace), Evict(cfg, Run(s, w.trace)), n);
      RunConcat(s, w.trace, Evict(cfg, Run(s, w.trace)));
    }
  }

  lemma TouchModest(s: State, c: nat, n: nat)
    requires HasHeadroom(s, n)
    ensures Modest(Touch(s, c), n)
  {
  }

  lemma {:induction false} ReadSpansHeadroom(cfg: Config, s: State, spans: seq<Span>, n: nat)
    requires HasHeadroom(s, n) && forall i :: 0 <= i < |spans| ==> spans[i].chunkId <= U64_MAX
    ensures HasHeadroom(Run(s, ReadSpans(cfg, s, spans).trace), n)
    decreases spans
  {
    hide HasHeadroom, Run, Ensure, Touch, Modest;
    if spans != [] && Ensure(cfg, s, spans[0].chunkId).Ok? {
      var c, t := spans[0].chunkId, Ensure(cfg, s, spans[0].chunkId).value;
      EnsureModest(cfg, s, c, n);
      ModestKeeps(s, t, n);
      TouchModest(Run(s, t), c, n);
      ModestKeeps(Run(s, t), Touch(Run(s, t), c), n);
      RunConcat(s, t, Touch(Run(s, t), c));
      ReadSpansHeadroom(cfg, Run(s, t + Touch(Run(s, t), c)), spans[1..], n);
      RunConcat(s, t + Touch(Run(s, t), c), ReadSpans(cfg, Run(s, t + Touch(Run(s, t), c)), spans[1..]).trace);
    } else {
      RunNone(s);
    }
  }

  lemma ReadHeadroom(cfg: Config, s: State, offset: nat, len: nat, n: nat)
    requires cfg.Valid() && HasHeadroom(s, n)
    ensures HasHeadroom(Run(s, Read(cfg, s, offset, len).trace), n)
  {
    hide HasHeadroom, Run, ReadSpans, Covers;
    if Spans(offset, len, cfg.geo).Err? {
      RunNone(s);
    } else {
      SpansCover(offset, len, cfg.geo);
      SpansSmall(Spans(offset, len, cfg.geo).value, offset, len, cfg.geo, 0);
      ReadSpansHeadroom(cfg, s, Spans(offset, len, cfg.geo).value, n);
    }
  }
}
