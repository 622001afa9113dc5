/** Volume geometry and the splitting of a request into per-chunk spans. */
module Mapper {
  import opened Wrappers

  const U64_MAX: nat := 0xFFFF_FFFF_FFFF_FFFF

  /** The two manifest sizes that fix the layout of a volume. Both are u64 and non-zero. */
  datatype Geometry = Geometry(volume: nat, chunk: nat) {
    predicate Valid() {
      0 < chunk <= U64_MAX && 0 < volume <= U64_MAX
    }

    /** The first byte of chunk c, which is c * chunk (lemma StartIs). */
    function Start(c: nat): nat {
      if c == 0 then 0 else Start(c - 1) + chunk
    }

    function ChunkLen(c: nat): nat {
      Min(SaturatingSub(volume, Start(c)), chunk)
    }

    function TotalChunks(): nat
      requires chunk > 0
    {
      volume / chunk + if volume % chunk == 0 then 0 else 1
    }

    /** Sum of the lengths of chunks 0..n. */
    ghost function LengthUpTo(n: nat): nat {
      if n == 0 then 0 else LengthUpTo(n - 1) + ChunkLen(n - 1)
    }
  }

  datatype Span = Span(chunkId: nat, offsetInChunk: nat, requestOffset: nat, len: nat)

  // ---------------------------------------------------------------- arithmetic

  lemma DivModFacts(x: nat, d: nat)
    requires d > 0
    ensures x == (x / d) * d + x % d && x % d < d
  {
  }

  lemma QuotientUnique(q: nat, r: nat, d: nat)
    requires r < d
    ensures (q * d + r) / d == q && (q * d + r) % d == r
  {
    var x := q * d + r;
    DivModFacts(x, d);
    MulOrder(q, x / d, d);
    MulOrder(x / d, q, d);
  }

  /** Distinct multiples of d are at least d apart. */
  lemma MulOrder(a: nat, b: nat, d: nat)
    ensures a < b ==> a * d + d <= b * d
    ensures a <= b ==> a * d <= b * d
  {
    if a < b {
      var gap := b - a - 1;
      assert gap * d >= 0;
      calc {
        b * d;
        (gap + (a + 1)) * d;
        gap * d + (a + 1) * d;
        gap * d + a * d + d;
      }
    }
  }

  lemma DivDiv(n: nat, a: nat, b: nat)
    requires a > 0 && b > 0
    ensures a * b > 0 && n / (a * b) == n / a / b
  {
    DivModFacts(n, a);
    DivModFacts(n / a, b);
    var q, r, u := n / a / b, n / a % b, n % a;
    assert n == (q * b + r) * a + u;
    assert (q * b + r) * a == q * (a * b) + r * a;
    assert r * a + u < a * b by {
      MulOrder(r, b, a);
      assert b * a == a * b;
    }
    QuotientUnique(q, r * a + u, a * b);
  }

  lemma {:induction false} StartIs(g: Geometry, c: nat)
    ensures g.Start(c) == c * g.chunk
  {
    if c > 0 {
      StartIs(g, c - 1);
      assert c * g.chunk == (c - 1) * g.chunk + g.chunk;
    }
  }

  lemma StartOrder(g: Geometry, a: nat, b: nat)
    ensures a < b ==> g.Start(a) + g.chunk <= g.Start(b)
    ensures a <= b ==> g.Start(a) <= g.Start(b)
  {
    StartIs(g, a);
    StartIs(g, b);
    MulOrder(a, b, g.chunk);
  }

  // ---------------------------------------------------------------- chunk lengths

  /** The chunk lengths partition the volume: the first n chunks hold min(n * chunk, volume) bytes. */
  lemma {:induction false} LengthUpToIs(g: Geometry, n: nat)
    ensures g.LengthUpTo(n) == Min(n * g.chunk, g.volume)
  {
    if n > 0 {
      LengthUpToIs(g, n - 1);
      StartIs(g, n - 1);
      assert n * g.chunk == (n - 1) * g.chunk + g.chunk;
    }
  }

  /** The last chunk starts inside the volume and ends it. */
  lemma TotalChunksBounds(g: Geometry)
    requires g.Valid()
    ensures var n := g.TotalChunks(); n > 0 && g.Start(n - 1) < g.volume <= g.Start(n)
  {
    var q, r := g.volume / g.chunk, g.volume % g.chunk;
    DivModFacts(g.volume, g.chunk);
    StartIs(g, q);
    assert g.volume == g.Start(q) + r && r < g.chunk;
    if r == 0 {
      assert g.TotalChunks() == q;
      assert q != 0;
      assert g.Start(q) == g.Start(q - 1) + g.chunk;
    } else {
      assert g.TotalChunks() == q + 1;
      assert g.Start(q + 1) == g.Start(q) + g.chunk;
    }
  }

  /** All chunks together hold exactly the volume, and every chunk below the total is non-empty. */
  lemma ChunksCoverVolume(g: Geometry)
    requires g.Valid()
    ensures g.LengthUpTo(g.TotalChunks()) == g.volume
    ensures forall c: nat :: c < g.TotalChunks() <==> g.ChunkLen(c) > 0
    ensures forall c: nat {:trigger g.ChunkLen(c)} :: c < g.TotalChunks() ==> g.Start(c) + g.ChunkLen(c) <= g.volume
  {
    var n := g.TotalChunks();
    TotalChunksBounds(g);
    StartIs(g, n);
    LengthUpToIs(g, n);
    forall c: nat
      ensures c < n <==> g.ChunkLen(c) > 0
      ensures c < n ==> g.Start(c) + g.ChunkLen(c) <= g.volume
    {
      StartOrder(g, c, n - 1);
      StartOrder(g, n, c);
    }
  }

  // ---------------------------------------------------------------- split

  /**
   * The spans of a request of `len` bytes that starts at byte r of chunk q; the first one lands
   * at `requestOffset` of the request buffer.
   */
  function PiecesAt(q: nat, r: nat, len: nat, chunk: nat, requestOffset: nat): seq<Span>
    requires r < chunk
    decreases len
  {
    if len == 0 then []
    else
      var take := Min(chunk - r, len);
      [Span(q, r, requestOffset, take)] + PiecesAt(q + 1, 0, len - take, chunk, requestOffset + take)
  }

  function Pieces(offset: nat, len: nat, chunk: nat): seq<Span>
    requires chunk > 0
  {
    PiecesAt(offset / chunk, offset % chunk, len, chunk, 0)
  }

  /** What `split` answers, errors included. */
  function Spans(offset: nat, len: nat, g: Geometry): Result<seq<Span>> {
    if g.chunk == 0 then Err(InvalidArgument)
    else if offset + len > U64_MAX then Err(InvalidArgument)
    else if offset + len > g.volume then Err(InvalidArgument)
    else Ok(Pieces(offset, len, g.chunk))
  }

  method Split(offset: nat, len: nat, g: Geometry) returns (r: Result<seq<Span>>)
    requires offset <= U64_MAX && len <= U64_MAX && g.chunk <= U64_MAX && g.volume <= U64_MAX
    ensures r == Spans(offset, len, g)
    ensures r.Ok? <==> g.chunk > 0 && offset + len <= g.volume
  {
    if g.chunk == 0 {
      return Err(InvalidArgument);
    }
    if offset + len > U64_MAX {
      return Err(InvalidArgument);
    }
    if offset + len > g.volume {
      return Err(InvalidArgument);
    }
    var spans := Cut(offset, len, g.chunk);
    return Ok(spans);
  }

  /** The loop of `split`. */
  method Cut(offset: nat, len: nat, chunk: nat) returns (spans: seq<Span>)
    requires chunk > 0
    ensures spans == Pieces(offset, len, chunk)
  {
    spans := [];
    var remaining := len;
    var currentOffset := offset;
    var requestOffset := 0;
    DivModFacts(offset, chunk);
    ghost var q: nat, r: nat := offset / chunk, offset % chunk;
    ghost var whole := PiecesAt(q, r, len, chunk, 0);
    while remaining > 0
      invariant r < chunk && (remaining > 0 ==> currentOffset == q * chunk + r)
      invariant spans + PiecesAt(q, r, remaining, chunk, requestOffset) == whole
      decreases remaining
    {
      ghost var was := spans;
      QuotientUnique(q, r, chunk);
      var chunkId := currentOffset / chunk;
      var offsetInChunk := currentOffset % chunk;
      var available := chunk - offsetInChunk;
      var take := Min(available, remaining);
      spans := spans + [Span(chunkId, offsetInChunk, requestOffset, take)];
      remaining := remaining - take;
      requestOffset := requestOffset + take;
      currentOffset := currentOffset + take;
      q, r := q + 1, 0;
      assert q * chunk == (q - 1) * chunk + chunk;
      ghost var rest := PiecesAt(q, r, remaining, chunk, requestOffset);
      assert spans + rest == was + ([Span(chunkId, offsetInChunk, requestOffset - take, take)] + rest);
    }
  }

  /** One span lies inside one chunk and is where the request says it is. */
  predicate SpanOk(sp: Span, start: nat, chunk: nat) {
    && sp.len > 0
    && sp.offsetInChunk + sp.len <= chunk
    && sp.chunkId * chunk + sp.offsetInChunk == start
  }

  /** `spans` cover [offset, offset + len) from left to right, without gap or overlap, chunk by chunk. */
  predicate TilesFrom(spans: seq<Span>, offset: nat, len: nat, chunk: nat, requestOffset: nat) {
    if |spans| == 0 then len == 0
    else
      && SpanOk(spans[0], offset, chunk)
      && spans[0].requestOffset == requestOffset
      && spans[0].len <= len
      && (|spans| > 1 ==> spans[1].chunkId == spans[0].chunkId + 1 && spans[1].offsetInChunk == 0)
      && TilesFrom(spans[1..], offset + spans[0].len, len - spans[0].len, chunk, requestOffset + spans[0].len)
  }

  predicate Tiles(spans: seq<Span>, offset: nat, len: nat, chunk: nat) {
    TilesFrom(spans, offset, len, chunk, 0)
  }

  /** `split` tiles the request. */
  lemma {:induction false} PiecesTile(q: nat, r: nat, start: nat, len: nat, chunk: nat, requestOffset: nat)
    requires r < chunk && start == q * chunk + r
    ensures TilesFrom(PiecesAt(q, r, len, chunk, requestOffset), start, len, chunk, requestOffset)
    decreases len
  {
    if len > 0 {
      var take := Min(chunk - r, len);
      var ps := PiecesAt(q, r, len, chunk, requestOffset);
      var rest := PiecesAt(q + 1, 0, len - take, chunk, requestOffset + take);
      assert ps[1..] == rest;
      assert SpanOk(ps[0], start, chunk);
      if len > take {
        assert (q + 1) * chunk == q * chunk + chunk;
        PiecesTile(q + 1, 0, start + take, len - take, chunk, requestOffset + take);
      }
    }
  }

  /** A tiling is unique: anything that tiles the request is what `split` returns. */
  lemma {:induction false} TilingUnique(spans: seq<Span>, q: nat, r: nat, start: nat, len: nat, chunk: nat,
        requestOffset: nat)
    requires r < chunk && TilesFrom(spans, start, len, chunk, requestOffset)
    requires start == q * chunk + r
    requires len > 0 ==> spans[0].chunkId == q && spans[0].offsetInChunk == r
    ensures spans == PiecesAt(q, r, len, chunk, requestOffset)
    decreases len
  {
    if len > 0 {
      var sp := spans[0];
      assert (q + 1) * chunk == q * chunk + chunk;
      // A span that stops early would be followed by one in the same chunk.
      assert sp.len == Min(chunk - r, len);
      if len > sp.len {
        TilingUnique(spans[1..], q + 1, 0, start + sp.len, len - sp.len, chunk, requestOffset + sp.len);
      }
      assert spans == [sp] + spans[1..];
    }
  }

  /** A sequence of spans is what `split` returns for an in-range request iff it tiles that request. */
  lemma SplitIsTheTiling(spans: seq<Span>, offset: nat, len: nat, g: Geometry)
    requires g.Valid() && offset + len <= g.volume
    ensures Tiles(spans, offset, len, g.chunk) <==> Spans(offset, len, g) == Ok(spans)
  {
    TilingIsPieces(spans, offset, len, g.chunk);
    hide Tiles, Pieces;
    assert Spans(offset, len, g) == Ok(Pieces(offset, len, g.chunk));
  }

  lemma TilingIsPieces(spans: seq<Span>, offset: nat, len: nat, chunk: nat)
    requires chunk > 0
    ensures Tiles(spans, offset, len, chunk) <==> spans == Pieces(offset, len, chunk)
  {
    if Tiles(spans, offset, len, chunk) {
      FirstSpanLocated(spans, offset, len, chunk);
    }
    hide TilesFrom, PiecesAt;
    var q, r := offset / chunk, offset % chunk;
    DivModFacts(offset, chunk);
    PiecesTile(q, r, offset, len, chunk, 0);
    if Tiles(spans, offset, len, chunk) {
      TilingUnique(spans, q, r, offset, len, chunk, 0);
    }
  }

  lemma FirstSpanLocated(spans: seq<Span>, offset: nat, len: nat, chunk: nat)
    requires chunk > 0 && Tiles(spans, offset, len, chunk)
    ensures len > 0 ==> spans[0].chunkId == offset / chunk && spans[0].offsetInChunk == offset % chunk
  {
    if len > 0 {
      QuotientUnique(spans[0].chunkId, spans[0].offsetInChunk, chunk);
    }
  }

  /** Every piece of an in-range request fits its chunk, even a short last one, with no u64 overflow. */
  predicate SpanFits(sp: Span, g: Geometry)
    requires g.chunk > 0
  {
    && sp.len > 0
    && sp.offsetInChunk + sp.len <= g.ChunkLen(sp.chunkId)
    && sp.chunkId < g.TotalChunks()
    && sp.chunkId * g.chunk + sp.offsetInChunk + sp.len <= g.volume
  }

  /** Where the k-th span of a request sits, in the request and in the volume. */
  predicate PieceAt(sp: Span, k: nat, q: nat, start: nat, len: nat, g: Geometry, requestOffset: nat)
    requires g.chunk > 0
  {
    && SpanFits(sp, g)
    && sp.chunkId == q + k
    && (k > 0 ==> sp.offsetInChunk == 0)
    && requestOffset <= sp.requestOffset
    && sp.requestOffset + sp.len <= requestOffset + len
    && sp.chunkId * g.chunk + sp.offsetInChunk == start + (sp.requestOffset - requestOffset)
  }

  lemma FirstPieceFits(q: nat, r: nat, start: nat, len: nat, g: Geometry, requestOffset: nat)
    requires g.Valid() && r < g.chunk && start == q * g.chunk + r && start + len <= g.volume && len > 0
    ensures PieceAt(Span(q, r, requestOffset, Min(g.chunk - r, len)), 0, q, start, len, g, requestOffset)
  {
    ChunksCoverVolume(g);
    StartIs(g, q);
    assert g.ChunkLen(q) >= r + Min(g.chunk - r, len) > 0;
  }

  lemma {:induction false} PiecesFit(q: nat, r: nat, start: nat, len: nat, g: Geometry, requestOffset: nat, k: nat)
    requires g.Valid() && r < g.chunk && start == q * g.chunk + r && start + len <= g.volume
    requires k < |PiecesAt(q, r, len, g.chunk, requestOffset)|
    ensures PieceAt(PiecesAt(q, r, len, g.chunk, requestOffset)[k], k, q, start, len, g, requestOffset)
    decreases len
  {
    if k == 0 {
      FirstPieceFits(q, r, start, len, g, requestOffset);
    } else {
      var take := Min(g.chunk - r, len);
      assert (q + 1) * g.chunk == q * g.chunk + g.chunk;
      PiecesFit(q + 1, 0, start + take, len - take, g, requestOffset + take, k - 1);
    }
  }

  /** The span is where the volume byte `start` is, inside its chunk. */
  predicate Lands(sp: Span, start: nat, g: Geometry) {
    && sp.len > 0
    && sp.offsetInChunk + sp.len <= g.ChunkLen(sp.chunkId)
    && g.Start(sp.chunkId) + sp.offsetInChunk == start
  }

  /** `spans` cover the volume bytes [start, start + len) from left to right, chunk after chunk. */
  predicate Covers(spans: seq<Span>, start: nat, len: nat, g: Geometry, requestOffset: nat)
    decreases spans
  {
    if spans == [] then len == 0
    else
      && Lands(spans[0], start, g)
      && spans[0].requestOffset == requestOffset
      && spans[0].len <= len
      && Covers(spans[1..], start + spans[0].len, len - spans[0].len, g, requestOffset + spans[0].len)
  }

  lemma {:induction false} PiecesCover(q: nat, r: nat, start: nat, len: nat, g: Geometry, requestOffset: nat)
    requires g.Valid() && r < g.chunk && start == g.Start(q) + r && start + len <= g.volume
    ensures Covers(PiecesAt(q, r, len, g.chunk, requestOffset), start, len, g, requestOffset)
    decreases len
  {
    if len > 0 {
      var take := Min(g.chunk - r, len);
      var ps := PiecesAt(q, r, len, g.chunk, requestOffset);
      assert ps[1..] == PiecesAt(q + 1, 0, len - take, g.chunk, requestOffset + take);
      assert Lands(ps[0], start, g);
      if len > take {
        PiecesCover(q + 1, 0, start + take, len - take, g, requestOffset + take);
      }
    }
  }

  /** Where byte `offset` of the volume is: a chunk, and a place in it. */
  lemma Located(offset: nat, g: Geometry)
    requires g.chunk > 0
    ensures offset == g.Start(offset / g.chunk) + offset % g.chunk && offset % g.chunk < g.chunk
  {
    DivModFacts(offset, g.chunk);
    StartIs(g, offset / g.chunk);
  }

  lemma SpansArePieces(offset: nat, len: nat, g: Geometry)
    requires g.Valid() && offset + len <= g.volume
    ensures offset % g.chunk < g.chunk
    ensures Spans(offset, len, g) == Ok(PiecesAt(offset / g.chunk, offset % g.chunk, len, g.chunk, 0))
  {
    hide PiecesAt;
  }

  lemma SpansCover(offset: nat, len: nat, g: Geometry)
    requires g.Valid() && offset + len <= g.volume
    ensures Spans(offset, len, g).Ok? && Covers(Spans(offset, len, g).value, offset, len, g, 0)
  {
    hide Covers, PiecesAt, Spans;
    Located(offset, g);
    SpansArePieces(offset, len, g);
    PiecesCover(offset / g.chunk, offset % g.chunk, offset, len, g, 0);
  }
}
