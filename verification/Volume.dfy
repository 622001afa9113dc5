/**
 * The abstract volume: a flat array of cells. A cell is a known byte, or None when a write was cut
 * by a crash before it was acknowledged, so that nothing is promised about that byte.
 */
module Volume {
  import opened Wrappers
  import opened Mapper

  type Cells = seq<Option<byte>>

  /** `bytes` is one of the contents that `cells` allows. */
  predicate Agrees(bytes: seq<byte>, cells: Cells) {
    |bytes| == |cells| && forall i :: 0 <= i < |cells| && cells[i].Some? ==> cells[i].value == bytes[i]
  }

  /**
   * `bytes`, filled with zeroes to the length of `cells`, is one of the contents that `cells` allows. A
   * crash can leave a file short; reading past its end fails, and writing past it fills it with zeroes.
   */
  predicate Fills(bytes: seq<byte>, cells: Cells) {
    cells != [] ==>
      && |bytes| <= |cells|
      && forall i :: 0 <= i < |cells| && cells[i].Some? ==> cells[i].value == (if i < |bytes| then bytes[i] else 0)
  }

  /** For whole contents, that is agreement. */
  lemma WholeFills(bytes: seq<byte>, cells: Cells)
    requires |bytes| == |cells|
    ensures Fills(bytes, cells) <==> Agrees(bytes, cells)
  {
  }

  lemma FillsSlice(bytes: seq<byte>, cells: Cells, off: nat, n: nat)
    requires Fills(bytes, cells) && off + n <= |bytes| && off + n <= |cells|
    ensures Agrees(bytes[off..off + n], cells[off..off + n])
  {
  }

  lemma FillsWeaker(bytes: seq<byte>, p: Cells, q: Cells)
    requires Fills(bytes, q) && Weaker(p, q)
    ensures Fills(bytes, p)
  {
  }

  function Known(bytes: seq<byte>): Cells {
    seq(|bytes|, i requires 0 <= i < |bytes| => Some(bytes[i]))
  }

  function Unknown(n: nat): Cells {
    seq(n, _ => None)
  }

  /** `cells` with the cells from `offset` on replaced by `patch`. */
  function Patch(cells: Cells, offset: nat, patch: Cells): (r: Cells)
    requires offset + |patch| <= |cells|
    ensures |r| == |cells|
    ensures forall i :: 0 <= i < |r| ==> r[i] == if offset <= i < offset + |patch| then patch[i - offset] else cells[i]
  {
    cells[..offset] + patch + cells[offset + |patch|..]
  }

  /** Write: exactly [offset, offset + |data|) changes, and to known bytes. */
  function Put(cells: Cells, offset: nat, data: seq<byte>): (r: Cells)
    requires offset + |data| <= |cells|
    ensures |r| == |cells|
  {
    Patch(cells, offset, Known(data))
  }

  /** Forget exactly [offset, offset + n). */
  function Blur(cells: Cells, offset: nat, n: nat): (r: Cells)
    requires offset + n <= |cells|
    ensures |r| == |cells|
  {
    Patch(cells, offset, Unknown(n))
  }

  /** Chunk c's part of the volume. */
  function Part(v: Cells, g: Geometry, c: nat): Cells {
    if g.Start(c) + g.ChunkLen(c) <= |v| then v[g.Start(c)..g.Start(c) + g.ChunkLen(c)] else []
  }

  lemma PartLength(v: Cells, g: Geometry, c: nat)
    requires |v| == g.volume
    ensures |Part(v, g, c)| == g.ChunkLen(c)
  {
    if g.Start(c) > g.volume {
      assert g.ChunkLen(c) == 0;
    }
  }

  lemma PatchInside(v: Cells, lo: nat, n: nat, off: nat, patch: Cells)
    requires lo + n <= |v| && off + |patch| <= n
    ensures Patch(v, lo + off, patch)[lo..lo + n] == Patch(v[lo..lo + n], off, patch)
  {
    hide Patch;
    var w, z := Patch(v, lo + off, patch), Patch(v[lo..lo + n], off, patch);
    forall i | 0 <= i < n
      ensures w[lo..lo + n][i] == z[i]
    {
      assert w[lo..lo + n][i] == w[lo + i] && v[lo..lo + n][i] == v[lo + i];
    }
  }

  lemma PatchOutside(v: Cells, at: nat, patch: Cells, lo: nat, n: nat)
    requires lo + n <= |v| && at + |patch| <= |v|
    requires lo + n <= at || at + |patch| <= lo
    ensures Patch(v, at, patch)[lo..lo + n] == v[lo..lo + n]
  {
    hide Patch;
    var w := Patch(v, at, patch);
    var x, y := w[lo..lo + n], v[lo..lo + n];
    forall i | 0 <= i < n
      ensures x[i] == y[i]
    {
      assert x[i] == w[lo + i] && y[i] == v[lo + i];
    }
  }

  lemma PatchMissesPart(v: Cells, g: Geometry, c: nat, off: nat, patch: Cells, d: nat)
    requires |v| == g.volume && off + |patch| <= g.ChunkLen(c) && g.Start(c) + off + |patch| <= |v| && d != c
    ensures Part(Patch(v, g.Start(c) + off, patch), g, d) == Part(v, g, d)
  {
    hide Patch;
    StartOrder(g, c, d);
    StartOrder(g, d, c);
    if g.Start(d) + g.ChunkLen(d) <= |v| {
      PatchOutside(v, g.Start(c) + off, patch, g.Start(d), g.ChunkLen(d));
    }
  }

  lemma ChunkInside(v: Cells, g: Geometry, c: nat, n: nat)
    requires |v| == g.volume && 0 < n <= g.ChunkLen(c)
    ensures g.Start(c) + n <= g.Start(c) + g.ChunkLen(c) <= |v|
  {
  }

  lemma PatchHitsPart(v: Cells, g: Geometry, c: nat, off: nat, patch: Cells)
    requires |v| == g.volume && |patch| > 0 && off + |patch| <= g.ChunkLen(c)
    requires g.Start(c) + g.ChunkLen(c) <= |v| && |Part(v, g, c)| == g.ChunkLen(c)
    ensures Part(Patch(v, g.Start(c) + off, patch), g, c) == Patch(Part(v, g, c), off, patch)
  {
    hide Patch;
    PatchInside(v, g.Start(c), g.ChunkLen(c), off, patch);
  }

  /** A patch inside one chunk changes that chunk's part, at the chunk-relative offset, and no other part. */
  lemma PartOfPatch(v: Cells, g: Geometry, c: nat, off: nat, patch: Cells, d: nat)
    requires |v| == g.volume && |patch| > 0 && off + |patch| <= g.ChunkLen(c)
    ensures g.Start(c) + off + |patch| <= |v|
    ensures |Part(v, g, c)| == g.ChunkLen(c)
    ensures Part(Patch(v, g.Start(c) + off, patch), g, d)
         == if d == c then Patch(Part(v, g, c), off, patch) else Part(v, g, d)
  {
    hide Patch, Part;
    PartLength(v, g, c);
    ChunkInside(v, g, c, off + |patch|);
    if d == c {
      PatchHitsPart(v, g, c, off, patch);
    } else {
      PatchMissesPart(v, g, c, off, patch, d);
    }
  }

  lemma SliceOfSlice(v: Cells, base: nat, top: nat, off: nat, n: nat)
    requires base + top <= |v| && off + n <= top
    ensures v[base..base + top][off..off + n] == v[base + off..base + off + n]
  {
    var x, y := v[base..base + top][off..off + n], v[base + off..base + off + n];
    assert forall i :: 0 <= i < n ==> x[i] == y[i];
  }

  /** The cells that a span of a request covers, read from its chunk's part or from the flat volume. */
  lemma PartOfSpan(v: Cells, g: Geometry, sp: Span, start: nat)
    requires |v| == g.volume && Lands(sp, start, g)
    ensures start + sp.len <= |v|
    ensures |Part(v, g, sp.chunkId)| == g.ChunkLen(sp.chunkId) >= sp.offsetInChunk + sp.len
    ensures Part(v, g, sp.chunkId)[sp.offsetInChunk..sp.offsetInChunk + sp.len] == v[start..start + sp.len]
  {
    var c := sp.chunkId;
    PartLength(v, g, c);
    var base, top := g.Start(c), g.ChunkLen(c);
    assert Part(v, g, c) == v[base..base + top];
    SliceOfSlice(v, base, top, sp.offsetInChunk, sp.len);
  }

  lemma AgreesSlice(bytes: seq<byte>, cells: Cells, off: nat, n: nat)
    requires Agrees(bytes, cells) && off + n <= |cells|
    ensures Agrees(bytes[off..off + n], cells[off..off + n])
  {
  }

  lemma AgreesKnown(b: seq<byte>, data: seq<byte>)
    ensures Agrees(b, Known(data)) <==> b == data
  {
    if Agrees(b, Known(data)) {
      forall i | 0 <= i < |b|
        ensures b[i] == data[i]
      {
        assert Known(data)[i].Some?;
      }
    }
  }

  /** Two patches side by side are one patch. */
  lemma PatchConcat(v: Cells, offset: nat, a: Cells, b: Cells)
    requires offset + |a| + |b| <= |v|
    ensures Patch(Patch(v, offset, a), offset + |a|, b) == Patch(v, offset, a + b)
  {
  }

  lemma KnownConcat(a: seq<byte>, b: seq<byte>)
    ensures Known(a + b) == Known(a) + Known(b)
  {
  }

  lemma AgreesConcat(a: seq<byte>, b: seq<byte>, x: Cells, y: Cells)
    requires Agrees(a, x) && Agrees(b, y)
    ensures Agrees(a + b, x + y)
  {
  }

  /** v promises no more than w. */
  ghost predicate Weaker(v: Cells, w: Cells) {
    |v| == |w| && forall i :: 0 <= i < |v| && v[i].Some? ==> v[i] == w[i]
  }

  lemma BlurIsWeaker(v: Cells, offset: nat, n: nat)
    requires offset + n <= |v|
    ensures Weaker(Blur(v, offset, n), v)
  {
  }

  lemma PatchNothing(v: Cells, offset: nat)
    requires offset <= |v|
    ensures Patch(v, offset, []) == v
  {
  }
}
