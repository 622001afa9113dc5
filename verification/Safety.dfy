/**
 * The two invariants that tie the durable stores to the abstract volume. `Recoverable` holds after
 * every single durable effect; `Represents` holds between operations.
 */
module Safety {
  import opened Mapper
  import opened Metadata
  import opened Store
  import opened Volume

  predicate Claims(state: ChunkState) { state == Clean || state == Dirty || state == Uploading }

  /**
   * One chunk with promised cells p, after any durable effect and any loss of local files:
   * - no object is longer than its chunk;
   * - unless the local file is the only copy, a refetch agrees with p;
   * - without a LocalCommitted record, a Dirty or Uploading file holds nothing promised that the
   *   cloud lacks;
   * - wherever recovery would trust the file, the file agrees with p, and wherever it would call
   *   the chunk Clean, a refetch does too.
   */
  ghost predicate SlotSalvageable(sl: Slot, p: Cells) {
    var n, st := |p|, sl.State();
    && (n > 0 ==> |sl.Image(n)| <= n)
    && (st == Missing || st == Fetching || st == Clean ==> Fills(sl.Image(n), p))
    && (st == Dirty || st == Uploading ==> sl.file.Some? && sl.latest.None? ==> Fills(sl.Image(n), p))
    && (Claims(st) ==> sl.row.value.hasPath)
    && (Claims(st) && sl.file.Some? ==> Fills(sl.file.value, p))
    && (sl.file.Some? && sl.latest.Some? ==> Fills(sl.file.value, p) && (sl.Committed() ==> Fills(sl.Image(n), p)))
  }

  /** Salvageable, and no file was lost: a Dirty or Uploading chunk has its file. */
  ghost predicate SlotSafe(sl: Slot, p: Cells) {
    && SlotSalvageable(sl, p)
    && (sl.State() == Dirty || sl.State() == Uploading ==> sl.file.Some?)
  }

  /**
   * One chunk between operations: no journaled upload is pending. (A Clean row may have lost its file
   * without anyone noticing; a refetch makes up for that.)
   */
  ghost predicate SlotSettled(sl: Slot, p: Cells) {
    && SlotSafe(sl, p)
    && (sl.State() == Uploading ==> sl.latest.None?)
  }

  ghost predicate ChunkSalvageable(cfg: Config, s: State, v: Cells, c: nat) {
    SlotSalvageable(Look(s, c), Part(v, cfg.geo, c))
  }

  ghost predicate ChunkSafe(cfg: Config, s: State, v: Cells, c: nat) {
    SlotSafe(Look(s, c), Part(v, cfg.geo, c))
  }

  ghost predicate ChunkSettled(cfg: Config, s: State, v: Cells, c: nat) {
    SlotSettled(Look(s, c), Part(v, cfg.geo, c))
  }

  ghost predicate Salvageable(cfg: Config, s: State, v: Cells) {
    && cfg.Valid()
    && |v| == cfg.geo.volume
    && forall c: nat :: ChunkSalvageable(cfg, s, v, c)
  }

  ghost predicate Recoverable(cfg: Config, s: State, v: Cells) {
    && cfg.Valid()
    && |v| == cfg.geo.volume
    && forall c: nat :: ChunkSafe(cfg, s, v, c)
  }

  ghost predicate Represents(cfg: Config, s: State, v: Cells) {
    && cfg.Valid()
    && |v| == cfg.geo.volume
    && forall c: nat :: ChunkSettled(cfg, s, v, c)
  }

  lemma RepresentsSize(cfg: Config, s: State, v: Cells)
    requires Represents(cfg, s, v)
    ensures cfg.Valid() && |v| == cfg.geo.volume
  {
  }

  lemma SettledIsSafe(cfg: Config, s: State, v: Cells)
    requires Represents(cfg, s, v)
    ensures Recoverable(cfg, s, v)
  {
    forall c: nat
      ensures ChunkSafe(cfg, s, v, c)
    {
      assert ChunkSettled(cfg, s, v, c);
    }
  }

  lemma SafeIsSalvageable(cfg: Config, s: State, v: Cells)
    requires Recoverable(cfg, s, v)
    ensures Salvageable(cfg, s, v)
  {
    forall c: nat
      ensures ChunkSalvageable(cfg, s, v, c)
    {
      assert ChunkSafe(cfg, s, v, c);
    }
  }

  // ---------------------------------------------------------------- along a trace

  /** Every state on the way through t is recoverable to v. */
  ghost predicate Throughout(cfg: Config, s: State, t: seq<Effect>, v: Cells)
    decreases t
  {
    Recoverable(cfg, s, v) && (t != [] ==> Throughout(cfg, Apply(s, t[0]), t[1..], v))
  }

  lemma {:induction false} ThroughoutAt(cfg: Config, s: State, t: seq<Effect>, v: Cells, k: nat)
    requires Throughout(cfg, s, t, v) && k <= |t|
    ensures Recoverable(cfg, Run(s, t[..k]), v)
    decreases k
  {
    if k > 0 {
      ThroughoutAt(cfg, Apply(s, t[0]), t[1..], v, k - 1);
      assert t[..k][0] == t[0] && t[..k][1..] == t[1..][..k - 1];
    }
  }

  lemma {:induction false} ThroughoutConcat(cfg: Config, s: State, a: seq<Effect>, b: seq<Effect>, v: Cells)
    requires Throughout(cfg, s, a, v) && Throughout(cfg, Run(s, a), b, v)
    ensures Throughout(cfg, s, a + b, v)
    decreases a
  {
    if a == [] {
      assert a + b == b;
    } else {
      ThroughoutConcat(cfg, Apply(s, a[0]), a[1..], b, v);
      assert (a + b)[0] == a[0] && (a + b)[1..] == a[1..] + b;
    }
  }

  lemma PartWeaker(v: Cells, w: Cells, g: Geometry, c: nat)
    requires Weaker(v, w)
    ensures Weaker(Part(v, g, c), Part(w, g, c))
  {
  }

  lemma RecoverableWeaker(cfg: Config, s: State, v: Cells, w: Cells)
    requires Recoverable(cfg, s, w) && Weaker(v, w)
    ensures Recoverable(cfg, s, v)
  {
    forall c: nat
      ensures ChunkSafe(cfg, s, v, c)
    {
      assert ChunkSafe(cfg, s, w, c);
      PartWeaker(v, w, cfg.geo, c);
    }
  }

  lemma {:induction false} ThroughoutWeaker(cfg: Config, s: State, t: seq<Effect>, v: Cells, w: Cells)
    requires Throughout(cfg, s, t, w) && Weaker(v, w)
    ensures Throughout(cfg, s, t, v)
    decreases t
  {
    RecoverableWeaker(cfg, s, v, w);
    if t != [] {
      ThroughoutWeaker(cfg, Apply(s, t[0]), t[1..], v, w);
    }
  }

  // ---------------------------------------------------------------- effects on one chunk

  ghost predicate SafeAlong(sl: Slot, t: seq<Effect>, p: Cells)
    decreases t
  {
    SlotSafe(sl, p) && (t != [] ==> SafeAlong(ApplyAt(sl, t[0]), t[1..], p))
  }

  lemma AlongStep(sl: Slot, a: Effect, p: Cells)
    requires SlotSafe(sl, p) && SlotSafe(ApplyAt(sl, a), p)
    ensures SafeAlong(sl, [a], p) && RunAt(sl, [a]) == ApplyAt(sl, a)
  {
    assert [a][1..] == [];
  }

  lemma AlongTwo(sl: Slot, a: Effect, b: Effect, p: Cells)
    requires SlotSafe(sl, p) && SlotSafe(ApplyAt(sl, a), p) && SlotSafe(ApplyAt(ApplyAt(sl, a), b), p)
    ensures SafeAlong(sl, [a, b], p) && RunAt(sl, [a, b]) == ApplyAt(ApplyAt(sl, a), b)
  {
    assert [a, b][1..] == [b] && [b][1..] == [];
    assert RunAt(ApplyAt(sl, a), [b]) == ApplyAt(ApplyAt(sl, a), b);
  }

  lemma AlongCons(sl: Slot, a: Effect, t: seq<Effect>, p: Cells)
    requires SlotSafe(sl, p) && SafeAlong(ApplyAt(sl, a), t, p)
    ensures SafeAlong(sl, [a] + t, p) && RunAt(sl, [a] + t) == RunAt(ApplyAt(sl, a), t)
  {
    assert ([a] + t)[1..] == t;
  }

  lemma {:induction false} OneChunk(cfg: Config, s: State, t: seq<Effect>, v: Cells, c: nat)
    requires Recoverable(cfg, s, v) && About(t, c) && SafeAlong(Look(s, c), t, Part(v, cfg.geo, c))
    ensures Throughout(cfg, s, t, v)
    decreases t
  {
    if t != [] {
      var s' := Apply(s, t[0]);
      forall d: nat
        ensures ChunkSafe(cfg, s', v, d)
      {
        LookAfter(s, t[0], d);
        assert ChunkSafe(cfg, s, v, d);
      }
      LookAfter(s, t[0], c);
      OneChunk(cfg, s', t[1..], v, c);
    }
  }

  /** A trace about chunk c settles the volume when it settles c, whose cells alone may change. */
  lemma OneChunkSettles(cfg: Config, s: State, t: seq<Effect>, v: Cells, c: nat, w: Cells)
    requires Represents(cfg, s, v) && About(t, c) && |w| == |v|
    requires forall d: nat :: d != c ==> Part(w, cfg.geo, d) == Part(v, cfg.geo, d)
    requires SlotSettled(RunAt(Look(s, c), t), Part(w, cfg.geo, c))
    ensures Represents(cfg, Run(s, t), w)
  {
    forall d: nat
      ensures ChunkSettled(cfg, Run(s, t), w, d)
    {
      LookAfterRun(s, t, c, d);
      assert ChunkSettled(cfg, s, v, d);
    }
  }
}
