/**
 * `write_at`: what an acknowledged write does to the volume, what a crash in the middle of one can
 * do, and under exactly which conditions a written span is safe.
 */
module Writing {
  import opened Wrappers
  import opened Mapper
  import opened Metadata
  import opened Wal
  import opened Store
  import opened Volume
  import opened Operations
  import opened Safety
  import opened Transparency

  /**
   * The generation that this write will be journaled under does not make the chunk look uploaded:
   * once it is journaled, the latest local generation is not one with a CloudCommitted record.
   */
  predicate NotStale(sl: Slot) {
    Max(sl.latest.GetOr(0), sl.Gen() + 1) !in sl.synced
  }

  /** The row's generation is at least every generation journaled for the chunk. */
  predicate Fresh(sl: Slot) {
    sl.latest.GetOr(0) <= sl.Gen() && forall g :: g in sl.synced ==> g <= sl.Gen()
  }

  lemma FreshIsNotStale(sl: Slot)
    requires Fresh(sl)
    ensures NotStale(sl)
  {
  }

  // ---------------------------------------------------------------- committing one span, one slot

  /** Writing over contents that are right outside [off, off + |data|), however much of it, and however long. */
  lemma OverwriteFills(was: seq<byte>, p: Cells, off: nat, data: seq<byte>, len: nat)
    requires off + |data| <= len <= |p| && Fills(was, Blur(p, off, |data|)) && |was| <= len
    ensures Fills(Overwrite(was, off, data, len), Put(p, off, data))
    ensures Fills(Overwrite(was, off, data, len), Blur(p, off, |data|))
  {
    var b, r := Blur(p, off, |data|), Overwrite(was, off, data, len);
    forall i | 0 <= i < |p|
      ensures Put(p, off, data)[i].Some? ==> Put(p, off, data)[i].value == (if i < len then r[i] else 0)
      ensures b[i].Some? ==> b[i].value == (if i < len then r[i] else 0)
    {
      assert off <= i < off + |data| || b[i] == p[i];
    }
  }

  /** A file recreated from nothing is as good as the one that is gone, outside [off, off + n). */
  ghost predicate RestIsZero(p: Cells, off: nat, n: nat) {
    off + n <= |p| && Fills([], Blur(p, off, n))
  }

  /**
   * The chunk is ready to be written at [off, off + n): outside of it, its file, if there is one, is as
   * promised.
   */
  ghost predicate Prepared(sl: Slot, p: Cells, off: nat, n: nat)
    requires off + n <= |p|
  {
    var b := Blur(p, off, n);
    && SlotSafe(sl, b)
    && Fills(sl.file.GetOr([]), b)
    && (sl.latest.None? || sl.file.None? ==> Fills(sl.Image(|p|), b))
  }

  /** The effects of `Commit`, on the slot of its chunk. */
  function CommitAt(sl: Slot, c: nat, off: nat, data: seq<byte>, n: nat, txid: nat, now: nat): seq<Effect> {
    [ Append(WriteBegin(txid, c, off, |data|, sl.Gen(), sl.Gen() + 1)),
      WriteFile(c, off, data, n),
      Upsert(c, DirtyRow(n, sl.Gen() + 1, now)),
      Append(LocalCommitted(txid, c, sl.Gen() + 1)) ]
  }

  /** Up to the acknowledging record, everything outside the span keeps its promise. */
  lemma CommitSafe(sl: Slot, p: Cells, c: nat, off: nat, data: seq<byte>, txid: nat, now: nat)
    requires 0 < |data| && off + |data| <= |p| && Prepared(sl, p, off, |data|)
    ensures SafeAlong(sl, CommitAt(sl, c, off, data, |p|, txid, now)[..3], Blur(p, off, |data|))
  {
    var b := Blur(p, off, |data|);
    var t := CommitAt(sl, c, off, data, |p|, txid, now);
    assert ApplyAt(sl, t[0]) == sl;
    OverwriteFills(sl.file.GetOr([]), p, off, data, |p|);
    AlongTwo(sl, t[1], t[2], b);
    AlongCons(sl, t[0], [t[1], t[2]], b);
    assert t[..3] == [t[0]] + [t[1], t[2]];
  }

  /**
   * A torn write: the file was created if it was not there, some of the bytes, or others in their place,
   * were written, and it is as long as those reach. That is no worse.
   */
  function TornFile(was: seq<byte>, off: nat, junk: seq<byte>): seq<byte> {
    if junk == [] then was else Overwrite(was, off, junk, Max(|was|, off + |junk|))
  }

  lemma TornFills(was: seq<byte>, p: Cells, off: nat, n: nat, junk: seq<byte>)
    requires 0 < n && |junk| <= n && off + n <= |p| && Fills(was, Blur(p, off, n))
    ensures Fills(TornFile(was, off, junk), Blur(p, off, n))
  {
    var b, r := Blur(p, off, n), TornFile(was, off, junk);
    forall i | 0 <= i < |p| && b[i].Some?
      ensures b[i].value == (if i < |r| then r[i] else 0)
    {
    }
  }

  lemma TornSafe(sl: Slot, p: Cells, off: nat, n: nat, junk: seq<byte>)
    requires 0 < n && |junk| <= n && off + n <= |p| && Prepared(sl, p, off, n)
    ensures SlotSafe(sl.(file := Some(TornFile(sl.file.GetOr([]), off, junk))), Blur(p, off, n))
  {
    TornFills(sl.file.GetOr([]), p, off, n, junk);
  }

  function CommittedSlot(sl: Slot, off: nat, data: seq<byte>, n: nat, now: nat): Slot {
    sl.(file := Some(Overwrite(sl.file.GetOr([]), off, data, n)),
        row := Some(DirtyRow(n, sl.Gen() + 1, now)),
        latest := Some(Max(sl.latest.GetOr(0), sl.Gen() + 1)))
  }

  lemma CommitEnds(sl: Slot, c: nat, off: nat, data: seq<byte>, n: nat, txid: nat, now: nat)
    ensures RunAt(sl, CommitAt(sl, c, off, data, n, txid, now)) == CommittedSlot(sl, off, data, n, now)
  {
    var t := CommitAt(sl, c, off, data, n, txid, now);
    assert t[1..] == [t[1], t[2], t[3]] && t[1..][1..] == [t[2], t[3]] && t[1..][1..][1..] == [t[3]]
        && t[1..][1..][1..][1..] == [];
    assert ApplyAt(sl, t[0]) == sl;
    var s2 := ApplyAt(sl, t[1]);
    var s3 := ApplyAt(s2, t[2]);
    assert RunAt(s3, [t[3]]) == ApplyAt(s3, t[3]);
    assert RunAt(s2, [t[2], t[3]]) == RunAt(s3, [t[3]]);
    assert RunAt(sl, [t[1], t[2], t[3]]) == RunAt(s2, [t[2], t[3]]);
  }

  /** Once acknowledged, the span has the new data; unless the chunk now looks uploaded and is not. */
  lemma CommitSettles(sl: Slot, p: Cells, off: nat, data: seq<byte>, now: nat)
    requires 0 < |data| && off + |data| <= |p| && Prepared(sl, p, off, |data|)
    ensures SlotSettled(CommittedSlot(sl, off, data, |p|, now), Put(p, off, data)) <==>
              NotStale(sl) || Fills(sl.Image(|p|), Put(p, off, data))
  {
    OverwriteFills(sl.file.GetOr([]), p, off, data, |p|);
  }

  // ---------------------------------------------------------------- one span, whole volume

  /** Every other chunk is settled, and the span's chunk is ready to be written. */
  ghost predicate ReadyFor(cfg: Config, s: State, sp: Span, start: nat, v: Cells) {
    && cfg.Valid() && |v| == cfg.geo.volume && Lands(sp, start, cfg.geo)
    && sp.offsetInChunk + sp.len <= |Part(v, cfg.geo, sp.chunkId)|
    && (forall d: nat :: d != sp.chunkId ==> ChunkSettled(cfg, s, v, d))
    && Prepared(Look(s, sp.chunkId), Part(v, cfg.geo, sp.chunkId), sp.offsetInChunk, sp.len)
  }

  lemma BlurPart(v: Cells, g: Geometry, sp: Span, start: nat, d: nat)
    requires |v| == g.volume && Lands(sp, start, g)
    ensures start + sp.len <= |v|
    ensures sp.offsetInChunk + sp.len <= |Part(v, g, sp.chunkId)|
    ensures Part(Blur(v, start, sp.len), g, d)
         == if d == sp.chunkId then Blur(Part(v, g, sp.chunkId), sp.offsetInChunk, sp.len) else Part(v, g, d)
  {
    PartOfPatch(v, g, sp.chunkId, sp.offsetInChunk, Unknown(sp.len), d);
  }

  lemma PutPart(v: Cells, g: Geometry, sp: Span, start: nat, data: seq<byte>, d: nat)
    requires |v| == g.volume && Lands(sp, start, g) && |data| == sp.len
    ensures start + sp.len <= |v|
    ensures sp.offsetInChunk + sp.len <= |Part(v, g, sp.chunkId)|
    ensures Part(Put(v, start, data), g, d)
         == if d == sp.chunkId then Put(Part(v, g, sp.chunkId), sp.offsetInChunk, data) else Part(v, g, d)
  {
    PartOfPatch(v, g, sp.chunkId, sp.offsetInChunk, Known(data), d);
  }

  lemma ReadyIsRecoverable(cfg: Config, s: State, sp: Span, start: nat, v: Cells)
    requires ReadyFor(cfg, s, sp, start, v) && start + sp.len <= |v|
    ensures Recoverable(cfg, s, Blur(v, start, sp.len))
  {
    forall d: nat
      ensures ChunkSafe(cfg, s, Blur(v, start, sp.len), d)
    {
      BlurPart(v, cfg.geo, sp, start, d);
      assert d != sp.chunkId ==> ChunkSettled(cfg, s, v, d);
    }
  }

  /** What `prepare_empty_chunk` leaves: a file of zeroes, and nothing else changed. */
  lemma Emptied(cfg: Config, s: State, c: nat, d: nat)
    ensures var s1 := Run(s, EmptyChunk(cfg, c));
            && s1 == s.(files := s.files[c := Zeroes(cfg.geo.ChunkLen(c))])
            && Look(s1, d) == if d == c then Look(s, d).(file := Some(Zeroes(cfg.geo.ChunkLen(c)))) else Look(s, d)
  {
    var n := cfg.geo.ChunkLen(c);
    RunTwo(s, PutFile(c, []), SetLen(c, n));
    assert Overwrite([], 0, [], n) == Zeroes(n);
    assert s.files[c := []][c := Zeroes(n)] == s.files[c := Zeroes(n)];
  }

  /** Once truncated, and once filled again, a chunk that is about to be replaced whole promises nothing. */
  lemma EmptiedSafe(sl: Slot, p: Cells, c: nat)
    requires SlotSettled(sl, p) && p != []
    ensures SafeAlong(sl, [PutFile(c, []), SetLen(c, |p|)], Blur(p, 0, |p|))
    ensures Prepared(RunAt(sl, [PutFile(c, []), SetLen(c, |p|)]), p, 0, |p|)
  {
    AlongTwo(sl, PutFile(c, []), SetLen(c, |p|), Blur(p, 0, |p|));
  }

  lemma ReadyAfterFull(cfg: Config, s: State, sp: Span, start: nat, v: Cells)
    requires Represents(cfg, s, v) && Lands(sp, start, cfg.geo) && IsFull(cfg, sp)
    ensures start + sp.len <= |v|
    ensures ReadyFor(cfg, Run(s, EmptyChunk(cfg, sp.chunkId)), sp, start, v)
    ensures Throughout(cfg, s, EmptyChunk(cfg, sp.chunkId), Blur(v, start, sp.len))
  {
    hide Run, SlotSettled, Prepared, SlotSafe, SafeAlong, Blur;
    var c, t := sp.chunkId, EmptyChunk(cfg, sp.chunkId);
    RepresentsSize(cfg, s, v);
    PartLength(v, cfg.geo, c);
    BlurPart(v, cfg.geo, sp, start, c);
    assert ChunkSettled(cfg, s, v, c);
    EmptiedSafe(Look(s, c), Part(v, cfg.geo, c), c);
    SettledIsSafe(cfg, s, v);
    BlurIsWeaker(v, start, sp.len);
    RecoverableWeaker(cfg, s, Blur(v, start, sp.len), v);
    OneChunk(cfg, s, t, Blur(v, start, sp.len), c);
    forall d: nat
      ensures Look(Run(s, t), d) == if d == c then RunAt(Look(s, d), t) else Look(s, d)
      ensures ChunkSettled(cfg, s, v, d)
    {
      LookAfterRun(s, t, c, d);
    }
    forall d: nat | d != c
      ensures ChunkSettled(cfg, Run(s, t), v, d)
    {
      assert ChunkSettled(cfg, s, v, d) && Look(Run(s, t), d) == Look(s, d);
    }
  }

  lemma EnsuredIsPrepared(sl: Slot, p: Cells, off: nat, n: nat)
    requires off + n <= |p| && SlotSettled(sl, p)
    requires if sl.file.Some? then (sl.State() == Clean || sl.State() == Dirty) && Fills(sl.file.value, p)
             else sl.State() == Missing && RestIsZero(p, off, n)
    ensures Prepared(sl, p, off, n)
  {
    BlurIsWeaker(p, off, n);
  }

  lemma EnsuredSlot(cfg: Config, s: State, c: nat, v: Cells)
    requires Represents(cfg, s, v) && Ensure(cfg, s, c).Ok?
    ensures var sl := Look(Run(s, Ensure(cfg, s, c).value), c);
            if sl.file.Some? then
              (sl.State() == Clean || sl.State() == Dirty) && Fills(sl.file.value, Part(v, cfg.geo, c))
            else sl.State() == Missing
  {
    hide Represents, Run, Fills, Part, Evict;
    var s1 := Run(s, Ensure(cfg, s, c).value);
    EnsuredFileAgrees(cfg, s, c, v);
    EnsureLook(cfg, s, c, v);
    var sl := Look(s1, c);
    assert sl.row == RowOf(s1, c) && sl.file == FileOf(s1, c);
  }

  lemma ReadyAfterEnsure(cfg: Config, s: State, sp: Span, start: nat, v: Cells)
    requires Represents(cfg, s, v) && Lands(sp, start, cfg.geo) && !IsFull(cfg, sp)
    requires Ensure(cfg, s, sp.chunkId).Ok?
    requires || sp.chunkId in Run(s, Ensure(cfg, s, sp.chunkId).value).files
             || RestIsZero(Part(v, cfg.geo, sp.chunkId), sp.offsetInChunk, sp.len)
    ensures ReadyFor(cfg, Run(s, Ensure(cfg, s, sp.chunkId).value), sp, start, v)
  {
    hide Run, Ensure, SlotSettled, RestIsZero, Prepared, Fills, Part;
    var c, s1 := sp.chunkId, Run(s, Ensure(cfg, s, sp.chunkId).value);
    EnsureTransparent(cfg, s, c, v);
    EnsuredSlot(cfg, s, c, v);
    PartLength(v, cfg.geo, c);
    assert forall d: nat :: ChunkSettled(cfg, s1, v, d);
    assert ChunkSettled(cfg, s1, v, c) && Look(s1, c).file == FileOf(s1, c);
    EnsuredIsPrepared(Look(s1, c), Part(v, cfg.geo, c), sp.offsetInChunk, sp.len);
  }

  /** Once prepared, the chunk still has its file, or the rest of it is promised to be zeroes at most. */
  ghost predicate HasRoom(cfg: Config, s: State, sp: Span, v: Cells) {
    Prepare(cfg, s, sp).Ok? ==>
      || sp.chunkId in Run(s, Prepare(cfg, s, sp).value).files
      || RestIsZero(Part(v, cfg.geo, sp.chunkId), sp.offsetInChunk, sp.len)
  }

  lemma PrepareSafe(cfg: Config, s: State, sp: Span, start: nat, v: Cells)
    requires Represents(cfg, s, v) && Lands(sp, start, cfg.geo)
    requires Prepare(cfg, s, sp).Ok? && HasRoom(cfg, s, sp, v)
    ensures start + sp.len <= |v|
    ensures ReadyFor(cfg, Run(s, Prepare(cfg, s, sp).value), sp, start, v)
    ensures Throughout(cfg, s, Prepare(cfg, s, sp).value, Blur(v, start, sp.len))
  {
    var b := Blur(v, start, sp.len);
    var t := Prepare(cfg, s, sp).value;
    PartOfSpan(v, cfg.geo, sp, start);
    BlurIsWeaker(v, start, sp.len);
    if IsFull(cfg, sp) {
      ReadyAfterFull(cfg, s, sp, start, v);
    } else {
      ReadyAfterEnsure(cfg, s, sp, start, v);
      EnsureTransparent(cfg, s, sp.chunkId, v);
      ThroughoutWeaker(cfg, s, t, b, v);
    }
  }

  lemma CommitIsCommitAt(cfg: Config, s: State, sp: Span, data: seq<byte>)
    requires |data| == sp.len
    ensures Commit(cfg, s, sp, data)
         == CommitAt(Look(s, sp.chunkId), sp.chunkId, sp.offsetInChunk, data, cfg.geo.ChunkLen(sp.chunkId), s.nextTxid,
                     s.clock)
    ensures About(Commit(cfg, s, sp, data), sp.chunkId)
  {
  }

  lemma CommitThroughout(cfg: Config, s: State, sp: Span, start: nat, data: seq<byte>, v: Cells)
    requires ReadyFor(cfg, s, sp, start, v) && |data| == sp.len && start + sp.len <= |v|
    ensures Throughout(cfg, s, Commit(cfg, s, sp, data)[..3], Blur(v, start, sp.len))
  {
    var c := sp.chunkId;
    var t := Commit(cfg, s, sp, data);
    PartLength(v, cfg.geo, c);
    BlurPart(v, cfg.geo, sp, start, c);
    CommitIsCommitAt(cfg, s, sp, data);
    CommitSafe(Look(s, c), Part(v, cfg.geo, c), c, sp.offsetInChunk, data, s.nextTxid, s.clock);
    ReadyIsRecoverable(cfg, s, sp, start, v);
    assert About(t[..3], c);
    OneChunk(cfg, s, t[..3], Blur(v, start, sp.len), c);
  }

  /** The chunk's cells once the span is written. */
  function NewPart(v: Cells, g: Geometry, sp: Span, data: seq<byte>): Cells
    requires sp.offsetInChunk + |data| <= |Part(v, g, sp.chunkId)|
  {
    Put(Part(v, g, sp.chunkId), sp.offsetInChunk, data)
  }

  /** Committing a span changes its own chunk only, so that chunk alone decides. */
  lemma CommitDecides(cfg: Config, s: State, sp: Span, start: nat, data: seq<byte>, v: Cells)
    requires cfg.Valid() && |v| == cfg.geo.volume && Lands(sp, start, cfg.geo) && |data| == sp.len
    requires start + sp.len <= |v|
    requires forall d: nat :: d != sp.chunkId ==> ChunkSettled(cfg, s, v, d)
    ensures sp.offsetInChunk + sp.len <= |Part(v, cfg.geo, sp.chunkId)| == cfg.geo.ChunkLen(sp.chunkId)
    ensures Represents(cfg, Run(s, Commit(cfg, s, sp, data)), Put(v, start, data)) <==>
              SlotSettled(CommittedSlot(Look(s, sp.chunkId), sp.offsetInChunk, data, cfg.geo.ChunkLen(sp.chunkId),
                                        s.clock), NewPart(v, cfg.geo, sp, data))
  {
    var c := sp.chunkId;
    var t, w := Commit(cfg, s, sp, data), Put(v, start, data);
    var s' := Run(s, t);
    PartLength(v, cfg.geo, c);
    CommitIsCommitAt(cfg, s, sp, data);
    CommitEnds(Look(s, c), c, sp.offsetInChunk, data, cfg.geo.ChunkLen(c), s.nextTxid, s.clock);
    LookAfterRun(s, t, c, c);
    PutPart(v, cfg.geo, sp, start, data, c);
    hide SlotSettled, Run, Look, Commit, Put;
    assert ChunkSettled(cfg, s', w, c)
      <==> SlotSettled(CommittedSlot(Look(s, c), sp.offsetInChunk, data, cfg.geo.ChunkLen(c), s.clock),
                       NewPart(v, cfg.geo, sp, data));
    if ChunkSettled(cfg, s', w, c) {
      forall d: nat
        ensures ChunkSettled(cfg, s', w, d)
      {
        LookAfterRun(s, t, c, d);
        PutPart(v, cfg.geo, sp, start, data, d);
        assert d != c ==> ChunkSettled(cfg, s, v, d);
      }
    }
  }

  /**
   * When an acknowledged span is safe: the state after its last record represents the written
   * volume if and only if the write was not stale, or the cloud happens to hold the new contents.
   */
  lemma CommitExact(cfg: Config, s: State, sp: Span, start: nat, data: seq<byte>, v: Cells)
    requires ReadyFor(cfg, s, sp, start, v) && |data| == sp.len && start + sp.len <= |v|
    ensures Represents(cfg, Run(s, Commit(cfg, s, sp, data)), Put(v, start, data)) <==>
              NotStale(Look(s, sp.chunkId))
              || Fills(Look(s, sp.chunkId).Image(cfg.geo.ChunkLen(sp.chunkId)), NewPart(v, cfg.geo, sp, data))
  {
    hide Represents, Run, Commit, Look, Put, CommittedSlot, SlotSettled, NotStale, Fills;
    CommitDecides(cfg, s, sp, start, data, v);
    CommitSettles(Look(s, sp.chunkId), Part(v, cfg.geo, sp.chunkId), sp.offsetInChunk, data, s.clock);
  }

  // ---------------------------------------------------------------- crashes inside one span

  /** An in-place write that was cut short, `junk` being what it wrote. */
  function Tear(s: State, c: nat, off: nat, junk: seq<byte>): State {
    s.(files := s.files[c := TornFile(FileOf(s, c).GetOr([]), off, junk)])
  }

  /** The state when the process dies before effect k of t or, in an in-place write, while performing it. */
  function Torn(s: State, t: seq<Effect>, k: nat, junk: seq<byte>): State
    requires k <= |t|
  {
    var s' := Run(s, t[..k]);
    if k < |t| && t[k].WriteFile? && |junk| <= |t[k].data| then Tear(s', t[k].c, t[k].offset, junk) else s'
  }

  /** The conditions under which a span can be written safely, as they stand once its chunk is prepared. */
  ghost predicate SpanGuard(cfg: Config, s: State, sp: Span, v: Cells) {
    && HasRoom(cfg, s, sp, v)
    && (Prepare(cfg, s, sp).Ok? ==> NotStale(Look(Run(s, Prepare(cfg, s, sp).value), sp.chunkId)))
  }

  /** Only the in-flight span can be damaged by a crash, at whatever effect it comes. */
  lemma SpanCrash(cfg: Config, s: State, sp: Span, start: nat, data: seq<byte>, v: Cells, k: nat, junk: seq<byte>)
    requires Represents(cfg, s, v) && Lands(sp, start, cfg.geo) && Within(sp, data)
    requires WriteSpan(cfg, s, sp, data).Ok? && HasRoom(cfg, s, sp, v)
    requires k < |WriteSpan(cfg, s, sp, data).value|
    ensures start + sp.len <= |v|
    ensures Recoverable(cfg, Torn(s, WriteSpan(cfg, s, sp, data).value, k, junk), Blur(v, start, sp.len))
  {
    hide Commit, Prepare, Recoverable, Represents, Throughout, WriteSpan, ReadyFor, Run, Torn;
    WriteSpanIs(cfg, s, sp, data);
    PrepareSafe(cfg, s, sp, start, v);
    TornConcat(s, Prepare(cfg, s, sp).value, Commit(cfg, Run(s, Prepare(cfg, s, sp).value), sp, SpanData(sp, data)), k,
               junk);
    if k < |Prepare(cfg, s, sp).value| {
      PrepareQuiet(cfg, s, sp);
      QuietCrash(cfg, s, Prepare(cfg, s, sp).value, Blur(v, start, sp.len), k, junk);
    } else {
      CommitCrash(cfg, Run(s, Prepare(cfg, s, sp).value), sp, start, SpanData(sp, data), v,
                  k - |Prepare(cfg, s, sp).value|, junk);
    }
  }

  lemma WriteSpanIs(cfg: Config, s: State, sp: Span, data: seq<byte>)
    requires Within(sp, data) && WriteSpan(cfg, s, sp, data).Ok?
    ensures Prepare(cfg, s, sp).Ok?
    ensures WriteSpan(cfg, s, sp, data).value
         == Prepare(cfg, s, sp).value + Commit(cfg, Run(s, Prepare(cfg, s, sp).value), sp, SpanData(sp, data))
  {
  }

  lemma QuietCrash(cfg: Config, s: State, t: seq<Effect>, v: Cells, k: nat, junk: seq<byte>)
    requires Quiet(t) && Throughout(cfg, s, t, v) && k <= |t|
    ensures Recoverable(cfg, Torn(s, t, k, junk), v)
  {
    hide Recoverable, Throughout;
    ThroughoutAt(cfg, s, t, v, k);
  }

  lemma CommitCrash(cfg: Config, s: State, sp: Span, start: nat, data: seq<byte>, v: Cells, j: nat, junk: seq<byte>)
    requires ReadyFor(cfg, s, sp, start, v) && |data| == sp.len && start + sp.len <= |v|
    requires j < |Commit(cfg, s, sp, data)|
    ensures Recoverable(cfg, Torn(s, Commit(cfg, s, sp, data), j, junk), Blur(v, start, sp.len))
  {
    hide Recoverable, Throughout, Commit, ReadyFor, Blur;
    var b := Commit(cfg, s, sp, data);
    CommitThroughout(cfg, s, sp, start, data, v);
    CommitShape(cfg, s, sp, data);
    assert b[..3][..j] == b[..j];
    ThroughoutAt(cfg, s, b[..3], Blur(v, start, sp.len), j);
    if j == 1 && |junk| <= |data| {
      TornCommit(cfg, s, sp, start, data, v, junk);
    }
  }

  lemma CommitShape(cfg: Config, s: State, sp: Span, data: seq<byte>)
    ensures var b := Commit(cfg, s, sp, data);
            && |b| == 4 && b[1] == WriteFile(sp.chunkId, sp.offsetInChunk, data, cfg.geo.ChunkLen(sp.chunkId))
            && !b[0].WriteFile? && !b[2].WriteFile? && !b[3].WriteFile?
  {
  }

  lemma LookTorn(s: State, c: nat, off: nat, junk: seq<byte>, d: nat)
    ensures Look(Tear(s, c, off, junk), d)
         == if d == c then Look(s, c).(file := Some(TornFile(FileOf(s, c).GetOr([]), off, junk))) else Look(s, d)
  {
  }

  lemma TornCommit(cfg: Config, s: State, sp: Span, start: nat, data: seq<byte>, v: Cells, junk: seq<byte>)
    requires ReadyFor(cfg, s, sp, start, v) && |junk| <= |data| == sp.len && start + sp.len <= |v|
    ensures var b := Commit(cfg, s, sp, data);
            Recoverable(cfg, Tear(Run(s, b[..1]), sp.chunkId, sp.offsetInChunk, junk), Blur(v, start, sp.len))
  {
    hide Run, Apply, Prepared, SlotSafe, Blur, TornFile, Look;
    var c, b := sp.chunkId, Commit(cfg, s, sp, data);
    var s1 := Run(s, b[..1]);
    assert b[..1] == [b[0]];
    RunOne(s, b[0]);
    PartLength(v, cfg.geo, c);
    TornSafe(Look(s, c), Part(v, cfg.geo, c), sp.offsetInChunk, sp.len, junk);
    ReadyIsRecoverable(cfg, s, sp, start, v);
    BlurPart(v, cfg.geo, sp, start, c);
    forall d: nat
      ensures ChunkSafe(cfg, Tear(s1, c, sp.offsetInChunk, junk), Blur(v, start, sp.len), d)
    {
      BeginLeaves(s, b[0], d);
      BeginLeaves(s, b[0], c);
      LookTorn(s1, c, sp.offsetInChunk, junk, d);
      assert ChunkSafe(cfg, s, Blur(v, start, sp.len), d);
    }
    BlurSize(v, start, sp.len);
  }

  lemma BlurSize(v: Cells, start: nat, n: nat)
    requires start + n <= |v|
    ensures |Blur(v, start, n)| == |v|
  {
  }

  lemma BeginLeaves(s: State, e: Effect, d: nat)
    requires e.Append? && e.event.WriteBegin?
    ensures Look(Apply(s, e), d) == Look(s, d) && Look(s, d).file == FileOf(s, d)
    ensures Apply(s, e).files == s.files && Look(Apply(s, e), d).file == FileOf(Apply(s, e), d)
  {
    LookAfter(s, e, d);
  }

  /** No in-place write, and no record of a write: what every operation but `write_at` performs. */
  predicate Quiet(t: seq<Effect>) {
    forall i :: 0 <= i < |t| ==> !t[i].WriteFile? && (t[i].Append? ==> t[i].event.CloudCommitted?)
  }

  lemma {:induction false} EvictListQuiet(cfg: Config, s: State, list: seq<nat>, cached: nat)
    requires forall c :: c in list ==> c in s.rows
    ensures Quiet(EvictList(cfg, s, list, cached))
    decreases list
  {
    if list != [] && cached > cfg.low {
      var one := EvictOne(s, list[0]);
      EvictListQuiet(cfg, Run(s, one), list[1..], SaturatingSub(cached, s.rows[list[0]].size));
    }
  }

  lemma EvictQuiet(cfg: Config, s: State)
    ensures Quiet(Evict(cfg, s))
  {
    if CachedBytes(s.rows) > cfg.cacheMax {
      EvictListQuiet(cfg, s, EvictableCleanChunks(s.rows), CachedBytes(s.rows));
    }
  }

  lemma EnsureQuiet(cfg: Config, s: State, c: nat)
    requires Ensure(cfg, s, c).Ok?
    ensures Quiet(Ensure(cfg, s, c).value)
  {
    hide Run, Evict, Look;
    if !Resident(s, c) {
      EvictQuiet(cfg, Run(s, FetchTrace(cfg, s, c, Fetch(cfg, s, c).value)));
    }
  }

  lemma PrepareQuiet(cfg: Config, s: State, sp: Span)
    requires Prepare(cfg, s, sp).Ok?
    ensures Quiet(Prepare(cfg, s, sp).value)
  {
    if !IsFull(cfg, sp) {
      EnsureQuiet(cfg, s, sp.chunkId);
    }
  }

  /** An acknowledged span has replaced exactly its bytes. */
  lemma SpanDone(cfg: Config, s: State, sp: Span, start: nat, data: seq<byte>, v: Cells)
    requires Represents(cfg, s, v) && Lands(sp, start, cfg.geo) && Within(sp, data)
    requires WriteSpan(cfg, s, sp, data).Ok? && SpanGuard(cfg, s, sp, v)
    ensures start + sp.len <= |v|
    ensures Represents(cfg, Run(s, WriteSpan(cfg, s, sp, data).value), Put(v, start, SpanData(sp, data)))
  {
    var a := Prepare(cfg, s, sp).value;
    var s1 := Run(s, a);
    PrepareSafe(cfg, s, sp, start, v);
    PartLength(v, cfg.geo, sp.chunkId);
    CommitExact(cfg, s1, sp, start, SpanData(sp, data), v);
    RunConcat(s, a, Commit(cfg, s1, sp, SpanData(sp, data)));
  }

  lemma TornNothing(s: State, junk: seq<byte>)
    ensures Torn(s, [], 0, junk) == s
  {
  }

  lemma TornConcat(s: State, a: seq<Effect>, b: seq<Effect>, k: nat, junk: seq<byte>)
    requires k <= |a + b|
    ensures Torn(s, a + b, k, junk) == if k < |a| then Torn(s, a, k, junk) else Torn(Run(s, a), b, k - |a|, junk)
  {
    hide Run, Apply;
    if k < |a| {
      assert (a + b)[..k] == a[..k] && (a + b)[k] == a[k];
    } else {
      assert (a + b)[..k] == a + b[..k - |a|];
      RunConcat(s, a, b[..k - |a|]);
      assert k < |a + b| ==> (a + b)[k] == b[k - |a|];
    }
  }

  // ---------------------------------------------------------------- a whole request

  /** The cells once `data` is written at `start`, if it fits. */
  function WrittenOver(v: Cells, start: nat, data: seq<byte>): Cells {
    if start + |data| <= |v| then Put(v, start, data) else v
  }

  /** Each span that gets written is safe to write when its turn comes. */
  ghost predicate Guarded(cfg: Config, s: State, spans: seq<Span>, data: seq<byte>, v: Cells, start: nat)
    requires AllWithin(spans, data)
    decreases spans
  {
    spans != [] && WriteSpan(cfg, s, spans[0], data).Ok? ==>
      && SpanGuard(cfg, s, spans[0], v)
      && Guarded(cfg, Run(s, WriteSpan(cfg, s, spans[0], data).value), spans[1..], data,
                 WrittenOver(v, start, SpanData(spans[0], data)), start + spans[0].len)
  }

  /** How far a request got after k effects: bytes acknowledged, and bytes of the span in flight. */
  datatype Progress = Progress(done: nat, flight: nat)

  ghost function ProgressAt(cfg: Config, s: State, spans: seq<Span>, data: seq<byte>, k: nat): Progress
    requires AllWithin(spans, data)
    decreases spans
  {
    if spans == [] || WriteSpan(cfg, s, spans[0], data).Err? then Progress(0, 0)
    else
      var t := WriteSpan(cfg, s, spans[0], data).value;
      if k < |t| then Progress(0, spans[0].len)
      else
        var rest := ProgressAt(cfg, Run(s, t), spans[1..], data, k - |t|);
        Progress(spans[0].len + rest.done, rest.flight)
  }

  /** The volume after `done` acknowledged bytes of a request at `start`, the next `flight` bytes unknown. */
  function Advanced(v: Cells, start: nat, data: seq<byte>, requestOffset: nat, p: Progress): Cells
    requires start + p.done + p.flight <= |v| && requestOffset + p.done <= |data|
  {
    Blur(Put(v, start, data[requestOffset..requestOffset + p.done]), start + p.done, p.flight)
  }

  ghost predicate InRequest(p: Progress, len: nat) { p.done + p.flight <= len }

  /** Acknowledging one span and then making progress p is one longer progress. */
  lemma AdvanceOver(v: Cells, start: nat, data: seq<byte>, requestOffset: nat, n: nat, p: Progress)
    requires start + n + p.done + p.flight <= |v| && requestOffset + n + p.done <= |data|
    ensures Advanced(Put(v, start, data[requestOffset..requestOffset + n]), start + n, data, requestOffset + n, p)
         == Advanced(v, start, data, requestOffset, Progress(n + p.done, p.flight))
  {
    var a, b := data[requestOffset..requestOffset + n], data[requestOffset + n..requestOffset + n + p.done];
    assert a + b == data[requestOffset..requestOffset + n + p.done];
    KnownConcat(a, b);
    PatchConcat(v, start, Known(a), Known(b));
  }

  lemma AdvanceNothing(v: Cells, start: nat, data: seq<byte>, requestOffset: nat, flight: nat)
    requires start + flight <= |v| && requestOffset <= |data|
    ensures Advanced(v, start, data, requestOffset, Progress(0, flight)) == Blur(v, start, flight)
    ensures Blur(v, start, 0) == v
  {
    assert data[requestOffset..requestOffset] == [];
    assert Known([]) == [];
    PatchNothing(v, start);
    assert Unknown(0) == [];
  }

  /** The request [start, start + len) of `data` from `requestOffset` on, cut into `spans`, safe to write to v. */
  ghost predicate Request(cfg: Config, s: State, spans: seq<Span>, start: nat, len: nat, requestOffset: nat,
        data: seq<byte>, v: Cells)
  {
    && Represents(cfg, s, v)
    && AllWithin(spans, data)
    && Covers(spans, start, len, cfg.geo, requestOffset)
    && start + len <= |v| && requestOffset + len <= |data|
    && Guarded(cfg, s, spans, data, v, start)
  }

  /** The state after the first span of a request, and the volume it then represents. */
  ghost function AfterFirst(cfg: Config, s: State, spans: seq<Span>, data: seq<byte>): State
    requires spans != [] && Within(spans[0], data)
  {
    if WriteSpan(cfg, s, spans[0], data).Ok? then Run(s, WriteSpan(cfg, s, spans[0], data).value) else s
  }

  function PutFirst(v: Cells, start: nat, spans: seq<Span>, requestOffset: nat, data: seq<byte>): Cells
    requires spans != [] && start + spans[0].len <= |v| && requestOffset + spans[0].len <= |data|
  {
    Put(v, start, data[requestOffset..requestOffset + spans[0].len])
  }

  lemma RequestTail(cfg: Config, s: State, spans: seq<Span>, start: nat, len: nat, requestOffset: nat,
        data: seq<byte>, v: Cells)
    requires Request(cfg, s, spans, start, len, requestOffset, data, v)
    requires spans != [] && WriteSpan(cfg, s, spans[0], data).Ok?
    ensures spans[0].len <= len
    ensures Request(cfg, AfterFirst(cfg, s, spans, data), spans[1..], start + spans[0].len, len - spans[0].len,
                    requestOffset + spans[0].len, data, PutFirst(v, start, spans, requestOffset, data))
  {
    hide Represents, WriteSpan, Run, Put, SpanGuard, Guarded, Covers;
    RequestParts(cfg, s, spans, start, len, requestOffset, data, v);
    SpanDone(cfg, s, spans[0], start, data, v);
    RepresentsSize(cfg, s, v);
  }

  lemma RequestParts(cfg: Config, s: State, spans: seq<Span>, start: nat, len: nat, requestOffset: nat,
        data: seq<byte>, v: Cells)
    requires Request(cfg, s, spans, start, len, requestOffset, data, v)
    requires spans != [] && WriteSpan(cfg, s, spans[0], data).Ok?
    ensures Lands(spans[0], start, cfg.geo) && spans[0].len <= len && spans[0].requestOffset == requestOffset
    ensures Covers(spans[1..], start + spans[0].len, len - spans[0].len, cfg.geo, requestOffset + spans[0].len)
    ensures SpanGuard(cfg, s, spans[0], v)
    ensures |PutFirst(v, start, spans, requestOffset, data)| == |v|
    ensures SpanData(spans[0], data) == data[requestOffset..requestOffset + spans[0].len]
    ensures AllWithin(spans[1..], data)
    ensures Guarded(cfg, Run(s, WriteSpan(cfg, s, spans[0], data).value), spans[1..], data,
                    PutFirst(v, start, spans, requestOffset, data), start + spans[0].len)
  {
    hide Represents, WriteSpan, Run, SpanGuard, Patch;
    assert forall i :: 0 <= i < |spans[1..]| ==> spans[1..][i] == spans[i + 1];
  }

  /** What a crash k effects into the request leaves is recoverable to the progress made. */
  ghost predicate CrashSafe(cfg: Config, s: State, spans: seq<Span>, start: nat, requestOffset: nat,
        data: seq<byte>, v: Cells, k: nat, junk: seq<byte>)
  {
    && AllWithin(spans, data)
    && (k <= |WriteSpans(cfg, s, spans, data).trace| ==>
          var p := ProgressAt(cfg, s, spans, data, k);
          && start + p.done + p.flight <= |v| && requestOffset + p.done <= |data|
          && Recoverable(cfg, Torn(s, WriteSpans(cfg, s, spans, data).trace, k, junk),
                         Advanced(v, start, data, requestOffset, p)))
  }

  /**
   * Crash safety of `write_at`, up to the final eviction: whatever effect the crash comes at, torn
   * or not, the spans acknowledged before it have their new data, the span in flight is
   * unconstrained, and every other byte keeps its value.
   */
  lemma {:induction false} SpansCrash(cfg: Config, s: State, spans: seq<Span>, start: nat, len: nat, requestOffset: nat,
                                      data: seq<byte>, v: Cells, k: nat, junk: seq<byte>)
    requires Request(cfg, s, spans, start, len, requestOffset, data, v)
    ensures CrashSafe(cfg, s, spans, start, requestOffset, data, v, k, junk)
    decreases |spans|
  {
    hide Request, CrashSafe, WriteSpan, AfterFirst, PutFirst, AllWithin, Within, WriteSpans, Written, Run, Put, Covers;
    RequestFacts(cfg, s, spans, start, len, requestOffset, data, v);
    if spans == [] || WriteSpan(cfg, s, spans[0], data).Err? {
      SpansCrashNone(cfg, s, spans, start, len, requestOffset, data, v, k, junk);
    } else if k < |WriteSpan(cfg, s, spans[0], data).value| {
      SpansCrashFirst(cfg, s, spans, start, len, requestOffset, data, v, k, junk);
    } else {
      RequestTail(cfg, s, spans, start, len, requestOffset, data, v);
      SpansCrash(cfg, AfterFirst(cfg, s, spans, data), spans[1..], start + spans[0].len, len - spans[0].len,
                 requestOffset + spans[0].len, data, PutFirst(v, start, spans, requestOffset, data),
                 k - |WriteSpan(cfg, s, spans[0], data).value|, junk);
      CrashLater(cfg, s, spans, start, requestOffset, data, v, k, junk);
    }
  }

  lemma RequestFacts(cfg: Config, s: State, spans: seq<Span>, start: nat, len: nat, requestOffset: nat,
        data: seq<byte>, v: Cells)
    requires Request(cfg, s, spans, start, len, requestOffset, data, v)
    ensures AllWithin(spans, data) && start + len <= |v| && requestOffset + len <= |data|
    ensures spans != [] ==> Within(spans[0], data) && AllWithin(spans[1..], data) && spans[0].len <= len
  {
  }

  lemma SpansCrashNone(cfg: Config, s: State, spans: seq<Span>, start: nat, len: nat, requestOffset: nat,
                       data: seq<byte>, v: Cells, k: nat, junk: seq<byte>)
    requires Request(cfg, s, spans, start, len, requestOffset, data, v)
    requires spans != [] ==> Within(spans[0], data) && WriteSpan(cfg, s, spans[0], data).Err?
    ensures CrashSafe(cfg, s, spans, start, requestOffset, data, v, k, junk)
  {
    hide Recoverable, Represents, WriteSpan, Advanced, Run, Guarded;
    SettledIsSafe(cfg, s, v);
    AdvanceNothing(v, start, data, requestOffset, 0);
    TornNothing(s, junk);
  }

  lemma SpansCrashFirst(cfg: Config, s: State, spans: seq<Span>, start: nat, len: nat, requestOffset: nat,
                        data: seq<byte>, v: Cells, k: nat, junk: seq<byte>)
    requires Request(cfg, s, spans, start, len, requestOffset, data, v)
    requires spans != [] && Within(spans[0], data)
    requires WriteSpan(cfg, s, spans[0], data).Ok? && k < |WriteSpan(cfg, s, spans[0], data).value|
    ensures CrashSafe(cfg, s, spans, start, requestOffset, data, v, k, junk)
  {
    var t := WriteSpan(cfg, s, spans[0], data).value;
    SpanCrash(cfg, s, spans[0], start, data, v, k, junk);
    hide WriteSpan, Run, Recoverable, Represents, Advanced, Torn, Guarded;
    var rest := WriteSpans(cfg, Run(s, t), spans[1..], data).trace;
    assert WriteSpans(cfg, s, spans, data).trace == t + rest;
    TornConcat(s, t, rest, k, junk);
    AdvanceNothing(v, start, data, requestOffset, spans[0].len);
  }

  lemma CrashLater(cfg: Config, s: State, spans: seq<Span>, start: nat, requestOffset: nat,
                   data: seq<byte>, v: Cells, k: nat, junk: seq<byte>)
    requires AllWithin(spans, data) && spans != [] && WriteSpan(cfg, s, spans[0], data).Ok?
    requires k >= |WriteSpan(cfg, s, spans[0], data).value|
    requires start + spans[0].len <= |v| && requestOffset + spans[0].len <= |data|
    requires CrashSafe(cfg, AfterFirst(cfg, s, spans, data), spans[1..], start + spans[0].len,
                       requestOffset + spans[0].len, data, PutFirst(v, start, spans, requestOffset, data),
                       k - |WriteSpan(cfg, s, spans[0], data).value|, junk)
    ensures CrashSafe(cfg, s, spans, start, requestOffset, data, v, k, junk)
  {
    hide WriteSpan, Run, Recoverable, Advanced, Torn;
    var t, n := WriteSpan(cfg, s, spans[0], data).value, spans[0].len;
    var s1 := Run(s, t);
    var rest := WriteSpans(cfg, s1, spans[1..], data).trace;
    assert WriteSpans(cfg, s, spans, data).trace == t + rest;
    if k <= |t + rest| {
      TornConcat(s, t, rest, k, junk);
      AdvanceOver(v, start, data, requestOffset, n, ProgressAt(cfg, s1, spans[1..], data, k - |t|));
    }
  }

  // ---------------------------------------------------------------- how a request ends

  /** Bytes acknowledged by a request that runs to its end, successful or not. */
  ghost function Written(cfg: Config, s: State, spans: seq<Span>, data: seq<byte>): nat
    requires AllWithin(spans, data)
    decreases |spans|
  {
    if spans == [] || WriteSpan(cfg, s, spans[0], data).Err? then 0
    else spans[0].len + Written(cfg, AfterFirst(cfg, s, spans, data), spans[1..], data)
  }

  ghost predicate SpansDoneOk(cfg: Config, s: State, spans: seq<Span>, start: nat, len: nat,
        requestOffset: nat, data: seq<byte>, v: Cells)
  {
    && AllWithin(spans, data)
    && var n, o := Written(cfg, s, spans, data), WriteSpans(cfg, s, spans, data);
    && n <= len && start + n <= |v| && requestOffset + n <= |data|
    && Represents(cfg, Run(s, o.trace), Put(v, start, data[requestOffset..requestOffset + n]))
    && (o.result.Ok? <==> n == len)
  }

  /** A request that runs to its end has replaced exactly the bytes of the spans it acknowledged. */
  lemma {:induction false} SpansDone(cfg: Config, s: State, spans: seq<Span>, start: nat, len: nat,
        requestOffset: nat, data: seq<byte>, v: Cells)
    requires Request(cfg, s, spans, start, len, requestOffset, data, v)
    ensures SpansDoneOk(cfg, s, spans, start, len, requestOffset, data, v)
    decreases |spans|
  {
    hide Request, SpansDoneOk, WriteSpan, AfterFirst, PutFirst, AllWithin, Within, WriteSpans, Written, Run, Put,
         Covers;
    RequestFacts(cfg, s, spans, start, len, requestOffset, data, v);
    if spans == [] || WriteSpan(cfg, s, spans[0], data).Err? {
      DoneNone(cfg, s, spans, start, len, requestOffset, data, v);
    } else {
      SpanNonEmpty(cfg, s, spans, start, len, requestOffset, data, v);
      RequestTail(cfg, s, spans, start, len, requestOffset, data, v);
      SpansDone(cfg, AfterFirst(cfg, s, spans, data), spans[1..], start + spans[0].len, len - spans[0].len,
                requestOffset + spans[0].len, data, PutFirst(v, start, spans, requestOffset, data));
      DoneLater(cfg, s, spans, start, len, requestOffset, data, v);
    }
  }

  lemma SpanNonEmpty(cfg: Config, s: State, spans: seq<Span>, start: nat, len: nat, requestOffset: nat,
        data: seq<byte>, v: Cells)
    requires Request(cfg, s, spans, start, len, requestOffset, data, v)
    ensures spans != [] ==> spans[0].len > 0 && len > 0
  {
  }

  lemma DoneNone(cfg: Config, s: State, spans: seq<Span>, start: nat, len: nat, requestOffset: nat,
        data: seq<byte>, v: Cells)
    requires Request(cfg, s, spans, start, len, requestOffset, data, v)
    requires spans != [] ==> Within(spans[0], data) && WriteSpan(cfg, s, spans[0], data).Err?
    ensures SpansDoneOk(cfg, s, spans, start, len, requestOffset, data, v)
  {
    hide WriteSpan, Represents, Guarded;
    assert data[requestOffset..requestOffset] == [];
    assert Known([]) == [];
    PatchNothing(v, start);
  }

  lemma DoneLater(cfg: Config, s: State, spans: seq<Span>, start: nat, len: nat, requestOffset: nat,
        data: seq<byte>, v: Cells)
    requires AllWithin(spans, data) && spans != [] && WriteSpan(cfg, s, spans[0], data).Ok?
    requires start + len <= |v| && requestOffset + len <= |data| && spans[0].len <= len && spans[0].len > 0
    requires SpansDoneOk(cfg, AfterFirst(cfg, s, spans, data), spans[1..], start + spans[0].len, len - spans[0].len,
                         requestOffset + spans[0].len, data, PutFirst(v, start, spans, requestOffset, data))
    ensures SpansDoneOk(cfg, s, spans, start, len, requestOffset, data, v)
  {
    hide WriteSpan, Run, Represents, Patch;
    var s1 := AfterFirst(cfg, s, spans, data);
    var n := Written(cfg, s1, spans[1..], data);
    RunConcat(s, WriteSpan(cfg, s, spans[0], data).value, WriteSpans(cfg, s1, spans[1..], data).trace);
    PutConcat(v, start, data, requestOffset, spans[0].len, n);
  }

  lemma PutConcat(v: Cells, start: nat, data: seq<byte>, requestOffset: nat, n: nat, m: nat)
    requires start + n + m <= |v| && requestOffset + n + m <= |data|
    ensures Put(Put(v, start, data[requestOffset..requestOffset + n]), start + n,
                data[requestOffset + n..requestOffset + n + m])
         == Put(v, start, data[requestOffset..requestOffset + n + m])
  {
    var a, b := data[requestOffset..requestOffset + n], data[requestOffset + n..requestOffset + n + m];
    assert a + b == data[requestOffset..requestOffset + n + m];
    KnownConcat(a, b);
    PatchConcat(v, start, Known(a), Known(b));
  }

  lemma UnfoldRequest(cfg: Config, s: State, spans: seq<Span>, data: seq<byte>, k: nat)
    requires AllWithin(spans, data) && spans != [] && WriteSpan(cfg, s, spans[0], data).Ok?
    ensures AllWithin(spans[1..], data)
    ensures WriteSpans(cfg, s, spans, data).trace
         == WriteSpan(cfg, s, spans[0], data).value
             + WriteSpans(cfg, AfterFirst(cfg, s, spans, data), spans[1..], data).trace
    ensures Written(cfg, s, spans, data)
         == spans[0].len + Written(cfg, AfterFirst(cfg, s, spans, data), spans[1..], data)
    ensures k >= |WriteSpan(cfg, s, spans[0], data).value| ==>
              var rest := ProgressAt(cfg, AfterFirst(cfg, s, spans, data), spans[1..], data,
                                     k - |WriteSpan(cfg, s, spans[0], data).value|);
              ProgressAt(cfg, s, spans, data, k) == Progress(spans[0].len + rest.done, rest.flight)
  {
    hide WriteSpan, Run;
  }

  lemma {:induction false} ProgressInRequest(cfg: Config, s: State, spans: seq<Span>, start: nat, len: nat,
        requestOffset: nat, data: seq<byte>, k: nat)
    requires AllWithin(spans, data) && Covers(spans, start, len, cfg.geo, requestOffset)
    ensures InRequest(ProgressAt(cfg, s, spans, data, k), len)
    decreases |spans|
  {
    hide WriteSpan, Run, AfterFirst, WriteSpans;
    if spans != [] && WriteSpan(cfg, s, spans[0], data).Ok? {
      if k >= |WriteSpan(cfg, s, spans[0], data).value| {
        UnfoldRequest(cfg, s, spans, data, k);
        ProgressInRequest(cfg, AfterFirst(cfg, s, spans, data), spans[1..], start + spans[0].len, len - spans[0].len,
                          requestOffset + spans[0].len, data, k - |WriteSpan(cfg, s, spans[0], data).value|);
      }
    }
  }

  lemma {:induction false} ProgressAtEnd(cfg: Config, s: State, spans: seq<Span>, data: seq<byte>, k: nat)
    requires AllWithin(spans, data) && k >= |WriteSpans(cfg, s, spans, data).trace|
    ensures ProgressAt(cfg, s, spans, data, k) == Progress(Written(cfg, s, spans, data), 0)
    decreases |spans|
  {
    if spans != [] && WriteSpan(cfg, s, spans[0], data).Ok? {
      UnfoldRequest(cfg, s, spans, data, k);
      hide WriteSpan, Run, AfterFirst, WriteSpans, Written, ProgressAt, AllWithin;
      ProgressAtEnd(cfg, AfterFirst(cfg, s, spans, data), spans[1..], data,
                    k - |WriteSpan(cfg, s, spans[0], data).value|);
    }
  }

  // ---------------------------------------------------------------- write_at

  /** Every span of the request is safe to write when its turn comes. */
  ghost predicate WriteGuard(cfg: Config, s: State, offset: nat, data: seq<byte>, v: Cells) {
    Spans(offset, |data|, cfg.geo).Ok? ==>
      (SpansWithin(offset, data, cfg.geo); Guarded(cfg, s, Spans(offset, |data|, cfg.geo).value, data, v, offset))
  }

  /** Bytes acknowledged by `write_at`: all of them if it returns Ok, else those of the spans before the failure. */
  ghost function Acknowledged(cfg: Config, s: State, offset: nat, data: seq<byte>): nat {
    if Spans(offset, |data|, cfg.geo).Err? then 0
    else SpansWithin(offset, data, cfg.geo); Written(cfg, s, Spans(offset, |data|, cfg.geo).value, data)
  }

  ghost function WriteProgress(cfg: Config, s: State, offset: nat, data: seq<byte>, k: nat): Progress {
    if Spans(offset, |data|, cfg.geo).Err? then Progress(0, 0)
    else SpansWithin(offset, data, cfg.geo); ProgressAt(cfg, s, Spans(offset, |data|, cfg.geo).value, data, k)
  }

  /** The volume after a write that got as far as p. */
  function Reached(v: Cells, offset: nat, data: seq<byte>, p: Progress): Cells {
    if p.done + p.flight == 0 || offset + p.done + p.flight > |v| || p.done > |data| then v
    else Advanced(v, offset, data, 0, p)
  }

  lemma ReachedIsAdvanced(v: Cells, offset: nat, data: seq<byte>, p: Progress)
    requires offset + p.done + p.flight <= |v| && p.done <= |data|
    ensures Reached(v, offset, data, p) == Advanced(v, offset, data, 0, p)
  {
    if p.done + p.flight == 0 {
      AdvanceNothing(v, offset, data, 0, 0);
    }
  }

  lemma RequestOfWrite(cfg: Config, s: State, offset: nat, data: seq<byte>, v: Cells)
    requires Represents(cfg, s, v) && WriteGuard(cfg, s, offset, data, v) && Spans(offset, |data|, cfg.geo).Ok?
    ensures Request(cfg, s, Spans(offset, |data|, cfg.geo).value, offset, |data|, 0, data, v)
  {
    SpansWithin(offset, data, cfg.geo);
    SpansCover(offset, |data|, cfg.geo);
  }

  /** What `write_at` leaves behind when it runs to its end. */
  ghost predicate WriteEnds(cfg: Config, s: State, offset: nat, data: seq<byte>, v: Cells) {
    var n, o := Acknowledged(cfg, s, offset, data), Write(cfg, s, offset, data);
    && Represents(cfg, Run(s, o.trace), Reached(v, offset, data, Progress(n, 0)))
    && n <= |data| && (n > 0 ==> offset + n <= |v|)
    && (o.result.Ok? <==> offset + |data| <= |v| && n == |data|)
  }

  /**
   * `write_at` replaces exactly the bytes [offset, offset + n), where n is the whole request if it
   * returns Ok and the spans before the failing one if it does not; its final eviction changes nothing.
   */
  lemma WriteCorrect(cfg: Config, s: State, offset: nat, data: seq<byte>, v: Cells)
    requires Represents(cfg, s, v) && WriteGuard(cfg, s, offset, data, v)
    ensures WriteEnds(cfg, s, offset, data, v)
  {
    var r := Spans(offset, |data|, cfg.geo);
    if r.Err? {
      assert offset + |data| > |v|;
    } else {
      RequestOfWrite(cfg, s, offset, data, v);
      SpansDone(cfg, s, r.value, offset, |data|, 0, data, v);
      WriteSpansThenEvict(cfg, s, offset, data, v);
    }
  }

  lemma WriteSpansThenEvict(cfg: Config, s: State, offset: nat, data: seq<byte>, v: Cells)
    requires cfg.Valid() && Spans(offset, |data|, cfg.geo).Ok? && |v| == cfg.geo.volume
    requires SpansDoneOk(cfg, s, Spans(offset, |data|, cfg.geo).value, offset, |data|, 0, data, v)
    ensures WriteEnds(cfg, s, offset, data, v)
  {
    var spans := Spans(offset, |data|, cfg.geo).value;
    var w := WriteSpans(cfg, s, spans, data);
    var n := Written(cfg, s, spans, data);
    ReachedIsAdvanced(v, offset, data, Progress(n, 0));
    var u := Put(v, offset, data[0..n]);
    AdvanceNothing(u, offset + n, data, 0, 0);
    assert Advanced(v, offset, data, 0, Progress(n, 0)) == u;
    if w.result.Ok? {
      EvictTransparent(cfg, Run(s, w.trace), u);
      RunConcat(s, w.trace, Evict(cfg, Run(s, w.trace)));
    }
  }

  /**
   * Crash safety of `write_at`: cut after any effect, the one in progress torn or not, it leaves a
   * state that is recoverable to the volume with the acknowledged spans written, the span in flight
   * unknown, and all else as before.
   */
  lemma WriteCrash(cfg: Config, s: State, offset: nat, data: seq<byte>, v: Cells, k: nat, junk: seq<byte>)
    requires Represents(cfg, s, v) && WriteGuard(cfg, s, offset, data, v)
    requires k <= |Write(cfg, s, offset, data).trace|
    ensures Recoverable(cfg, Torn(s, Write(cfg, s, offset, data).trace, k, junk),
                        Reached(v, offset, data, WriteProgress(cfg, s, offset, data, k)))
    ensures var p := WriteProgress(cfg, s, offset, data, k);
            p.done + p.flight <= |data| && (p.done + p.flight > 0 ==> offset + p.done + p.flight <= |v|)
  {
    var r := Spans(offset, |data|, cfg.geo);
    if r.Err? {
      SettledIsSafe(cfg, s, v);
      TornNothing(s, junk);
    } else {
      var spans := r.value;
      RequestOfWrite(cfg, s, offset, data, v);
      SpansWithin(offset, data, cfg.geo);
      SpansCover(offset, |data|, cfg.geo);
      ProgressInRequest(cfg, s, spans, offset, |data|, 0, data, k);
      var w := WriteSpans(cfg, s, spans, data);
      var p := ProgressAt(cfg, s, spans, data, k);
      ReachedIsAdvanced(v, offset, data, p);
      if k <= |w.trace| {
        SpansCrash(cfg, s, spans, offset, |data|, 0, data, v, k, junk);
        EvictQuiet(cfg, Run(s, w.trace));
        TornPrefix(s, w.trace, Write(cfg, s, offset, data).trace, k, junk);
      } else {
        ProgressAtEnd(cfg, s, spans, data, k);
        SpansDone(cfg, s, spans, offset, |data|, 0, data, v);
        CrashInEviction(cfg, s, offset, data, v, k, junk);
      }
    }
  }

  lemma TornPrefix(s: State, a: seq<Effect>, t: seq<Effect>, k: nat, junk: seq<byte>)
    requires k <= |a| && a <= t && (k == |a| < |t| ==> !t[k].WriteFile?)
    ensures Torn(s, t, k, junk) == Torn(s, a, k, junk)
  {
    assert t[..k] == a[..k];
  }

  lemma CrashInEviction(cfg: Config, s: State, offset: nat, data: seq<byte>, v: Cells, k: nat, junk: seq<byte>)
    requires cfg.Valid() && Spans(offset, |data|, cfg.geo).Ok? && |v| == cfg.geo.volume
    requires SpansDoneOk(cfg, s, Spans(offset, |data|, cfg.geo).value, offset, |data|, 0, data, v)
    requires |WriteSpans(cfg, s, Spans(offset, |data|, cfg.geo).value, data).trace| < k
    requires k <= |Write(cfg, s, offset, data).trace|
    ensures var n := Acknowledged(cfg, s, offset, data);
            Recoverable(cfg, Torn(s, Write(cfg, s, offset, data).trace, k, junk),
                        Reached(v, offset, data, Progress(n, 0)))
  {
    DoneReaches(cfg, s, offset, data, v);
    CrashInEvictionAt(cfg, s, WriteSpans(cfg, s, Spans(offset, |data|, cfg.geo).value, data).trace,
                      Reached(v, offset, data, Progress(Acknowledged(cfg, s, offset, data), 0)), k, junk);
  }

  lemma CrashInEvictionAt(cfg: Config, s: State, t: seq<Effect>, v: Cells, k: nat, junk: seq<byte>)
    requires Represents(cfg, Run(s, t), v) && |t| <= k <= |t + Evict(cfg, Run(s, t))|
    ensures Recoverable(cfg, Torn(s, t + Evict(cfg, Run(s, t)), k, junk), v)
  {
    hide Represents, Recoverable, Evict, Run;
    TornConcat(s, t, Evict(cfg, Run(s, t)), k, junk);
    EvictCrash(cfg, Run(s, t), v, k - |t|, junk);
  }

  /** Crash transparency of eviction; it tears nothing. */
  lemma EvictCrash(cfg: Config, s: State, v: Cells, k: nat, junk: seq<byte>)
    requires Represents(cfg, s, v) && k <= |Evict(cfg, s)|
    ensures Recoverable(cfg, Torn(s, Evict(cfg, s), k, junk), v)
  {
    EvictTransparent(cfg, s, v);
    EvictQuiet(cfg, s);
    ThroughoutAt(cfg, s, Evict(cfg, s), v, k);
  }

  lemma DoneReaches(cfg: Config, s: State, offset: nat, data: seq<byte>, v: Cells)
    requires cfg.Valid() && Spans(offset, |data|, cfg.geo).Ok? && |v| == cfg.geo.volume
    requires SpansDoneOk(cfg, s, Spans(offset, |data|, cfg.geo).value, offset, |data|, 0, data, v)
    ensures Represents(cfg, Run(s, WriteSpans(cfg, s, Spans(offset, |data|, cfg.geo).value, data).trace),
                       Reached(v, offset, data, Progress(Acknowledged(cfg, s, offset, data), 0)))
  {
    hide Represents, WriteSpans;
    var n := Written(cfg, s, Spans(offset, |data|, cfg.geo).value, data);
    ReachedIsAdvanced(v, offset, data, Progress(n, 0));
    var u := Put(v, offset, data[0..n]);
    AdvanceNothing(u, offset + n, data, 0, 0);
    assert Advanced(v, offset, data, 0, Progress(n, 0)) == u;
  }
}
