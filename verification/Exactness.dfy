/** Exactly which span writes are safe, as conditions on the state before the call. */
module Exactness {
  import opened Wrappers
  import opened Mapper
  import opened Wal
  import opened Store
  import opened Volume
  import opened Operations
  import opened Safety
  import opened Transparency
  import opened Writing
  import opened Eviction
  import opened Guards

  /** A write over a chunk without a file recreates it filled with zeroes. */
  lemma ZeroSettles(sl: Slot, p: Cells, off: nat, data: seq<byte>, now: nat)
    requires 0 < |data| && off + |data| <= |p| && SlotSettled(sl, p) && sl.file.None?
    ensures SlotSettled(CommittedSlot(sl, off, data, |p|, now), Put(p, off, data)) <==>
              RestIsZero(p, off, |data|) && (NotStale(sl) || Fills(sl.Image(|p|), Put(p, off, data)))
  {
    ZeroesOverwritten(p, off, data);
  }

  lemma ZeroesOverwritten(p: Cells, off: nat, data: seq<byte>)
    requires 0 < |data| && off + |data| <= |p|
    ensures Fills(Overwrite([], off, data, |p|), Put(p, off, data)) <==> RestIsZero(p, off, |data|)
  {
    var b, r, w := Blur(p, off, |data|), Overwrite([], off, data, |p|), Put(p, off, data);
    forall i | 0 <= i < |p|
      ensures (w[i].Some? ==> w[i].value == r[i]) <==> (b[i].Some? ==> b[i].value == 0)
    {
      ZeroAt(p, off, data, i);
    }
  }

  lemma ZeroAt(p: Cells, off: nat, data: seq<byte>, i: nat)
    requires off + |data| <= |p| && i < |p|
    ensures off <= i < off + |data| ==> Blur(p, off, |data|)[i].None?
    ensures off <= i < off + |data| ==> Put(p, off, data)[i] == Some(Overwrite([], off, data, |p|)[i])
    ensures !(off <= i < off + |data|) ==>
              Blur(p, off, |data|)[i] == p[i] == Put(p, off, data)[i] && Overwrite([], off, data, |p|)[i] == 0
  {
  }

  /** What a committed span leaves in its own chunk. */
  lemma SpanSlot(cfg: Config, s: State, sp: Span, data: seq<byte>)
    requires Within(sp, data) && WriteSpan(cfg, s, sp, data).Ok?
    ensures Prepare(cfg, s, sp).Ok?
    ensures var s1 := Run(s, Prepare(cfg, s, sp).value);
            Look(Run(s, WriteSpan(cfg, s, sp, data).value), sp.chunkId)
            == CommittedSlot(Look(s1, sp.chunkId), sp.offsetInChunk, SpanData(sp, data), cfg.geo.ChunkLen(sp.chunkId),
                             s1.clock)
  {
    hide Prepare, Run, Commit, Look, WriteSpan;
    WriteSpanIs(cfg, s, sp, data);
    var c, a := sp.chunkId, Prepare(cfg, s, sp).value;
    var s1, d := Run(s, a), SpanData(sp, data);
    RunConcat(s, a, Commit(cfg, s1, sp, d));
    CommitIsCommitAt(cfg, s1, sp, d);
    LookAfterRun(s1, Commit(cfg, s1, sp, d), c, c);
    CommitEnds(Look(s1, c), c, sp.offsetInChunk, d, cfg.geo.ChunkLen(c), s1.nextTxid, s1.clock);
  }

  /** Where the span's chunk stands once it is prepared, in terms of the state before. */
  lemma PreparedLook(cfg: Config, s: State, sp: Span, v: Cells)
    requires Represents(cfg, s, v) && ClockAhead(s) && Prepare(cfg, s, sp).Ok?
    ensures !IsFull(cfg, sp) && !Resident(s, sp.chunkId) ==> Fetch(cfg, s, sp.chunkId).Ok?
    ensures var sl, sl1 := Look(s, sp.chunkId), Look(Run(s, Prepare(cfg, s, sp).value), sp.chunkId);
            && sl1.latest == sl.latest && sl1.synced == sl.synced && sl1.remote == sl.remote
            && (sl1.file.Some? <==> IsFull(cfg, sp) || Resident(s, sp.chunkId) || RoomFor(cfg, s, sp.chunkId))
            && sl1.Gen() == if IsFull(cfg, sp) || Resident(s, sp.chunkId) then sl.Gen() else 0
  {
    var c := sp.chunkId;
    hide Represents, Run, Evict, RoomFor, LatestLocal, Synced;
    if IsFull(cfg, sp) {
      Emptied(cfg, s, c, c);
    } else {
      EnsureLook(cfg, s, c, v);
      if !Resident(s, c) {
        FetchedSurvivesExactly(cfg, s, c, v);
      }
    }
  }

  /** The span's chunk keeps, through its preparation, every byte outside the span. */
  ghost predicate RoomEnough(cfg: Config, s: State, sp: Span, v: Cells)
    requires sp.offsetInChunk + sp.len <= |Part(v, cfg.geo, sp.chunkId)|
  {
    || IsFull(cfg, sp) || Resident(s, sp.chunkId)
    || (Fetch(cfg, s, sp.chunkId).Ok? && RoomFor(cfg, s, sp.chunkId))
    || RestIsZero(Part(v, cfg.geo, sp.chunkId), sp.offsetInChunk, sp.len)
  }

  /** The generation the span will be written under is not one that is journaled as uploaded. */
  predicate FreshEnough(cfg: Config, s: State, sp: Span) {
    if IsFull(cfg, sp) || Resident(s, sp.chunkId) then NotStale(Look(s, sp.chunkId))
    else NotStaleFromZero(Look(s, sp.chunkId))
  }

  lemma PreparedFresh(cfg: Config, s: State, sp: Span, v: Cells)
    requires Represents(cfg, s, v) && ClockAhead(s) && Prepare(cfg, s, sp).Ok?
    ensures var sl, sl1 := Look(s, sp.chunkId), Look(Run(s, Prepare(cfg, s, sp).value), sp.chunkId);
            && (NotStale(sl1) <==> FreshEnough(cfg, s, sp))
            && forall n: nat :: sl1.Image(n) == sl.Image(n)
  {
    hide Represents, Run, Prepare, Look, RoomFor, Fetch, IsFull, Resident;
    PreparedLook(cfg, s, sp, v);
  }

  /** A chunk that was evicted by its own fetch is written as if it had been all zeroes. */
  lemma NoRoomExact(cfg: Config, s: State, sp: Span, start: nat, data: seq<byte>, v: Cells)
    requires Represents(cfg, s, v) && Lands(sp, start, cfg.geo) && |data| == sp.len && Look(s, sp.chunkId).file.None?
    ensures start + sp.len <= |v|
    ensures sp.offsetInChunk + sp.len <= |Part(v, cfg.geo, sp.chunkId)|
    ensures Represents(cfg, Run(s, Commit(cfg, s, sp, data)), Put(v, start, data)) <==>
              && RestIsZero(Part(v, cfg.geo, sp.chunkId), sp.offsetInChunk, sp.len)
              && (NotStale(Look(s, sp.chunkId))
                  || Fills(Look(s, sp.chunkId).Image(cfg.geo.ChunkLen(sp.chunkId)), NewPart(v, cfg.geo, sp, data)))
  {
    SettledChunk(cfg, s, v, sp.chunkId);
    PartOfSpan(v, cfg.geo, sp, start);
    hide Represents, Run, Commit, Look, Put, CommittedSlot, SlotSettled, NotStale, Fills;
    CommitDecides(cfg, s, sp, start, data, v);
    ZeroSettles(Look(s, sp.chunkId), Part(v, cfg.geo, sp.chunkId), sp.offsetInChunk, data, s.clock);
  }

  lemma SettledChunk(cfg: Config, s: State, v: Cells, c: nat)
    requires Represents(cfg, s, v)
    ensures cfg.Valid() && |v| == cfg.geo.volume
    ensures SlotSettled(Look(s, c), Part(v, cfg.geo, c)) && forall d: nat :: ChunkSettled(cfg, s, v, d)
  {
    assert ChunkSettled(cfg, s, v, c);
  }

  /**
   * Span writes, exactly: an acknowledged span leaves the volume with exactly that span replaced, now
   * and after any crash or eviction, if and only if there was room for its chunk and its generation
   * was fresh; or else luck, in that the lost bytes were zeroes, or the cloud held the new bytes.
   */
  lemma SpanExact(cfg: Config, s: State, sp: Span, start: nat, data: seq<byte>, v: Cells)
    requires Represents(cfg, s, v) && ClockAhead(s) && Lands(sp, start, cfg.geo) && Within(sp, data)
    requires WriteSpan(cfg, s, sp, data).Ok?
    ensures start + sp.len <= |v|
    ensures sp.offsetInChunk + sp.len <= |Part(v, cfg.geo, sp.chunkId)|
    ensures Represents(cfg, Run(s, WriteSpan(cfg, s, sp, data).value), Put(v, start, SpanData(sp, data))) <==>
              && RoomEnough(cfg, s, sp, v)
              && (FreshEnough(cfg, s, sp)
                  || Fills(Look(s, sp.chunkId).Image(cfg.geo.ChunkLen(sp.chunkId)),
                           NewPart(v, cfg.geo, sp, SpanData(sp, data))))
  {
    PartOfSpan(v, cfg.geo, sp, start);
    hide Represents, Run, Commit, Prepare, Put, Fills, WriteSpan, Fetch, RoomFor, IsFull, Resident, RestIsZero, Look,
         NotStale, FreshEnough, HasRoom, NewPart, ReadyFor;
    WriteSpanIs(cfg, s, sp, data);
    var a := Prepare(cfg, s, sp).value;
    var s1 := Run(s, a);
    PreparedLook(cfg, s, sp, v);
    PreparedFresh(cfg, s, sp, v);
    HasRoomIs(cfg, s, sp, v);
    RunConcat(s, a, Commit(cfg, s1, sp, SpanData(sp, data)));
    if HasRoom(cfg, s, sp, v) {
      PrepareSafe(cfg, s, sp, start, v);
      CommitExact(cfg, s1, sp, start, SpanData(sp, data), v);
    } else {
      EnsuredRepresents(cfg, s, sp, v);
      NoRoomExact(cfg, s1, sp, start, SpanData(sp, data), v);
    }
  }

  lemma HasRoomIs(cfg: Config, s: State, sp: Span, v: Cells)
    requires Prepare(cfg, s, sp).Ok?
    ensures HasRoom(cfg, s, sp, v) <==>
              || Look(Run(s, Prepare(cfg, s, sp).value), sp.chunkId).file.Some?
              || RestIsZero(Part(v, cfg.geo, sp.chunkId), sp.offsetInChunk, sp.len)
  {
  }

  /** The guard of a span, as a condition on the state before the call. */
  lemma GuardExact(cfg: Config, s: State, sp: Span, v: Cells)
    requires Represents(cfg, s, v) && ClockAhead(s) && Prepare(cfg, s, sp).Ok?
    requires sp.offsetInChunk + sp.len <= |Part(v, cfg.geo, sp.chunkId)|
    ensures SpanGuard(cfg, s, sp, v) <==> RoomEnough(cfg, s, sp, v) && FreshEnough(cfg, s, sp)
  {
    hide Represents, Run, Prepare, Fetch, RoomFor, IsFull, Resident, RestIsZero, Look, NotStale, FreshEnough;
    PreparedLook(cfg, s, sp, v);
    PreparedFresh(cfg, s, sp, v);
    HasRoomIs(cfg, s, sp, v);
  }

  lemma EnsuredRepresents(cfg: Config, s: State, sp: Span, v: Cells)
    requires Represents(cfg, s, v) && Prepare(cfg, s, sp).Ok?
    ensures IsFull(cfg, sp) || Represents(cfg, Run(s, Prepare(cfg, s, sp).value), v)
  {
    if !IsFull(cfg, sp) {
      EnsureTransparent(cfg, s, sp.chunkId, v);
    }
  }
}
