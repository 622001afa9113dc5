/**
 * Files that vanish under a live engine, which is not told: exactly what the next reads return. A chunk
 * whose file was not its only copy is fetched again; a Dirty one is served as the cloud has it.
 */
module LiveLoss {
  import opened Wrappers
  import opened Mapper
  import opened Metadata
  import opened Store
  import opened Volume
  import opened Operations
  import opened Safety
  import opened Transparency
  import opened Recovery
  import opened Runs

  /** What the next access to chunk c reads: its file, or what the cloud has. */
  function Serves(cfg: Config, s: State, c: nat): Result<seq<byte>> {
    if InError(s, c) then Err(Corrupt)
    else if Resident(s, c) then Ok(s.files[c])
    else Fetch(cfg, s, c)
  }

  predicate LostDirty(s: State, gone: set<nat>, c: nat) {
    c in gone && c in s.rows && s.rows[c].state == Dirty
  }

  /**
   * After an undetected loss, what chunk c serves is as promised if and only if it was not a Dirty file that
   * went, or the cloud happens to have what it held.
   */
  lemma ServesExactly(cfg: Config, s: State, gone: set<nat>, c: nat, v: Cells)
    requires Represents(cfg, s, v) && Serves(cfg, LoseFiles(s, gone), c).Ok?
    ensures Fills(Serves(cfg, LoseFiles(s, gone), c).value, Part(v, cfg.geo, c)) <==>
              !LostDirty(s, gone, c) || Fills(Look(s, c).Image(cfg.geo.ChunkLen(c)), Part(v, cfg.geo, c))
  {
    assert ChunkSettled(cfg, s, v, c);
    PartLength(v, cfg.geo, c);
    LookRow(s, c);
  }

  // ---------------------------------------------------------------- the volume that is served

  /** The volume as it reads after the loss: lost Dirty chunks are as the cloud has them. */
  function ServedVolume(cfg: Config, s: State, gone: set<nat>, v: Cells): Cells
    requires cfg.geo.chunk > 0
  {
    seq(|v|, i requires 0 <= i < |v| =>
      if LostDirty(s, gone, i / cfg.geo.chunk) then Some(ByteAt(s.cloud, i / cfg.geo.chunk, i % cfg.geo.chunk))
      else v[i])
  }

  lemma ServedPart(cfg: Config, s: State, gone: set<nat>, v: Cells, c: nat)
    requires cfg.Valid() && |v| == cfg.geo.volume
    ensures |Part(ServedVolume(cfg, s, gone, v), cfg.geo, c)| == |Part(v, cfg.geo, c)| == cfg.geo.ChunkLen(c)
    ensures forall k :: 0 <= k < cfg.geo.ChunkLen(c) ==>
              Part(ServedVolume(cfg, s, gone, v), cfg.geo, c)[k]
              == if LostDirty(s, gone, c) then Some(ByteAt(s.cloud, c, k)) else Part(v, cfg.geo, c)[k]
  {
    hide LostDirty, ByteAt;
    var u, start, n := ServedVolume(cfg, s, gone, v), cfg.geo.Start(c), cfg.geo.ChunkLen(c);
    PartLength(v, cfg.geo, c);
    PartLength(u, cfg.geo, c);
    StartIs(cfg.geo, c);
    forall k | 0 <= k < n
      ensures Part(u, cfg.geo, c)[k]
           == if LostDirty(s, gone, c) then Some(ByteAt(s.cloud, c, k)) else Part(v, cfg.geo, c)[k]
    {
      QuotientUnique(c, k, cfg.geo.chunk);
      assert Part(u, cfg.geo, c)[k] == u[start + k] && Part(v, cfg.geo, c)[k] == v[start + k];
    }
  }

  /** What the chunk serves agrees with p, now and once it is fetched or evicted; or it serves nothing. */
  predicate SlotServes(sl: Slot, p: Cells) {
    && (sl.State() == Clean ==> sl.row.value.hasPath)
    && (sl.State() != ChunkState.Error ==>
          if (sl.State() == Clean || sl.State() == Dirty) && sl.row.value.hasPath && sl.file.Some? then
            Fills(sl.file.value, p) && (sl.State() == Clean ==> Fills(sl.Image(|p|), p))
          else Fills(sl.Image(|p|), p))
  }

  predicate ChunkServes(cfg: Config, s: State, u: Cells, c: nat) { SlotServes(Look(s, c), Part(u, cfg.geo, c)) }

  ghost predicate Serving(cfg: Config, s: State, u: Cells) {
    cfg.Valid() && |u| == cfg.geo.volume && forall c: nat :: ChunkServes(cfg, s, u, c)
  }

  lemma ImageFills(image: seq<byte>, p: Cells)
    requires p != [] ==> |image| <= |p|
    requires forall k :: 0 <= k < |p| ==> p[k] == Some(if k < |image| then image[k] else 0)
    ensures Fills(image, p)
  {
  }

  lemma SamePart(p: Cells, q: Cells)
    requires |p| == |q| && forall k :: 0 <= k < |p| ==> p[k] == q[k]
    ensures p == q
  {
  }

  lemma LossServes(cfg: Config, s: State, gone: set<nat>, v: Cells)
    requires Represents(cfg, s, v)
    ensures Serving(cfg, LoseFiles(s, gone), ServedVolume(cfg, s, gone, v))
  {
    hide ServedVolume;
    var u, s' := ServedVolume(cfg, s, gone, v), LoseFiles(s, gone);
    ServedSize(cfg, s, gone, v);
    forall c: nat
      ensures ChunkServes(cfg, s', u, c)
    {
      assert ChunkSettled(cfg, s, v, c);
      ServedPart(cfg, s, gone, v, c);
      ChunkAfterLoss(cfg, s, gone, v, c);
    }
  }

  lemma ServedSize(cfg: Config, s: State, gone: set<nat>, v: Cells)
    requires cfg.geo.chunk > 0
    ensures |ServedVolume(cfg, s, gone, v)| == |v|
  {
  }

  lemma ChunkAfterLoss(cfg: Config, s: State, gone: set<nat>, v: Cells, c: nat)
    requires cfg.Valid() && |v| == cfg.geo.volume && ChunkSettled(cfg, s, v, c)
    ensures ChunkServes(cfg, LoseFiles(s, gone), ServedVolume(cfg, s, gone, v), c)
  {
    hide ServedVolume, Part, Fills;
    var p, q := Part(v, cfg.geo, c), Part(ServedVolume(cfg, s, gone, v), cfg.geo, c);
    ServedPart(cfg, s, gone, v, c);
    LookRow(s, c);
    assert Look(LoseFiles(s, gone), c) == if c in gone then Look(s, c).(file := None) else Look(s, c);
    if LostDirty(s, gone, c) {
      var image := Look(s, c).Image(|q|);
      assert forall k :: 0 <= k < |q| ==> ByteAt(s.cloud, c, k) == if k < |image| then image[k] else 0;
      ImageFills(image, q);
    } else {
      SamePart(p, q);
    }
  }

  // ---------------------------------------------------------------- reading it

  lemma SlotEvicted(a: Slot, b: Slot, p: Cells)
    requires SlotServes(a, p) && UntouchedOrEvicted(a, b)
    ensures SlotServes(b, p)
  {
  }

  lemma EvictServes(cfg: Config, s: State, u: Cells, d: nat)
    requires Serving(cfg, s, u)
    ensures UntouchedOrEvicted(Look(s, d), Look(Run(s, Evict(cfg, s)), d))
    ensures ChunkServes(cfg, Run(s, Evict(cfg, s)), u, d)
  {
    hide Fills, Part;
    assert ChunkServes(cfg, s, u, d);
    if CachedBytes(s.rows) > cfg.cacheMax {
      var list := EvictableCleanChunks(s.rows);
      forall c | c in list
        ensures c in s.rows && s.rows[c].state == Clean && s.rows[c].hasPath
      {
        assert ChunkServes(cfg, s, u, c);
      }
      EvictListTouches(cfg, s, list, CachedBytes(s.rows), d);
    }
    SlotEvicted(Look(s, d), Look(Run(s, Evict(cfg, s)), d), Part(u, cfg.geo, d));
  }

  lemma FetchServes(cfg: Config, s: State, u: Cells, c: nat)
    requires Serving(cfg, s, u) && !InError(s, c) && !Resident(s, c) && Fetch(cfg, s, c).Ok?
    ensures var s1 := Run(s, FetchTrace(cfg, s, c, Fetch(cfg, s, c).value));
            && Serving(cfg, s1, u) && Resident(s1, c)
            && s1.files[c] == Fetch(cfg, s, c).value && Fills(s1.files[c], Part(u, cfg.geo, c))
  {
    hide Fills, Part;
    var data := Fetch(cfg, s, c).value;
    var t := FetchTrace(cfg, s, c, data);
    var s1 := Run(s, t);
    AfterFetch(cfg, s, c, data);
    LookRow(s1, c);
    PartLength(u, cfg.geo, c);
    assert ChunkServes(cfg, s, u, c);
    FetchIsImage(cfg, s, c);
    forall d: nat
      ensures ChunkServes(cfg, s1, u, d)
    {
      assert ChunkServes(cfg, s, u, d);
      LookAfterRun(s, t, c, d);
    }
  }

  lemma FetchIsImage(cfg: Config, s: State, c: nat)
    requires Fetch(cfg, s, c).Ok?
    ensures Fetch(cfg, s, c).value == Look(s, c).Image(cfg.geo.ChunkLen(c))
  {
  }

  /** After `ensure_chunk_for_read` everything still serves, and what is in the chunk's file is right. */
  lemma EnsureServes(cfg: Config, s: State, u: Cells, c: nat)
    requires Serving(cfg, s, u) && Ensure(cfg, s, c).Ok?
    ensures var s1 := Run(s, Ensure(cfg, s, c).value);
            Serving(cfg, s1, u) && (c in s1.files ==> Fills(s1.files[c], Part(u, cfg.geo, c)))
  {
    hide Fills, Part, Evict, ChunkServes, Run, Fetch;
    if Resident(s, c) {
      RunNothing(s);
      ResidentServes(cfg, s, u, c);
    } else {
      var t := FetchTrace(cfg, s, c, Fetch(cfg, s, c).value);
      FetchServes(cfg, s, u, c);
      var s1 := Run(s, t);
      forall d: nat
        ensures ChunkServes(cfg, Run(s1, Evict(cfg, s1)), u, d)
      {
        EvictServes(cfg, s1, u, d);
      }
      EvictServes(cfg, s1, u, c);
      KeptFile(s1, Run(s1, Evict(cfg, s1)), c);
      RunConcat(s, t, Evict(cfg, s1));
    }
  }

  lemma ResidentServes(cfg: Config, s: State, u: Cells, c: nat)
    requires Serving(cfg, s, u) && Resident(s, c)
    ensures Fills(s.files[c], Part(u, cfg.geo, c))
  {
    assert ChunkServes(cfg, s, u, c);
  }

  lemma KeptFile(a: State, b: State, c: nat)
    requires UntouchedOrEvicted(Look(a, c), Look(b, c))
    ensures c in b.files ==> c in a.files && b.files[c] == a.files[c]
  {
    var x, y := Look(a, c), Look(b, c);
    assert x.file == FileOf(a, c) && y.file == FileOf(b, c);
  }

  lemma TouchServes(cfg: Config, s: State, u: Cells, c: nat)
    requires Serving(cfg, s, u)
    ensures Serving(cfg, Run(s, Touch(s, c)), u)
  {
    hide Fills, Part;
    RunNothing(s);
    if c in s.rows {
      var e := Touch(s, c)[0];
      RunOne(s, e);
      forall d: nat
        ensures ChunkServes(cfg, Apply(s, e), u, d)
      {
        assert ChunkServes(cfg, s, u, d);
        LookAfter(s, e, d);
      }
    }
  }

  /** The state in which a read goes on after its first span. */
  ghost function Next(cfg: Config, s: State, c: nat): State
    requires Ensure(cfg, s, c).Ok?
  {
    Run(Run(s, Ensure(cfg, s, c).value), Touch(Run(s, Ensure(cfg, s, c).value), c))
  }

  lemma ReadFirst(cfg: Config, s: State, spans: seq<Span>)
    requires spans != [] && ReadSpans(cfg, s, spans).result.Ok?
    ensures Ensure(cfg, s, spans[0].chunkId).Ok?
    ensures var sp, s1 := spans[0], Run(s, Ensure(cfg, s, spans[0].chunkId).value);
            && sp.chunkId in s1.files && |s1.files[sp.chunkId]| >= sp.offsetInChunk + sp.len
            && var rest := ReadSpans(cfg, Next(cfg, s, sp.chunkId), spans[1..]);
            && rest.result.Ok?
            && ReadSpans(cfg, s, spans).result.value
               == s1.files[sp.chunkId][sp.offsetInChunk..sp.offsetInChunk + sp.len] + rest.result.value
  {
    hide Ensure, Touch, Run;
    var c := spans[0].chunkId;
    RunConcat(s, Ensure(cfg, s, c).value, Touch(Run(s, Ensure(cfg, s, c).value), c));
  }

  /** The first span is served, and so is whatever comes next. */
  lemma FirstServed(cfg: Config, s: State, u: Cells, sp: Span, start: nat)
    requires Serving(cfg, s, u) && Lands(sp, start, cfg.geo) && Ensure(cfg, s, sp.chunkId).Ok?
    requires var s1 := Run(s, Ensure(cfg, s, sp.chunkId).value);
             sp.chunkId in s1.files && |s1.files[sp.chunkId]| >= sp.offsetInChunk + sp.len
    ensures Serving(cfg, Next(cfg, s, sp.chunkId), u) && start + sp.len <= |u|
    ensures var file := Run(s, Ensure(cfg, s, sp.chunkId).value).files[sp.chunkId];
            Agrees(file[sp.offsetInChunk..sp.offsetInChunk + sp.len], u[start..start + sp.len])
  {
    hide Ensure, Touch, Run, Serving, Fills, Part, Agrees;
    var c, s1 := sp.chunkId, Run(s, Ensure(cfg, s, sp.chunkId).value);
    EnsureServes(cfg, s, u, c);
    TouchServes(cfg, s1, u, c);
    ServingSize(cfg, s, u);
    PartOfSpan(u, cfg.geo, sp, start);
    FillsSlice(s1.files[c], Part(u, cfg.geo, c), sp.offsetInChunk, sp.len);
  }

  lemma {:induction false} ReadSpansServe(cfg: Config, s: State, u: Cells, spans: seq<Span>, start: nat, len: nat,
        requestOffset: nat)
    requires Serving(cfg, s, u) && Covers(spans, start, len, cfg.geo, requestOffset) && start + len <= |u|
    requires ReadSpans(cfg, s, spans).result.Ok?
    ensures Agrees(ReadSpans(cfg, s, spans).result.value, u[start..start + len])
    decreases |spans|
  {
    hide Ensure, Run, Next, ReadSpans, Serving, Agrees;
    if spans == [] {
      NothingRead(cfg, s, u, start);
    } else {
      var sp, c := spans[0], spans[0].chunkId;
      ReadFirst(cfg, s, spans);
      FirstServed(cfg, s, u, sp, start);
      var got := Run(s, Ensure(cfg, s, c).value).files[c][sp.offsetInChunk..sp.offsetInChunk + sp.len];
      var rest := ReadSpans(cfg, Next(cfg, s, c), spans[1..]).result.value;
      ReadSpansServe(cfg, Next(cfg, s, c), u, spans[1..], start + sp.len, len - sp.len, requestOffset + sp.len);
      AgreesConcat(got, rest, u[start..start + sp.len], u[start + sp.len..start + len]);
      assert u[start..start + sp.len] + u[start + sp.len..start + len] == u[start..start + len];
    }
  }

  lemma NothingRead(cfg: Config, s: State, u: Cells, start: nat)
    requires start <= |u|
    ensures ReadSpans(cfg, s, []).result.Ok? ==> Agrees(ReadSpans(cfg, s, []).result.value, u[start..start])
  {
  }

  lemma ServingSize(cfg: Config, s: State, u: Cells)
    requires Serving(cfg, s, u)
    ensures cfg.Valid() && |u| == cfg.geo.volume
  {
  }

  /** Every lost Dirty byte of the range that was promised is as the cloud has it. */
  predicate CloudHasIt(cfg: Config, s: State, gone: set<nat>, offset: nat, len: nat, v: Cells)
    requires cfg.geo.chunk > 0 && offset + len <= |v|
  {
    forall i :: offset <= i < offset + len && v[i].Some? && LostDirty(s, gone, i / cfg.geo.chunk) ==>
      v[i].value == ByteAt(s.cloud, i / cfg.geo.chunk, i % cfg.geo.chunk)
  }

  /**
   * A read after an undetected loss, exactly: what a successful read returns is as promised if and only
   * if no byte of the range was in a lost Dirty file, but for those that the cloud happens to have.
   */
  lemma ReadsExactly(cfg: Config, s: State, gone: set<nat>, offset: nat, len: nat, v: Cells)
    requires Represents(cfg, s, v) && Read(cfg, LoseFiles(s, gone), offset, len).result.Ok?
    ensures cfg.Valid() && offset + len <= |v|
    ensures Agrees(Read(cfg, LoseFiles(s, gone), offset, len).result.value, v[offset..offset + len]) <==>
              CloudHasIt(cfg, s, gone, offset, len, v)
  {
    hide Represents, Serving, ReadSpans, Covers, LostDirty, ByteAt, Agrees, ServedVolume;
    RepresentsSize(cfg, s, v);
    var u, s' := ServedVolume(cfg, s, gone, v), LoseFiles(s, gone);
    ServedSize(cfg, s, gone, v);
    SpansCover(offset, len, cfg.geo);
    LossServes(cfg, s, gone, v);
    ReadSpansServe(cfg, s', u, Spans(offset, len, cfg.geo).value, offset, len, 0);
    ServedAgrees(cfg, s, gone, offset, len, v, Read(cfg, s', offset, len).result.value);
  }

  lemma ServedAgrees(cfg: Config, s: State, gone: set<nat>, offset: nat, len: nat, v: Cells, got: seq<byte>)
    requires cfg.geo.chunk > 0 && offset + len <= |v|
    requires |ServedVolume(cfg, s, gone, v)| == |v| && Agrees(got, ServedVolume(cfg, s, gone, v)[offset..offset + len])
    ensures Agrees(got, v[offset..offset + len]) <==> CloudHasIt(cfg, s, gone, offset, len, v)
  {
    hide LostDirty, ByteAt;
    var u := ServedVolume(cfg, s, gone, v);
    var x, y := u[offset..offset + len], v[offset..offset + len];
    forall k | 0 <= k < len
      ensures x[k] == u[offset + k] && y[k] == v[offset + k]
      ensures x[k].Some? ==> x[k].value == got[k]
    {
    }
    if Agrees(got, y) {
      forall i | offset <= i < offset + len && v[i].Some? && LostDirty(s, gone, i / cfg.geo.chunk)
        ensures v[i].value == ByteAt(s.cloud, i / cfg.geo.chunk, i % cfg.geo.chunk)
      {
        assert x[i - offset] == u[i] && y[i - offset] == v[i];
      }
    }
    if CloudHasIt(cfg, s, gone, offset, len, v) {
      forall k | 0 <= k < len && y[k].Some?
        ensures y[k].value == got[k]
      {
        assert x[k] == u[offset + k] && y[k] == v[offset + k];
      }
    }
  }
}
