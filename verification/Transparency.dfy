/**
 * Operations that do not write: eviction, fetching, reading, syncing, and recovering. At every
 * effect of theirs the state stays recoverable to the same volume, and they end with a state that
 * represents it.
 */
module Transparency {
  import opened Wrappers
  import opened Mapper
  import opened Metadata
  import opened Store
  import opened Volume
  import opened Operations
  import opened Safety

  /** What an operation that leaves the volume alone guarantees, cut short or not. */
  ghost predicate Transparent(cfg: Config, s: State, t: seq<Effect>, v: Cells) {
    Throughout(cfg, s, t, v) && Represents(cfg, Run(s, t), v)
  }

  lemma NothingIsTransparent(cfg: Config, s: State, v: Cells)
    requires Represents(cfg, s, v)
    ensures Transparent(cfg, s, [], v)
  {
    SettledIsSafe(cfg, s, v);
  }

  lemma TransparentConcat(cfg: Config, s: State, a: seq<Effect>, b: seq<Effect>, v: Cells)
    requires Transparent(cfg, s, a, v) && Transparent(cfg, Run(s, a), b, v)
    ensures Transparent(cfg, s, a + b, v)
  {
    ThroughoutConcat(cfg, s, a, b, v);
    RunConcat(s, a, b);
  }

  /** A short trace about one chunk, judged on that chunk's slot alone. */
  lemma OneChunkTransparent(cfg: Config, s: State, t: seq<Effect>, v: Cells, c: nat)
    requires Represents(cfg, s, v) && About(t, c)
    requires SafeAlong(Look(s, c), t, Part(v, cfg.geo, c))
    requires SlotSettled(RunAt(Look(s, c), t), Part(v, cfg.geo, c))
    ensures Transparent(cfg, s, t, v)
  {
    SettledIsSafe(cfg, s, v);
    OneChunk(cfg, s, t, v, c);
    OneChunkSettles(cfg, s, t, v, c, v);
  }

  lemma Elsewhere(s: State, t: seq<Effect>, c: nat, d: nat)
    requires About(t, c) && d != c
    ensures RowOf(Run(s, t), d) == RowOf(s, d) && FileOf(Run(s, t), d) == FileOf(s, d)
    ensures d in Run(s, t).rows <==> d in s.rows
    ensures d in s.rows ==> Run(s, t).rows[d] == s.rows[d]
    ensures d in Run(s, t).files <==> d in s.files
    ensures d in s.files ==> Run(s, t).files[d] == s.files[d]
    ensures Look(Run(s, t), d) == Look(s, d)
  {
    LookAfterRun(s, t, c, d);
    var a, b := Look(Run(s, t), d), Look(s, d);
    assert a.row == b.row && a.file == b.file;
  }

  // ---------------------------------------------------------------- eviction

  lemma EvictSlot(sl: Slot, p: Cells, now: nat)
    requires SlotSettled(sl, p) && sl.State() == Clean
    ensures var row := EvictedRow(sl.row.value, now);
            forall c: nat ::
              && SafeAlong(sl, [RemoveFile(c), Upsert(c, row)], p)
              && SlotSettled(RunAt(sl, [RemoveFile(c), Upsert(c, row)]), p)
              && (sl.file.None? ==> SafeAlong(sl, [Upsert(c, row)], p) && SlotSettled(RunAt(sl, [Upsert(c, row)]), p))
  {
    var row := EvictedRow(sl.row.value, now);
    forall c: nat
      ensures SafeAlong(sl, [RemoveFile(c), Upsert(c, row)], p)
      ensures SlotSettled(RunAt(sl, [RemoveFile(c), Upsert(c, row)]), p)
      ensures sl.file.None? ==> SafeAlong(sl, [Upsert(c, row)], p) && SlotSettled(RunAt(sl, [Upsert(c, row)]), p)
    {
      AlongTwo(sl, RemoveFile(c), Upsert(c, row), p);
      if sl.file.None? {
        AlongStep(sl, Upsert(c, row), p);
      }
    }
  }

  lemma {:induction false} EvictListTransparent(cfg: Config, s: State, list: seq<nat>, cached: nat, v: Cells)
    requires Represents(cfg, s, v)
    requires forall c :: c in list ==> c in s.rows && s.rows[c].state == Clean
    requires forall i, j :: 0 <= i < j < |list| ==> list[i] != list[j]
    ensures Transparent(cfg, s, EvictList(cfg, s, list, cached), v)
    decreases list
  {
    NothingIsTransparent(cfg, s, v);
    if list != [] && cached > cfg.low {
      var c := list[0];
      var one := EvictOne(s, c);
      assert ChunkSettled(cfg, s, v, c);
      EvictSlot(Look(s, c), Part(v, cfg.geo, c), s.clock);
      var row := EvictedRow(s.rows[c], s.clock);
      assert one == if c in s.files then [RemoveFile(c), Upsert(c, row)] else [Upsert(c, row)];
      OneChunkTransparent(cfg, s, one, v, c);
      forall d | d in list[1..]
        ensures d in Run(s, one).rows && Run(s, one).rows[d].state == Clean
      {
        assert d in list && d != c;
        Elsewhere(s, one, c, d);
      }
      EvictListTransparent(cfg, Run(s, one), list[1..], SaturatingSub(cached, s.rows[c].size), v);
      TransparentConcat(cfg, s, one, EvictList(cfg, Run(s, one), list[1..], SaturatingSub(cached, s.rows[c].size)), v);
    }
  }

  /** Crash transparency of `evict_if_needed`. */
  lemma EvictTransparent(cfg: Config, s: State, v: Cells)
    requires Represents(cfg, s, v)
    ensures Transparent(cfg, s, Evict(cfg, s), v)
  {
    NothingIsTransparent(cfg, s, v);
    if CachedBytes(s.rows) > cfg.cacheMax {
      EvictListTransparent(cfg, s, EvictableCleanChunks(s.rows), CachedBytes(s.rows), v);
    }
  }

  /** Eviction leaves a slot alone, or turns it from Clean into Missing without a file, keeping its generation. */
  ghost predicate UntouchedOrEvicted(a: Slot, b: Slot) {
    || b == a
    || (&& a.State() == Clean && b.State() == Missing && b.file.None?
        && b == a.(file := None, row := b.row) && b.Gen() == a.Gen())
  }

  lemma {:induction false} EvictListTouches(cfg: Config, s: State, list: seq<nat>, cached: nat, d: nat)
    requires forall c :: c in list ==> c in s.rows && s.rows[c].state == Clean && (s.rows[c].hasPath || c !in s.files)
    requires forall i, j :: 0 <= i < j < |list| ==> list[i] != list[j]
    ensures UntouchedOrEvicted(Look(s, d), Look(Run(s, EvictList(cfg, s, list, cached)), d))
    ensures d !in list ==> Look(s, d) == Look(Run(s, EvictList(cfg, s, list, cached)), d)
    decreases list
  {
    if list != [] && cached > cfg.low {
      var c := list[0];
      var one := EvictOne(s, c);
      assert About(one, c);
      var s1 := Run(s, one);
      forall x | x in list[1..]
        ensures x in s1.rows && s1.rows[x].state == Clean && (s1.rows[x].hasPath || x !in s1.files)
      {
        assert x in list && x != c;
        Elsewhere(s, one, c, x);
      }
      EvictListTouches(cfg, s1, list[1..], SaturatingSub(cached, s.rows[c].size), d);
      RunConcat(s, one, EvictList(cfg, s1, list[1..], SaturatingSub(cached, s.rows[c].size)));
      if d == c {
        EvictOneLook(s, c);
        assert c !in list[1..];
      } else {
        Elsewhere(s, one, c, d);
      }
    }
  }

  lemma EvictOneLook(s: State, c: nat)
    requires c in s.rows && s.rows[c].state == Clean && (s.rows[c].hasPath || c !in s.files)
    ensures Look(Run(s, EvictOne(s, c)), c) == Look(s, c).(file := None, row := Some(EvictedRow(s.rows[c], s.clock)))
  {
    var up := Upsert(c, EvictedRow(s.rows[c], s.clock));
    if s.rows[c].hasPath && c in s.files {
      assert EvictOne(s, c) == [RemoveFile(c)] + [up];
      RunConcat(s, [RemoveFile(c)], [up]);
      RunOne(s, RemoveFile(c));
      LookAfter(s, RemoveFile(c), c);
      RunOne(Apply(s, RemoveFile(c)), up);
      LookAfter(Apply(s, RemoveFile(c)), up, c);
    } else {
      assert EvictOne(s, c) == [up];
      RunOne(s, up);
      LookAfter(s, up, c);
    }
  }

  lemma EvictTouches(cfg: Config, s: State, d: nat, v: Cells)
    requires Represents(cfg, s, v)
    ensures UntouchedOrEvicted(Look(s, d), Look(Run(s, Evict(cfg, s)), d))
    ensures d !in EvictableIds(s.rows) ==> Look(s, d) == Look(Run(s, Evict(cfg, s)), d)
  {
    if CachedBytes(s.rows) > cfg.cacheMax {
      var list := EvictableCleanChunks(s.rows);
      forall c | c in list
        ensures c in s.rows && s.rows[c].state == Clean && s.rows[c].hasPath
      {
        assert ChunkSettled(cfg, s, v, c);
      }
      EvictListTouches(cfg, s, list, CachedBytes(s.rows), d);
    }
  }

  // ---------------------------------------------------------------- fetching and reading

  lemma AfterFetch(cfg: Config, s: State, c: nat, data: seq<byte>)
    ensures Look(Run(s, FetchTrace(cfg, s, c, data)), c)
         == Look(s, c).(file := Some(data), row := Some(FetchedRow(cfg, s, c, data)))
  {
    var t := FetchTrace(cfg, s, c, data);
    RunTwo(s, t[0], t[1]);
    LookAfter(s, t[0], c);
    LookAfter(Apply(s, t[0]), t[1], c);
  }

  lemma FetchTransparent(cfg: Config, s: State, c: nat, v: Cells)
    requires Represents(cfg, s, v)
    requires RowOf(s, c).Some? ==> s.rows[c].state != ChunkState.Error
    requires !Resident(s, c) && Fetch(cfg, s, c).Ok?
    ensures Transparent(cfg, s, FetchTrace(cfg, s, c, Fetch(cfg, s, c).value), v)
  {
    var data := Fetch(cfg, s, c).value;
    var t := FetchTrace(cfg, s, c, data);
    var sl, p := Look(s, c), Part(v, cfg.geo, c);
    assert ChunkSettled(cfg, s, v, c);
    PartLength(v, cfg.geo, c);
    assert c in s.cloud ==> data == s.cloud[c];
    assert data == sl.Image(|p|) && Fills(data, p);
    AlongTwo(sl, t[0], t[1], p);
    OneChunkTransparent(cfg, s, t, v, c);
  }

  /** Crash transparency of `ensure_chunk_for_read`, the eviction it triggers included. */
  lemma EnsureTransparent(cfg: Config, s: State, c: nat, v: Cells)
    requires Represents(cfg, s, v) && Ensure(cfg, s, c).Ok?
    ensures Transparent(cfg, s, Ensure(cfg, s, c).value, v)
  {
    if Resident(s, c) {
      NothingIsTransparent(cfg, s, v);
    } else {
      FetchTransparent(cfg, s, c, v);
      var t := FetchTrace(cfg, s, c, Fetch(cfg, s, c).value);
      EvictTransparent(cfg, Run(s, t), v);
      TransparentConcat(cfg, s, t, Evict(cfg, Run(s, t)), v);
    }
  }

  /**
   * Where `ensure_chunk_for_read` leaves its own chunk: as it was, if resident; else freshly
   * fetched, Clean and with generation 0, unless the eviction that follows takes it away again.
   */
  lemma EnsureLook(cfg: Config, s: State, c: nat, v: Cells)
    requires Represents(cfg, s, v) && Ensure(cfg, s, c).Ok?
    ensures var s1 := Run(s, Ensure(cfg, s, c).value);
            if Resident(s, c) then s1 == s
            else UntouchedOrEvicted(
                   Look(s, c).(file := Some(Fetch(cfg, s, c).value),
                               row := Some(FetchedRow(cfg, s, c, Fetch(cfg, s, c).value))),
                   Look(s1, c))
  {
    if !Resident(s, c) {
      var data := Fetch(cfg, s, c).value;
      var t := FetchTrace(cfg, s, c, data);
      FetchTransparent(cfg, s, c, v);
      AfterFetch(cfg, s, c, data);
      EvictTouches(cfg, Run(s, t), c, v);
      RunConcat(s, t, Evict(cfg, Run(s, t)));
    }
  }

  /** After `ensure_chunk_for_read`, a chunk whose file is there is resident, and its file is as promised. */
  lemma EnsuredFileAgrees(cfg: Config, s: State, c: nat, v: Cells)
    requires Represents(cfg, s, v) && Ensure(cfg, s, c).Ok?
    ensures var s1 := Run(s, Ensure(cfg, s, c).value);
            c in s1.files ==> Resident(s1, c) && Fills(s1.files[c], Part(v, cfg.geo, c))
  {
    var s1 := Run(s, Ensure(cfg, s, c).value);
    EnsureLook(cfg, s, c, v);
    EnsureTransparent(cfg, s, c, v);
    assert ChunkSettled(cfg, s1, v, c);
    var sl := Look(s1, c);
    assert sl.row == RowOf(s1, c) && sl.file == FileOf(s1, c);
  }

  lemma TouchTransparent(cfg: Config, s: State, c: nat, v: Cells)
    requires Represents(cfg, s, v)
    ensures Transparent(cfg, s, Touch(s, c), v)
  {
    NothingIsTransparent(cfg, s, v);
    var t := Touch(s, c);
    if t != [] {
      assert ChunkSettled(cfg, s, v, c);
      assert t[1..] == [];
      assert SlotSettled(ApplyAt(Look(s, c), t[0]), Part(v, cfg.geo, c));
      OneChunkTransparent(cfg, s, t, v, c);
    }
  }

  lemma ReadOneTransparent(cfg: Config, s: State, c: nat, v: Cells)
    requires Represents(cfg, s, v) && Ensure(cfg, s, c).Ok?
    ensures var t := Ensure(cfg, s, c).value; Transparent(cfg, s, t + Touch(Run(s, t), c), v)
  {
    var t := Ensure(cfg, s, c).value;
    EnsureTransparent(cfg, s, c, v);
    TouchTransparent(cfg, Run(s, t), c, v);
    TransparentConcat(cfg, s, t, Touch(Run(s, t), c), v);
  }

  /** Read one span: the bytes read are bytes that the volume allows there. */
  lemma ReadOneCorrect(cfg: Config, s: State, sp: Span, start: nat, v: Cells)
    requires Represents(cfg, s, v) && Ensure(cfg, s, sp.chunkId).Ok? && Lands(sp, start, cfg.geo)
    ensures start + sp.len <= |v|
    ensures var s1 := Run(s, Ensure(cfg, s, sp.chunkId).value);
            sp.chunkId in s1.files && sp.offsetInChunk + sp.len <= |s1.files[sp.chunkId]| ==>
              Agrees(s1.files[sp.chunkId][sp.offsetInChunk..sp.offsetInChunk + sp.len], v[start..start + sp.len])
  {
    hide Represents, Run, Ensure, Agrees, Fills, Part;
    RepresentsSize(cfg, s, v);
    EnsuredFileAgrees(cfg, s, sp.chunkId, v);
    PartOfSpan(v, cfg.geo, sp, start);
    var s1 := Run(s, Ensure(cfg, s, sp.chunkId).value);
    if sp.chunkId in s1.files {
      if sp.offsetInChunk + sp.len <= |s1.files[sp.chunkId]| {
        FillsSlice(s1.files[sp.chunkId], Part(v, cfg.geo, sp.chunkId), sp.offsetInChunk, sp.len);
      }
    }
  }

  /** Whatever `read_at` returns, it returns bytes that the volume allows there, and changes nothing. */
  ghost predicate ReadOk(cfg: Config, s: State, o: Outcome<seq<byte>>, v: Cells, start: nat, len: nat)
    requires start + len <= |v|
  {
    Transparent(cfg, s, o.trace, v) && (o.result.Ok? ==> Agrees(o.result.value, v[start..start + len]))
  }

  lemma ReadMore(cfg: Config, s: State, t: seq<Effect>, got: seq<byte>, rest: Outcome<seq<byte>>, v: Cells,
        start: nat, take: nat, len: nat)
    requires take <= len && start + len <= |v|
    requires Transparent(cfg, s, t, v) && Agrees(got, v[start..start + take])
    requires ReadOk(cfg, Run(s, t), rest, v, start + take, len - take)
    ensures ReadOk(cfg, s,
                   Outcome(t + rest.trace, if rest.result.Ok? then Ok(got + rest.result.value) else rest.result),
                   v, start, len)
  {
    TransparentConcat(cfg, s, t, rest.trace, v);
    if rest.result.Ok? {
      AgreesConcat(got, rest.result.value, v[start..start + take], v[start + take..start + len]);
      assert v[start..start + take] + v[start + take..start + len] == v[start..start + len];
    }
  }

  lemma {:induction false} ReadSpansCorrect(cfg: Config, s: State, spans: seq<Span>, start: nat, len: nat,
        requestOffset: nat, v: Cells)
    requires Represents(cfg, s, v)
    requires Covers(spans, start, len, cfg.geo, requestOffset) && start + len <= |v|
    ensures ReadOk(cfg, s, ReadSpans(cfg, s, spans), v, start, len)
    decreases spans, 1
  {
    NothingIsTransparent(cfg, s, v);
    if spans != [] && Ensure(cfg, s, spans[0].chunkId).Ok? {
      var sp := spans[0];
      EnsureTransparent(cfg, s, sp.chunkId, v);
      var s1 := Run(s, Ensure(cfg, s, sp.chunkId).value);
      if sp.chunkId in s1.files && |s1.files[sp.chunkId]| >= sp.offsetInChunk + sp.len {
        ReadSpansStep(cfg, s, spans, start, len, requestOffset, v);
      }
    }
  }

  lemma {:induction false} ReadSpansStep(cfg: Config, s: State, spans: seq<Span>, start: nat, len: nat,
        requestOffset: nat, v: Cells)
    requires Represents(cfg, s, v)
    requires Covers(spans, start, len, cfg.geo, requestOffset) && start + len <= |v|
    requires spans != [] && Ensure(cfg, s, spans[0].chunkId).Ok?
    requires var s1, sp := Run(s, Ensure(cfg, s, spans[0].chunkId).value), spans[0];
             sp.chunkId in s1.files && |s1.files[sp.chunkId]| >= sp.offsetInChunk + sp.len
    ensures ReadOk(cfg, s, ReadSpans(cfg, s, spans), v, start, len)
    decreases spans, 0
  {
    hide Ensure, Touch, Run, Transparent, Represents, Listing;
    var sp := spans[0];
    var c := sp.chunkId;
    var s1 := Run(s, Ensure(cfg, s, c).value);
    var got := s1.files[c][sp.offsetInChunk..sp.offsetInChunk + sp.len];
    var t := Ensure(cfg, s, c).value + Touch(s1, c);
    var rest := ReadSpans(cfg, Run(s, t), spans[1..]);
    ReadOneTransparent(cfg, s, c, v);
    ReadOneCorrect(cfg, s, sp, start, v);
    ReadSpansCorrect(cfg, Run(s, t), spans[1..], start + sp.len, len - sp.len, requestOffset + sp.len, v);
    ReadMore(cfg, s, t, got, rest, v, start, sp.len, len);
    assert ReadSpans(cfg, s, spans)
        == Outcome(t + rest.trace, if rest.result.Ok? then Ok(got + rest.result.value) else rest.result);
  }

  lemma ReadCorrect(cfg: Config, s: State, offset: nat, len: nat, v: Cells)
    requires Represents(cfg, s, v)
    ensures Transparent(cfg, s, Read(cfg, s, offset, len).trace, v)
    ensures Read(cfg, s, offset, len).result.Ok? ==>
              offset + len <= |v| && Agrees(Read(cfg, s, offset, len).result.value, v[offset..offset + len])
  {
    var spans := Spans(offset, len, cfg.geo);
    if spans.Ok? {
      SpansCover(offset, len, cfg.geo);
      ReadSpansCorrect(cfg, s, spans.value, offset, len, 0, v);
    } else {
      NothingIsTransparent(cfg, s, v);
    }
  }

  // ---------------------------------------------------------------- sync_dirty

  lemma SyncOneTransparent(cfg: Config, s: State, c: nat, v: Cells)
    requires Represents(cfg, s, v) && c in s.rows && s.rows[c].state == Dirty
    ensures Transparent(cfg, s, SyncOne(cfg, s, c).trace, v)
    ensures SyncOne(cfg, s, c).result.Ok? <==> c !in s.down
    ensures c in s.files && (SyncOne(cfg, s, c).result.Ok? ==> SyncOne(cfg, s, c).result.value == |s.files[c]|)
  {
    var sl, p := Look(s, c), Part(v, cfg.geo, c);
    assert ChunkSettled(cfg, s, v, c);
    var t := SyncOne(cfg, s, c).trace;
    if c in s.down {
      AlongTwo(sl, t[0], t[1], p);
    } else {
      var s2 := ApplyAt(ApplyAt(sl, t[0]), t[1]);
      AlongTwo(s2, t[2], t[3], p);
      AlongCons(ApplyAt(sl, t[0]), t[1], [t[2], t[3]], p);
      AlongCons(sl, t[0], [t[1], t[2], t[3]], p);
      assert t == [t[0]] + [t[1], t[2], t[3]] && [t[1], t[2], t[3]] == [t[1]] + [t[2], t[3]];
    }
    OneChunkTransparent(cfg, s, t, v, c);
  }

  /** The rows still to be synced: Dirty, each listed once. */
  ghost predicate ToSync(s: State, list: seq<nat>) {
    && (forall c :: c in list ==> c in s.rows && s.rows[c].state == Dirty)
    && (forall i, j :: 0 <= i < j < |list| ==> list[i] != list[j])
  }

  lemma DirtyToSync(s: State)
    ensures forall c :: c in DirtyChunks(s.rows) ==> c in s.rows
    ensures ToSync(s, DirtyChunks(s.rows))
  {
  }

  lemma SyncOneLeavesRest(cfg: Config, s: State, list: seq<nat>)
    requires list != [] && ToSync(s, list)
    ensures ToSync(Run(s, SyncOne(cfg, s, list[0]).trace), list[1..])
    ensures forall d :: d in list[1..] ==> Run(s, SyncOne(cfg, s, list[0]).trace).rows[d] == s.rows[d]
  {
    var t := SyncOne(cfg, s, list[0]).trace;
    assert About(t, list[0]);
    forall d | d in list[1..]
      ensures d in Run(s, t).rows && Run(s, t).rows[d] == s.rows[d] && d in s.rows && s.rows[d].state == Dirty
    {
      assert d in list && d != list[0];
      Elsewhere(s, t, list[0], d);
    }
  }

  lemma {:induction false} SyncListTransparent(cfg: Config, s: State, list: seq<nat>, v: Cells)
    requires Represents(cfg, s, v) && ToSync(s, list)
    ensures Transparent(cfg, s, SyncList(cfg, s, list).trace, v)
    decreases list
  {
    NothingIsTransparent(cfg, s, v);
    if list != [] {
      var one := SyncOne(cfg, s, list[0]);
      SyncOneTransparent(cfg, s, list[0], v);
      if one.result.Ok? {
        SyncOneLeavesRest(cfg, s, list);
        SyncListTransparent(cfg, Run(s, one.trace), list[1..], v);
        TransparentConcat(cfg, s, one.trace, SyncList(cfg, Run(s, one.trace), list[1..]).trace, v);
      }
    }
  }

  /** Crash transparency of `sync_dirty`, failed uploads included. */
  lemma SyncTransparent(cfg: Config, s: State, v: Cells)
    requires Represents(cfg, s, v)
    ensures Transparent(cfg, s, Sync(cfg, s).trace, v)
  {
    var u := SyncList(cfg, s, DirtyChunks(s.rows));
    SyncListTransparent(cfg, s, DirtyChunks(s.rows), v);
    if u.result.Ok? {
      EvictTransparent(cfg, Run(s, u.trace), v);
      TransparentConcat(cfg, s, u.trace, Evict(cfg, Run(s, u.trace)), v);
    }
  }

  // ---------------------------------------------------------------- Clean means replaceable

  /** Where every byte is known, two contents are the same up to the zeroes that fill them. */
  lemma FilledContents(b: seq<byte>, g: Geometry, c: nat, x: seq<byte>, y: seq<byte>)
    requires Fills(x, Part(Known(b), g, c)) && Fills(y, Part(Known(b), g, c))
    ensures Overwrite(x, 0, [], |Part(Known(b), g, c)|) == Overwrite(y, 0, [], |Part(Known(b), g, c)|)
  {
    var p := Part(Known(b), g, c);
    forall i | 0 <= i < |p|
      ensures Overwrite(x, 0, [], |p|)[i] == Overwrite(y, 0, [], |p|)[i]
    {
      assert p[i].Some?;
    }
  }

  lemma AlreadyFull(x: seq<byte>, n: nat)
    requires |x| == n
    ensures Overwrite(x, 0, [], n) == x
  {
  }

  /**
   * Clean means replaceable: filled up to the length of the chunk, the file of a Clean chunk is its cloud
   * object, or all zeroes if it has none; evicting it leaves the volume as it was, and a refetch, if it
   * succeeds, brings the same contents back.
   */
  lemma CleanIsReplaceable(cfg: Config, s: State, b: seq<byte>, c: nat)
    requires Represents(cfg, s, Known(b)) && c in s.rows && s.rows[c].state == Clean && c in s.files
    ensures var n := cfg.geo.ChunkLen(c);
            && Overwrite(s.files[c], 0, [], n) == Overwrite(ObjectOf(s, c).GetOr(Zeroes(n)), 0, [], n)
            && var s1 := Run(s, EvictOne(s, c));
            && Represents(cfg, s1, Known(b))
            && (Fetch(cfg, s1, c).Ok? ==> Fetch(cfg, s1, c).value == Overwrite(s.files[c], 0, [], n))
  {
    var p := Part(Known(b), cfg.geo, c);
    PartLength(Known(b), cfg.geo, c);
    assert ChunkSettled(cfg, s, Known(b), c);
    FilledContents(b, cfg.geo, c, s.files[c], Look(s, c).Image(|p|));
    EvictSlot(Look(s, c), p, s.clock);
    OneChunkTransparent(cfg, s, EvictOne(s, c), Known(b), c);
    EvictOneLook(s, c);
    var s1 := Run(s, EvictOne(s, c));
    assert Look(s1, c).remote == ObjectOf(s1, c) == ObjectOf(s, c);
    if Fetch(cfg, s1, c).Ok? {
      AlreadyFull(Fetch(cfg, s1, c).value, |p|);
    }
  }
}
