/**
 * What a successful `sync_dirty` buys: every Dirty chunk is in the cloud, and the local cache can be
 * lost, file by file or as a whole.
 */
module Durability {
  import opened Wrappers
  import opened Mapper
  import opened Metadata
  import opened Store
  import opened Volume
  import opened Operations
  import opened Safety
  import opened Transparency
  import opened Recovery
  import opened Eviction
  import opened Runs

  // ---------------------------------------------------------------- sync_dirty

  /** The chunk's row, and what it holds, after its upload. */
  predicate Uploaded(s: State, s': State, c: nat) {
    && c in s'.rows && s'.rows[c].state == Clean
    && c in s.files && c in s'.cloud && s'.cloud[c] == s.files[c]
  }

  lemma DirtyHasFile(cfg: Config, s: State, c: nat, v: Cells)
    requires Represents(cfg, s, v) && c in s.rows && s.rows[c].state == Dirty
    ensures c in s.files && s.rows[c].hasPath
  {
    assert ChunkSettled(cfg, s, v, c);
    LookRow(s, c);
  }

  lemma SyncOneUploads(cfg: Config, s: State, c: nat, v: Cells)
    requires Represents(cfg, s, v) && c in s.rows && s.rows[c].state == Dirty && c !in s.down
    ensures Uploaded(s, Run(s, SyncOne(cfg, s, c).trace), c)
  {
    hide Run, Fills, Represents;
    var t := SyncOne(cfg, s, c).trace;
    DirtyHasFile(cfg, s, c, v);
    RunFour(s, t[0], t[1], t[2], t[3]);
    assert t == [t[0], t[1], t[2], t[3]];
  }

  /** The rows, with the sizes that their files really have. */
  function OnDisk(s: State): Table {
    map c | c in s.rows :: s.rows[c].(size := if c in s.files then |s.files[c]| else 0)
  }

  /** The bytes in the files of the Dirty chunks. */
  ghost function SyncCount(s: State): nat {
    assert OnDisk(s).Keys == s.rows.Keys;
    Bytes(OnDisk(s), DirtyIds(s.rows))
  }

  lemma OnDiskSize(s: State, c: nat)
    requires c in s.rows
    ensures OnDisk(s).Keys == s.rows.Keys
    ensures OnDisk(s)[c].size == if c in s.files then |s.files[c]| else 0
  {
  }

  /** Where the rows have their sizes right, these are the same. */
  lemma OnDiskBytes(s: State, ids: set<nat>)
    requires ids <= s.rows.Keys && forall c :: c in ids ==> c in s.files && s.rows[c].size == |s.files[c]|
    ensures OnDisk(s).Keys == s.rows.Keys && Bytes(OnDisk(s), ids) == Bytes(s.rows, ids)
  {
    BytesSame(OnDisk(s), s.rows, ids);
  }

  /** Uploading the list returns the bytes of its files, and leaves no row of it Dirty. */
  ghost predicate SyncListOk(cfg: Config, s: State, list: seq<nat>)
    requires forall c :: c in list ==> c in s.rows
  {
    var o := SyncList(cfg, s, list);
    && (o.result.Ok? <==> forall c :: c in list ==> c !in s.down)
    && (o.result.Ok? ==>
          && o.result.value == Freed(OnDisk(s), list, |list|)
          && (forall c :: c in list ==> c in Run(s, o.trace).rows && Run(s, o.trace).rows[c].state == Clean)
          && (forall c :: c !in list ==> RowOf(Run(s, o.trace), c) == RowOf(s, c)))
  }

  lemma SyncOneElsewhere(cfg: Config, s: State, c: nat)
    requires c in s.rows && SyncOne(cfg, s, c).result.Ok?
    ensures var s1 := Run(s, SyncOne(cfg, s, c).trace);
            && s1.down == s.down
            && forall d :: d != c ==> RowOf(s1, d) == RowOf(s, d) && FileOf(s1, d) == FileOf(s, d)
  {
    var t := SyncOne(cfg, s, c).trace;
    assert About(t, c);
    forall d: nat | d != c
      ensures RowOf(Run(s, t), d) == RowOf(s, d) && FileOf(Run(s, t), d) == FileOf(s, d)
    {
      Elsewhere(s, t, c, d);
    }
  }

  lemma RowsOfRest(s: State, s1: State, list: seq<nat>)
    requires list != [] && ToSync(s, list)
    requires forall d :: d != list[0] ==> RowOf(s1, d) == RowOf(s, d)
    ensures forall d :: d in list[1..] ==> d in s.rows && d in s1.rows && s1.rows[d] == s.rows[d]
  {
    forall d | d in list[1..]
      ensures d in s.rows && d in s1.rows && s1.rows[d] == s.rows[d]
    {
      assert d in list && d != list[0] && RowOf(s1, d) == RowOf(s, d);
    }
  }

  lemma SizesOfRest(s: State, s1: State, list: seq<nat>)
    requires list != [] && list[0] !in list[1..] && forall c :: c in list ==> c in s.rows
    requires forall d :: d != list[0] ==> RowOf(s1, d) == RowOf(s, d) && FileOf(s1, d) == FileOf(s, d)
    ensures forall d :: d in list[1..] ==> d in OnDisk(s1) && d in OnDisk(s) && OnDisk(s1)[d].size == OnDisk(s)[d].size
  {
    forall d | d in list[1..]
      ensures d in OnDisk(s1) && d in OnDisk(s) && OnDisk(s1)[d].size == OnDisk(s)[d].size
    {
      assert d in list && d != list[0] && RowOf(s1, d) == RowOf(s, d) && FileOf(s1, d) == FileOf(s, d);
    }
  }

  lemma ToSyncListed(s: State, list: seq<nat>)
    requires ToSync(s, list)
    ensures forall c :: c in list ==> c in s.rows
    ensures list != [] ==> list[0] !in list[1..]
  {
  }

  lemma SyncListCons(cfg: Config, s: State, list: seq<nat>)
    requires list != [] && ToSync(s, list) && SyncOne(cfg, s, list[0]).result.Ok?
    requires list[0] !in s.down && list[0] in s.files && SyncOne(cfg, s, list[0]).result.value == |s.files[list[0]]|
    requires ToSync(Run(s, SyncOne(cfg, s, list[0]).trace), list[1..])
    requires var s1 := Run(s, SyncOne(cfg, s, list[0]).trace);
             && list[0] in s1.rows && s1.rows[list[0]].state == Clean && s1.down == s.down
             && (forall d :: d != list[0] ==> RowOf(s1, d) == RowOf(s, d) && FileOf(s1, d) == FileOf(s, d))
             && SyncListOk(cfg, s1, list[1..])
    ensures SyncListOk(cfg, s, list)
  {
    hide SyncOne, Run, SyncList, Freed, ToSync, OnDisk;
    ToSyncListed(s, list);
    OnDiskSize(s, list[0]);
    var one := SyncOne(cfg, s, list[0]);
    var s1 := Run(s, one.trace);
    SyncListUnfold(cfg, s, list);
    RunConcat(s, one.trace, SyncList(cfg, s1, list[1..]).trace);
    RowsOfRest(s, s1, list);
    assert forall c :: c in list <==> c == list[0] || c in list[1..];
    if SyncList(cfg, s1, list[1..]).result.Ok? {
      SizesOfRest(s, s1, list);
      FreedShift(OnDisk(s), OnDisk(s1), list, |list|);
      RowsAfterRest(s, s1, Run(s1, SyncList(cfg, s1, list[1..]).trace), list);
    }
  }

  lemma RowsAfterRest(s: State, s1: State, s': State, list: seq<nat>)
    requires list != [] && list[0] !in list[1..]
    requires list[0] in s1.rows && s1.rows[list[0]].state == Clean
    requires forall d :: d != list[0] ==> RowOf(s1, d) == RowOf(s, d)
    requires forall c :: c in list[1..] ==> c in s'.rows && s'.rows[c].state == Clean
    requires forall c :: c !in list[1..] ==> RowOf(s', c) == RowOf(s1, c)
    ensures forall c :: c in list ==> c in s'.rows && s'.rows[c].state == Clean
    ensures forall c :: c !in list ==> RowOf(s', c) == RowOf(s, c)
  {
    assert RowOf(s', list[0]) == RowOf(s1, list[0]);
    assert forall c :: c in list <==> c == list[0] || c in list[1..];
  }

  lemma SyncListUnfold(cfg: Config, s: State, list: seq<nat>)
    requires list != [] && ToSync(s, list) && SyncOne(cfg, s, list[0]).result.Ok?
    requires ToSync(Run(s, SyncOne(cfg, s, list[0]).trace), list[1..])
    ensures var one := SyncOne(cfg, s, list[0]);
            var rest := SyncList(cfg, Run(s, one.trace), list[1..]);
            SyncList(cfg, s, list)
            == Outcome(one.trace + rest.trace,
                       if rest.result.Ok? then Ok(one.result.value + rest.result.value) else rest.result)
  {
    hide SyncOne, Run;
  }

  lemma {:induction false} SyncListCorrect(cfg: Config, s: State, list: seq<nat>, v: Cells)
    requires Represents(cfg, s, v) && ToSync(s, list)
    ensures SyncListOk(cfg, s, list)
    decreases list
  {
    if list != [] {
      SyncOneTransparent(cfg, s, list[0], v);
      if list[0] !in s.down {
        SyncOneUploads(cfg, s, list[0], v);
        SyncOneElsewhere(cfg, s, list[0]);
        SyncOneLeavesRest(cfg, s, list);
        SyncListCorrect(cfg, Run(s, SyncOne(cfg, s, list[0]).trace), list[1..], v);
        SyncListCons(cfg, s, list);
      }
    }
  }

  ghost predicate NothingDirty(s: State) { forall c :: c in s.rows ==> s.rows[c].state != Dirty }

  /** `sync_dirty`, up to its final eviction. */
  lemma SyncUploads(cfg: Config, s: State, v: Cells)
    requires Represents(cfg, s, v)
    ensures var o := SyncList(cfg, s, DirtyChunks(s.rows));
            && (o.result.Ok? <==> DirtyIds(s.rows) !! s.down)
            && (o.result.Ok? ==> o.result.value == SyncCount(s) && NothingDirty(Run(s, o.trace)))
  {
    hide Represents, SyncList, Run, Bytes;
    var list := DirtyChunks(s.rows);
    SyncListCorrect(cfg, s, list, v);
    if SyncList(cfg, s, list).result.Ok? {
      assert list[..|list|] == list;
      FreedIsBytes(OnDisk(s), list, DirtyIds(s.rows), |list|);
      RestNotDirty(s, Run(s, SyncList(cfg, s, list).trace), list);
    }
  }

  lemma RestNotDirty(s: State, s': State, list: seq<nat>)
    requires forall c :: c in DirtyIds(s.rows) ==> c in list
    requires forall c :: c in list ==> c in s'.rows && s'.rows[c].state == Clean
    requires forall c :: c !in list ==> RowOf(s', c) == RowOf(s, c)
    ensures NothingDirty(s')
  {
    forall c | c in s'.rows
      ensures s'.rows[c].state != Dirty
    {
      if c !in list {
        assert RowOf(s', c) == RowOf(s, c);
      }
    }
  }

  lemma EvictLeavesNothingDirty(cfg: Config, s: State, v: Cells)
    requires Represents(cfg, s, v) && NothingDirty(s)
    ensures NothingDirty(Run(s, Evict(cfg, s)))
  {
    var s' := Run(s, Evict(cfg, s));
    forall c | c in s'.rows
      ensures s'.rows[c].state != Dirty
    {
      EvictTouches(cfg, s, c, v);
      LookRow(s, c);
      LookRow(s', c);
    }
  }

  /** The cloud alone holds everything promised about chunk c. */
  ghost predicate InCloud(cfg: Config, s: State, v: Cells, c: nat) {
    Fills(Look(s, c).Image(cfg.geo.ChunkLen(c)), Part(v, cfg.geo, c))
  }

  lemma CleanIsInCloud(cfg: Config, s: State, v: Cells, c: nat)
    requires Represents(cfg, s, v) && !OnlyCopyIsLocal(s, c) && !InError(s, c)
    ensures InCloud(cfg, s, v, c)
  {
    assert ChunkSettled(cfg, s, v, c);
    PartLength(v, cfg.geo, c);
    LookRow(s, c);
  }

  predicate OnlyCopyIsLocal(s: State, c: nat) { c in s.rows && s.rows[c].state == Dirty }

  /**
   * Cloud durability. `sync_dirty` succeeds exactly when the cloud accepts every Dirty chunk; it
   * then returns the number of bytes that the files of those had, no chunk is Dirty any more, and the cloud
   * alone determines every chunk that is not in Error.
   */
  lemma SyncDurable(cfg: Config, s: State, v: Cells)
    requires Represents(cfg, s, v)
    ensures var o := Sync(cfg, s);
            && (o.result.Ok? <==> DirtyIds(s.rows) !! s.down)
            && (o.result.Ok? ==>
                  && o.result.value == SyncCount(s)
                  && NothingDirty(Run(s, o.trace))
                  && Represents(cfg, Run(s, o.trace), v)
                  && forall c: nat :: !InError(Run(s, o.trace), c) ==> InCloud(cfg, Run(s, o.trace), v, c))
  {
    var u := SyncList(cfg, s, DirtyChunks(s.rows));
    var s' := Run(s, Sync(cfg, s).trace);
    SyncUploads(cfg, s, v);
    SyncTransparent(cfg, s, v);
    if u.result.Ok? {
      SyncListTransparent(cfg, s, DirtyChunks(s.rows), v);
      EvictLeavesNothingDirty(cfg, Run(s, u.trace), v);
      RunConcat(s, u.trace, Evict(cfg, Run(s, u.trace)));
      forall c: nat | !InError(s', c)
        ensures InCloud(cfg, s', v, c)
      {
        CleanIsInCloud(cfg, s', v, c);
      }
    }
  }

  // ---------------------------------------------------------------- losing the cache

  predicate IsUploading(s: State, c: nat) { c in s.rows && s.rows[c].state == Uploading }

  lemma UploadsKeepStates(cfg: Config, s: State, c: nat, v: Cells)
    requires Represents(cfg, s, v) && SyncList(cfg, s, DirtyChunks(s.rows)).result.Ok?
    ensures var s1 := Run(s, SyncList(cfg, s, DirtyChunks(s.rows)).trace);
            (InError(s1, c) <==> InError(s, c)) && (IsUploading(s1, c) <==> IsUploading(s, c))
  {
    hide Represents, SyncList, Run, Bytes;
    var list := DirtyChunks(s.rows);
    SyncListCorrect(cfg, s, list, v);
    LookRow(s, c);
    LookRow(Run(s, SyncList(cfg, s, list).trace), c);
  }

  lemma EvictionKeepsStates(cfg: Config, s: State, c: nat, v: Cells)
    requires Represents(cfg, s, v)
    ensures var s1 := Run(s, Evict(cfg, s));
            (InError(s1, c) <==> InError(s, c)) && (IsUploading(s1, c) <==> IsUploading(s, c))
  {
    hide Represents, Evict, Run;
    EvictTouches(cfg, s, c, v);
    LookRow(s, c);
    LookRow(Run(s, Evict(cfg, s)), c);
  }

  /** A successful sync neither makes nor mends an Error, and leaves alone what an earlier crash left Uploading. */
  lemma SyncKeepsStates(cfg: Config, s: State, c: nat, v: Cells)
    requires Represents(cfg, s, v) && Sync(cfg, s).result.Ok?
    ensures var s1 := Run(s, Sync(cfg, s).trace);
            (InError(s1, c) <==> InError(s, c)) && (IsUploading(s1, c) <==> IsUploading(s, c))
  {
    hide Represents, SyncList, Run, Evict, InError, IsUploading;
    var u := SyncList(cfg, s, DirtyChunks(s.rows));
    UploadsKeepStates(cfg, s, c, v);
    SyncListTransparent(cfg, s, DirtyChunks(s.rows), v);
    EvictionKeepsStates(cfg, Run(s, u.trace), c, v);
    RunConcat(s, u.trace, Evict(cfg, Run(s, u.trace)));
  }

  /**
   * After a successful sync the local files are disposable: lose any of them and let `open` or `fsck`
   * find out. The volume is the same, and a chunk is newly in Error if and only if it lost its file
   * and had been left Uploading by a crash from before the sync.
   */
  lemma CacheDisposableAfterSync(cfg: Config, s: State, gone: set<nat>, s': State, v: Cells)
    requires Represents(cfg, s, v) && Sync(cfg, s).result.Ok?
    requires IsRecovered(cfg, LoseFiles(Run(s, Sync(cfg, s).trace), gone), s')
    ensures Represents(cfg, s', v)
    ensures forall c: nat :: !InError(s, c) ==> (InError(s', c) <==> c in gone && IsUploading(s, c))
  {
    hide Represents, Run, Sync, IsRecovered, InCloud;
    var s1 := Run(s, Sync(cfg, s).trace);
    SyncDurable(cfg, s, v);
    NoSilentLoss(cfg, s1, gone, s', v);
    forall c: nat
      ensures (InError(s1, c) <==> InError(s, c)) && (IsUploading(s1, c) <==> IsUploading(s, c))
    {
      SyncKeepsStates(cfg, s, c, v);
    }
  }

  /**
   * After a successful sync the whole cache directory is disposable, rows and journal included: a
   * volume created anew over the same cloud is the same volume, if and only if the cloud has what is
   * promised of the chunks that were in Error.
   */
  lemma DirectoryDisposableAfterSync(cfg: Config, s: State, v: Cells)
    requires Represents(cfg, s, v) && Sync(cfg, s).result.Ok?
    ensures var s1 := Run(s, Sync(cfg, s).trace);
            Represents(cfg, Created(s1.cloud), v) <==> forall c: nat :: InError(s, c) ==> InCloud(cfg, s1, v, c)
  {
    hide Represents, Run, Sync, InError, InCloud, ImageOf, Part;
    var s1 := Run(s, Sync(cfg, s).trace);
    SyncDurable(cfg, s, v);
    RepresentsSize(cfg, s, v);
    CreatedExactly(cfg, s1.cloud, v);
    forall c: nat
      ensures InCloud(cfg, s1, v, c) <==> Fills(ImageOf(cfg, s1.cloud, c), Part(v, cfg.geo, c))
      ensures c >= cfg.geo.TotalChunks() ==> InCloud(cfg, s1, v, c)
      ensures InError(s1, c) <==> InError(s, c)
    {
      InCloudIs(cfg, s1, v, c);
      SyncKeepsStates(cfg, s, c, v);
    }
  }

  lemma InCloudIs(cfg: Config, s: State, v: Cells, c: nat)
    requires |v| == cfg.geo.volume
    requires cfg.Valid()
    ensures InCloud(cfg, s, v, c) <==> Fills(ImageOf(cfg, s.cloud, c), Part(v, cfg.geo, c))
    ensures c >= cfg.geo.TotalChunks() ==> InCloud(cfg, s, v, c)
  {
    ChunksCoverVolume(cfg.geo);
    PartLength(v, cfg.geo, c);
  }
}
