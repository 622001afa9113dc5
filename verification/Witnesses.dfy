/**
 * What happens without the guards: each of them excludes a whole family of writes or states that the
 * engine does not handle, shown here in general and by a run from the creation of a volume on.
 */
module Witnesses {
  import opened Wrappers
  import opened Mapper
  import opened Metadata
  import opened Wal
  import WalMerge
  import opened Store
  import opened Volume
  import opened Operations
  import opened Safety
  import opened Recovery
  import opened Writing
  import opened Eviction
  import opened Guards
  import opened Exactness
  import opened Runs
  import opened Agreement
  import opened Durability
  import opened Loops
  import opened SmallVolume

  // ---------------------------------------------------------------- runs that succeed

  /** The step's write or sync, if it is one, returns Ok. */
  ghost predicate Succeeds(cfg: Config, s: State, step: Step) {
    step.Completes? ==>
      && (step.op.WriteOp? ==> Write(cfg, s, step.op.offset, step.op.data).result.Ok?)
      && (step.op.SyncOp? ==> Sync(cfg, s).result.Ok?)
  }

  ghost predicate AllSucceed(cfg: Config, s: State, steps: seq<Step>)
    requires PossibleRun(cfg, s, steps)
    decreases steps
  {
    steps != [] ==> Succeeds(cfg, s, steps[0]) && AllSucceed(cfg, Runs.After(cfg, s, steps[0]), steps[1..])
  }

  /** A run that can happen, whose writes and syncs succeed, and that ends in s'. */
  ghost predicate Plays(cfg: Config, s: State, steps: seq<Step>, s': State) {
    PossibleRun(cfg, s, steps) && AllSucceed(cfg, s, steps) && RunAll(cfg, s, steps) == s'
  }

  lemma PlayNothing(cfg: Config, s: State)
    ensures Plays(cfg, s, [], s)
  {
  }

  lemma PlayFirst(cfg: Config, s: State, step: Step, rest: seq<Step>, s': State)
    requires Possible(cfg, s, step) && Succeeds(cfg, s, step) && Plays(cfg, Runs.After(cfg, s, step), rest, s')
    ensures Plays(cfg, s, [step] + rest, s')
  {
    hide Possible, Runs.After, Succeeds;
    assert ([step] + rest)[1..] == rest;
  }

  /** An engine can hold this configuration. */
  lemma TinyGood(n: nat, cacheMax: nat, low: nat)
    requires 0 < n && 2 * n <= U64_MAX && 0 < cacheMax && low <= cacheMax
    ensures Tiny(n, cacheMax, low).Valid() && GoodDigest(Tiny(n, cacheMax, low))
  {
    assert NoDigest()[..7] == "sha256:";
  }

  // ---------------------------------------------------------------- room

  /** Without room, an acknowledged partial write zero-fills the rest of its chunk. */
  lemma WithoutRoom(cfg: Config, s: State, sp: Span, data: seq<byte>, v: Cells)
    requires Represents(cfg, s, v) && ClockAhead(s) && Within(sp, data) && WriteSpan(cfg, s, sp, data).Ok?
    requires !IsFull(cfg, sp) && !Resident(s, sp.chunkId)
    requires Fetch(cfg, s, sp.chunkId).Ok? ==> !RoomFor(cfg, s, sp.chunkId)
    ensures var s', c := Run(s, WriteSpan(cfg, s, sp, data).value), sp.chunkId;
            && Resident(s', c)
            && s'.files[c] == Overwrite([], sp.offsetInChunk, SpanData(sp, data), cfg.geo.ChunkLen(c))
  {
    hide Represents, Run, Fetch, RoomFor, WriteSpan, Overwrite, Prepare;
    SpanSlot(cfg, s, sp, data);
    PreparedLook(cfg, s, sp, v);
    LookRow(Run(s, WriteSpan(cfg, s, sp, data).value), sp.chunkId);
  }

  lemma NoneHeld(rows: Table)
    requires forall c :: c in rows ==> rows[c].state == Clean && rows[c].pins == 0
    ensures HeldBytes(rows) == 0
  {
    assert CachedIds(rows) - EvictableIds(rows) == {};
  }

  lemma OneCached(rows: Table)
    requires rows.Keys == {0} && Cached(rows[0].state)
    ensures CachedBytes(rows) == rows[0].size
  {
    assert CachedIds(rows) == {0};
    BytesRemove(rows, CachedIds(rows), 0);
    assert CachedIds(rows) - {0} == {};
  }

  /** The chunk at the backend does not fit a cache of one byte. */
  lemma TightCache(s: State)
    requires s == Created(map[0 := [7, 8]])
    ensures Fetch(Tiny(1, 1, 0), s, 0) == Ok([7, 8]) && !RoomFor(Tiny(1, 1, 0), s, 0)
    ensures Part(Known([7, 8]), Tiny(1, 1, 0).geo, 0) == Known([7, 8])
  {
    hide HeldBytes, CachedBytes;
    var cfg := Tiny(1, 1, 0);
    OneSpan(cfg.geo, 1, 0, 0, 2);
    var rows := s.rows[0 := FetchedRow(cfg, s, 0, [7, 8])];
    OneCached(rows);
    NoneHeld(rows);
    assert cfg.geo.Start(0) == 0;
  }

  /** A volume of one chunk, created over the object 7, 8. */
  lemma SevenEight()
    ensures Represents(Tiny(1, 1, 0), Created(map[0 := [7, 8]]), Known([7, 8]))
  {
    hide Represents, Images;
    var cfg, cloud := Tiny(1, 1, 0), map[0 := [7, 8]];
    OneSpan(cfg.geo, 1, 0, 0, 2);
    CreatedRepresents(cfg, cloud);
    SevenEightImages(cfg, cloud);
  }

  lemma SevenEightImages(cfg: Config, cloud: map<nat, seq<byte>>)
    requires cfg == Tiny(1, 1, 0) && cloud == map[0 := [7, 8]]
    ensures Images(cfg, cloud) == [7, 8]
  {
    var b := Images(cfg, cloud);
    assert b[0] == ByteAt(cloud, 0, 0) && b[1] == ByteAt(cloud, 0, 1);
  }

  lemma TightPrepare(s: State)
    requires s == Created(map[0 := [7, 8]])
    ensures var cfg, sp := Tiny(1, 1, 0), Span(0, 0, 0, 1);
            && !IsFull(cfg, sp) && !Resident(s, 0) && ClockAhead(s) && Prepare(cfg, s, sp).Ok?
  {
    hide Run, Evict;
    TightCache(s);
    OneSpan(Tiny(1, 1, 0).geo, 1, 0, 0, 1);
  }

  lemma OnlyRowAfterSpan(cfg: Config, s: State, sp: Span, data: seq<byte>, v: Cells)
    requires Represents(cfg, s, v) && s.rows == map[] && sp.chunkId == 0 && Within(sp, data)
    requires WriteSpan(cfg, s, sp, data).Ok?
    ensures forall c :: c in Run(s, WriteSpan(cfg, s, sp, data).value).rows ==> c == 0
  {
    hide Represents, Run, WriteSpan, Look;
    var s' := Run(s, WriteSpan(cfg, s, sp, data).value);
    forall c | c in s'.rows
      ensures c == 0
    {
      if c != 0 {
        SpanElsewhere(cfg, s, sp, data, c, v);
        LookRow(s, c);
        LookRow(s', c);
      }
    }
  }

  /** The byte 9 is written at offset 0, and the cache is too small for the chunk. */
  lemma TightSpan(s: State)
    requires s == Created(map[0 := [7, 8]])
    ensures var cfg, sp := Tiny(1, 1, 0), Span(0, 0, 0, 1);
            && WriteSpan(cfg, s, sp, [9]).Ok?
            && var s' := Run(s, WriteSpan(cfg, s, sp, [9]).value);
            && Resident(s', 0) && s'.files[0] == [9, 0]
            && forall c :: c in s'.rows ==> s'.rows[c].state != Clean
    ensures Fresh(Look(Run(s, Prepare(Tiny(1, 1, 0), s, Span(0, 0, 0, 1)).value), 0))
  {
    hide Represents, RoomFor, Fetch, Run, Evict, LatestLocal, Synced, Prepare, Commit, Look, Resident, IsFull;
    var cfg, sp, v := Tiny(1, 1, 0), Span(0, 0, 0, 1), Known([7, 8]);
    OneSpan(cfg.geo, 1, 0, 0, 1);
    assert [9 as byte][0..1] == [9];
    assert Overwrite([], 0, [9], 2) == [9, 0];
    SevenEight();
    TightCache(s);
    TightPrepare(s);
    CreatedSmall(map[0 := [7, 8]], 1, 0);
    WithoutRoom(cfg, s, sp, [9], v);
    PreparedLook(cfg, s, sp, v);
    OnlyRowAfterSpan(cfg, s, sp, [9], v);
    SpanSlot(cfg, s, sp, [9]);
    LookRow(Run(s, WriteSpan(cfg, s, sp, [9]).value), sp.chunkId);
  }

  lemma TightWrite(s: State)
    requires s == Created(map[0 := [7, 8]])
    ensures Write(Tiny(1, 1, 0), s, 0, [9]).result.Ok? && FreshWrite(Tiny(1, 1, 0), s, 0, [9])
    ensures var s' := Run(s, Write(Tiny(1, 1, 0), s, 0, [9]).trace); Resident(s', 0) && s'.files[0] == [9, 0]
  {
    hide Run, Evict, Prepare, WriteSpan, Look, Fresh;
    var cfg, sp := Tiny(1, 1, 0), Span(0, 0, 0, 1);
    OneSpan(cfg.geo, 1, 0, 0, 1);
    assert [sp][1..] == [];
    TightSpan(s);
    var w := WriteSpan(cfg, s, sp, [9]).value;
    NothingEvictable(cfg, Run(s, w));
    assert w + [] == w;
    assert WriteSpans(cfg, s, [sp], [9]) == Outcome(w + [], Ok(()));
  }

  /**
   * Room is needed: over an object 7, 8, with a cache of one byte, a fresh write of 9 over the first
   * byte succeeds, and the next read of the second byte returns 0.
   */
  lemma RoomIsNeeded()
    ensures var cfg, s, steps := Tiny(1, 1, 0), Created(map[0 := [7, 8]]), [Completes(WriteOp(0, [9]))];
            && cfg.Valid() && GoodDigest(cfg) && Represents(cfg, s, Known([7, 8]))
            && PossibleRun(cfg, s, steps) && AllSucceed(cfg, s, steps) && FreshRun(cfg, s, steps)
            && Read(cfg, RunAll(cfg, s, steps), 1, 1).result == Ok([0])
  {
    hide Represents, Write, FreshWrite, Run, Read, Resident, GoodDigest;
    var cfg, s, step := Tiny(1, 1, 0), Created(map[0 := [7, 8]]), Completes(WriteOp(0, [9]));
    TinyGood(1, 1, 0);
    SevenEight();
    TightWrite(s);
    assert [step][1..] == [];
    PlayNothing(cfg, Runs.After(cfg, s, step));
    var s' := Run(s, Write(cfg, s, 0, [9]).trace);
    ReadResident(cfg, s', 1, 1);
    assert [9 as byte, 0][1..2] == [0];
  }

  lemma ReadResident(cfg: Config, s: State, offset: nat, len: nat)
    requires cfg.geo == Geometry(2, 2) && 0 < len && offset + len <= 2 && Resident(s, 0)
    ensures Read(cfg, s, offset, len).result
         == if offset + len <= |s.files[0]| then Ok(s.files[0][offset..offset + len]) else Err(Io)
  {
    hide Read;
    assert Ensure(cfg, s, 0) == Ok([]);
    ReadFile(cfg, s, 1, 0, offset, len, []);
  }

  // ---------------------------------------------------------------- freshness

  /**
   * A stale write is acknowledged, but once the engine is reopened its chunk is Clean, while the
   * cloud holds what it held before; so any later eviction loses the write.
   */
  lemma StaleTurnsClean(cfg: Config, s: State, sp: Span, data: seq<byte>, v: Cells, order: seq<nat>)
    requires Represents(cfg, s, v) && ClockAhead(s) && Within(sp, data) && WriteSpan(cfg, s, sp, data).Ok?
    requires !FreshEnough(cfg, s, sp)
    requires IsOrder(order, Run(s, WriteSpan(cfg, s, sp, data).value).journal)
    ensures var s', c := Run(s, WriteSpan(cfg, s, sp, data).value), sp.chunkId;
            var r := Reopened(cfg, s', order);
            && c in s'.rows && s'.rows[c].state == Dirty && FileOf(r, c) == FileOf(s', c)
            && c in r.rows && r.rows[c].state == Clean && ObjectOf(r, c) == ObjectOf(s, c)
  {
    hide Represents, Run, Fetch, RoomFor, WriteSpan, Overwrite, Prepare, FreshEnough, Recover, LatestLocal, Synced;
    var c := sp.chunkId;
    var s' := Run(s, WriteSpan(cfg, s, sp, data).value);
    SpanSlot(cfg, s, sp, data);
    PreparedFresh(cfg, s, sp, v);
    PreparedLook(cfg, s, sp, v);
    LookRow(s', c);
    RecoverLook(cfg, Loaded(s'), order, c);
    LookRow(Reopened(cfg, s', order), c);
    SameRows(Look(Reopened(cfg, s', order), c),
             Look(Loaded(s'), c).(row := RecoveredRow(cfg, FileOf(Loaded(s'), c), RowOf(Loaded(s'), c),
                                                      Summarize(s'.journal, c), 0)));
  }

  lemma SameRows(a: Slot, b: Slot)
    requires SameButTimes(a, b)
    ensures a.State() == b.State() && (a.row.Some? <==> b.row.Some?) && a.file == b.file && a.remote == b.remote
  {
    var x, y := a.(row := None), b.(row := None);
    assert x.file == y.file && x.remote == y.remote;
    StateOfTimeless(a.row, b.row);
  }

  /** The run: write 7, 8; sync; lose the file; write 9 at 0; reopen; lose the file. */
  function StaleRun(): seq<Step> {
    [ Completes(WriteOp(0, [7, 8])), Completes(SyncOp), Loses({0}, true, [0]),
      Completes(WriteOp(0, [9])), Completes(OpenOp([0])), Loses({0}, true, [0]) ]
  }

  /** What the chunk's slot is after n steps of it. */
  function StaleSlot(cfg: Config, n: nat): Slot
    requires n <= 6
  {
    if n == 0 then Slot(None, None, None, None, {})
    else if n == 1 then WrittenSlot(StaleSlot(cfg, 0).(file := Some(Zeroes(2))), 0, [7, 8])
    else if n == 2 then SyncedSlot(StaleSlot(cfg, 1))
    else if n == 3 then RecoveredSlot(cfg, StaleSlot(cfg, 2).(file := None))
    else if n == 4 then WrittenSlot(FetchedSlot(StaleSlot(cfg, 3)), 0, [9])
    else if n == 5 then RecoveredSlot(cfg, StaleSlot(cfg, 4))
    else RecoveredSlot(cfg, StaleSlot(cfg, 5).(file := None))
  }

  lemma FirstSlot(cfg: Config)
    ensures StaleSlot(cfg, 1) == Slot(Some([7, 8]), Some(DirtyRow(2, 1, 0)), None, Some(1), {})
  {
    assert Overwrite(Zeroes(2), 0, [7, 8], 2) == [7, 8];
    var sl := Slot(Some(Zeroes(2)), None, None, None, {});
    assert StaleSlot(cfg, 0).(file := Some(Zeroes(2))) == sl;
    assert WrittenSlot(sl, 0, [7, 8]).file == Some([7, 8]) && sl.Gen() == 0;
  }

  lemma UploadedSlot(sl: Slot)
    requires sl == Slot(Some([7, 8]), Some(DirtyRow(2, 1, 0)), None, Some(1), {})
    ensures SyncedSlot(sl).file == SyncedSlot(sl).remote == Some([7, 8])
    ensures SyncedSlot(sl).latest == Some(1) && SyncedSlot(sl).State() == Clean && SyncedSlot(sl).synced == {1}
  {
    assert sl.Gen() == 1;
    assert sl.synced + {sl.Gen()} == {1};
  }

  lemma StaleSlots(cfg: Config)
    ensures StaleSlot(cfg, 1) == Slot(Some([7, 8]), Some(DirtyRow(2, 1, 0)), None, Some(1), {})
    ensures StaleSlot(cfg, 2).file == Some([7, 8]) && StaleSlot(cfg, 2).remote == Some([7, 8])
    ensures StaleSlot(cfg, 2).latest == Some(1) && StaleSlot(cfg, 2).State() == Clean
    ensures StaleSlot(cfg, 3).file == None && StaleSlot(cfg, 3).remote == Some([7, 8])
    ensures StaleSlot(cfg, 3).latest == Some(1) && StaleSlot(cfg, 3).State() == Missing
    ensures StaleSlot(cfg, 4).file == Some([9, 8]) && StaleSlot(cfg, 4).latest == Some(1)
    ensures StaleSlot(cfg, 5).file == Some([9, 8]) && StaleSlot(cfg, 5).latest == Some(1)
    ensures StaleSlot(cfg, 5).State() == Clean
    ensures StaleSlot(cfg, 6).file == None && StaleSlot(cfg, 6).remote == Some([7, 8])
    ensures StaleSlot(cfg, 6).State() == Missing
  {
    assert Overwrite([7, 8], 0, [9], 2) == [9, 8];
    FirstSlot(cfg);
    UploadedSlot(StaleSlot(cfg, 1));
  }

  /** What the steps below keep of a volume of n chunks. */
  ghost predicate Tame(cfg: Config, s: State, n: nat) {
    Roomy(cfg, n) && Small(s, n) && ShortFiles(s)
  }

  lemma ShortAfter(s: State, s': State, c: nat, sl: Slot)
    requires ShortFiles(s) && At(s', c, sl) && Others(s, s', c) && (sl.file.Some? ==> |sl.file.value| <= 2)
    ensures ShortFiles(s')
  {
    hide Timeless;
    Alike(Look(s', c), sl);
    forall d | d in s'.files
      ensures |s'.files[d]| <= 2
    {
      LookRow(s, d);
      LookRow(s', d);
      if d != c {
        assert Look(s', d) == Look(s, d);
      }
    }
  }

  lemma ShortAfterRecovery(cfg: Config, s: State, s': State)
    requires ShortFiles(s) && IsRecovered(cfg, s, s')
    ensures ShortFiles(s')
  {
    hide LatestLocal, Synced, RecoveredRow;
    forall c: nat
      ensures FileOf(s', c) == FileOf(s, c)
    {
      assert ChunkRecovered(cfg, s, s', c);
      Alike(Look(s', c), Look(s, c).(row := RecoveredRow(cfg, FileOf(s, c), RowOf(s, c), Summarize(s.journal, c), 0)));
      LookRow(s', c);
      LookRow(s, c);
    }
    KeepsShort(s, s');
  }

  lemma PlayWhole(cfg: Config, s: State, n: nat, c: nat, sl: Slot, data: seq<byte>)
    requires Tame(cfg, s, n) && c < n && At(s, c, sl) && |data| == 2
    ensures var step := Completes(WriteOp(2 * c, data));
            && Possible(cfg, s, step) && Succeeds(cfg, s, step)
            && var s' := Runs.After(cfg, s, step);
            && Tame(cfg, s', n) && At(s', c, WrittenSlot(sl.(file := Some(Zeroes(2))), 0, data)) && Others(s, s', c)
  {
    hide At, Run, Write, Commit, Small, ShortFiles, Others, EmptyChunk;
    WholeWrite(cfg, s, n, c, sl, data);
    ShortAfter(s, Run(s, Write(cfg, s, 2 * c, data).trace), c, WrittenSlot(sl.(file := Some(Zeroes(2))), 0, data));
  }

  lemma PlayByte(cfg: Config, s: State, n: nat, c: nat, sl: Slot, data: seq<byte>)
    requires Tame(cfg, s, n) && c < n && At(s, c, sl) && |data| == 1
    requires sl.State() == Missing && sl.file.None? && |sl.Image(2)| == 2
    ensures var step := Completes(WriteOp(2 * c, data));
            && Possible(cfg, s, step) && Succeeds(cfg, s, step)
            && var s' := Runs.After(cfg, s, step);
            && Tame(cfg, s', n) && At(s', c, WrittenSlot(FetchedSlot(sl), 0, data)) && Others(s, s', c)
  {
    hide At, Run, Write, Small, ShortFiles, Others;
    ByteWrite(cfg, s, n, c, sl, data);
    ShortAfter(s, Run(s, Write(cfg, s, 2 * c, data).trace), c, WrittenSlot(FetchedSlot(sl), 0, data));
  }

  lemma PlaySync(cfg: Config, s: State, n: nat, c: nat, sl: Slot)
    requires (forall data: seq<byte> :: cfg.digest(data) == NoDigest()) && Tame(cfg, s, n) && c < n && At(s, c, sl)
    requires OnlyDirty(s, c) && sl.row.Some? && sl.row.value.hasPath && sl.file.Some? && |sl.file.value| <= 2
    ensures var step := Completes(SyncOp);
            && Possible(cfg, s, step) && Succeeds(cfg, s, step)
            && var s' := Runs.After(cfg, s, step); Tame(cfg, s', n) && At(s', c, SyncedSlot(sl)) && Others(s, s', c)
  {
    hide At, Run, Sync, SyncOne, Small, ShortFiles, Others, OnlyDirty;
    SyncStep(cfg, s, n, c, sl);
    ShortAfter(s, Run(s, Sync(cfg, s).trace), c, SyncedSlot(sl));
  }

  lemma LossShort(cfg: Config, s: State, gone: set<nat>, order: seq<nat>)
    requires ShortFiles(s) && IsOrder(order, s.journal)
    ensures ShortFiles(Run(LoseFiles(s, gone), Fsck(cfg, LoseFiles(s, gone), order)))
    ensures ShortFiles(Reopened(cfg, s, order))
  {
    hide Run, Fsck, Recover, IsRecovered, IsOrder;
    FsckIsRecovered(cfg, LoseFiles(s, gone), order);
    ShortAfterRecovery(cfg, LoseFiles(s, gone), Run(LoseFiles(s, gone), Fsck(cfg, LoseFiles(s, gone), order)));
    RecoverIsRecovered(cfg, Loaded(s), order);
    ShortAfterRecovery(cfg, Loaded(s), Reopened(cfg, s, order));
  }

  lemma PlayLoss(cfg: Config, s: State, n: nat, gone: set<nat>, order: seq<nat>, c: nat, sl: Slot)
    requires Tame(cfg, s, n) && Lists(order, s, n) && At(s, c, sl)
    ensures var step := Loses(gone, true, order);
            && Possible(cfg, s, step) && Succeeds(cfg, s, step)
            && var s' := Runs.After(cfg, s, step);
            Tame(cfg, s', n) && At(s', c, RecoveredSlot(cfg, if c in gone then sl.(file := None) else sl))
  {
    hide Run, Fsck, Small, RecoveredSlot, At, ShortFiles, Lists, LoseFiles, Reopened, IsOrder;
    LossStep(cfg, s, n, gone, order, c, sl);
    LossShort(cfg, s, gone, order);
  }

  lemma PlayOpen(cfg: Config, s: State, n: nat, order: seq<nat>, c: nat, sl: Slot)
    requires Tame(cfg, s, n) && Lists(order, s, n) && At(s, c, sl)
    ensures var step := Completes(OpenOp(order));
            && Possible(cfg, s, step) && Succeeds(cfg, s, step)
            && var s' := Runs.After(cfg, s, step); Tame(cfg, s', n) && At(s', c, RecoveredSlot(cfg, sl))
  {
    hide Run, Recover, Small, RecoveredSlot, At, ShortFiles, Lists, IsOrder;
    OpenStep(cfg, s, n, order, c, sl);
    LossShort(cfg, s, {}, order);
  }

  /** The journaled chunks of a volume of one chunk. */
  lemma ListsOne(s: State, sl: Slot)
    requires At(s, 0, sl)
    ensures Lists(if sl.latest.Some? then [0] else [], s, 1)
  {
    hide Timeless;
    Alike(Look(s, 0), sl);
  }

  lemma OnlyOneDirty(s: State, sl: Slot)
    requires Small(s, 1) && At(s, 0, sl) && sl.State() == Dirty
    ensures OnlyDirty(s, 0)
  {
    hide Timeless, Unused;
    Alike(Look(s, 0), sl);
    LookRow(s, 0);
    RowsOfSmall(s, 1);
  }

  /** The second half of the run: the stale write and what becomes of it. */
  lemma StaleHalf(cfg: Config, s: State)
    requires cfg == Tiny(1, 2, 2) && Tame(cfg, s, 1) && At(s, 0, StaleSlot(cfg, 3))
    ensures exists s' :: Plays(cfg, s, StaleRun()[3..], s') && Tame(cfg, s', 1) && At(s', 0, StaleSlot(cfg, 6))
  {
    hide At, Plays, WrittenSlot, RecoveredSlot, Possible, Succeeds, Runs.After, Tame, Lists, Others;
    StaleSlots(cfg);
    var t := StaleRun()[3..];
    PlayByte(cfg, s, 1, 0, StaleSlot(cfg, 3), [9]);
    var s4 := Runs.After(cfg, s, t[0]);
    ListsOne(s4, StaleSlot(cfg, 4));
    PlayOpen(cfg, s4, 1, [0], 0, StaleSlot(cfg, 4));
    var s5 := Runs.After(cfg, s4, t[1]);
    ListsOne(s5, StaleSlot(cfg, 5));
    PlayLoss(cfg, s5, 1, {0}, [0], 0, StaleSlot(cfg, 5));
    var s6 := Runs.After(cfg, s5, t[2]);
    PlayNothing(cfg, s6);
    PlayFirst(cfg, s5, t[2], [], s6);
    assert [t[2]] + [] == t[2..];
    PlayFirst(cfg, s4, t[1], t[2..], s6);
    assert [t[1]] + t[2..] == t[1..];
    PlayFirst(cfg, s, t[0], t[1..], s6);
    assert [t[0]] + t[1..] == t;
    assert Plays(cfg, s, t, s6) && At(s6, 0, StaleSlot(cfg, 6));
  }

  lemma CreatedTame(cfg: Config, n: nat, c: nat)
    requires Roomy(cfg, n)
    ensures Tame(cfg, Created(map[]), n) && At(Created(map[]), c, Slot(None, None, None, None, {}))
  {
    CreatedSmall(map[], n, c);
  }

  /** A new volume of one chunk after its first write. */
  lemma FirstWrite(cfg: Config)
    requires cfg == Tiny(1, 2, 2)
    ensures var step := Completes(WriteOp(0, [7, 8]));
            && Possible(cfg, Created(map[]), step) && Succeeds(cfg, Created(map[]), step)
            && var s1 := Runs.After(cfg, Created(map[]), step);
            && Tame(cfg, s1, 1) && OnlyDirty(s1, 0)
            && At(s1, 0, Slot(Some([7, 8]), Some(DirtyRow(2, 1, 0)), None, Some(1), {}))
  {
    hide At, WrittenSlot, Possible, Succeeds, Runs.After, ShortFiles, Others, OnlyDirty;
    StaleSlots(cfg);
    CreatedTame(cfg, 1, 0);
    PlayWhole(cfg, Created(map[]), 1, 0, StaleSlot(cfg, 0), [7, 8]);
    OnlyOneDirty(Runs.After(cfg, Created(map[]), Completes(WriteOp(0, [7, 8]))), StaleSlot(cfg, 1));
  }

  lemma StalePlays(cfg: Config)
    requires cfg == Tiny(1, 2, 2)
    ensures exists s' ::
              Plays(cfg, Created(map[]), StaleRun(), s') && Tame(cfg, s', 1) && At(s', 0, StaleSlot(cfg, 6))
  {
    hide At, Plays, WrittenSlot, RecoveredSlot, Possible, Succeeds, Runs.After, Tame, Lists, Others, OnlyDirty;
    var s, t := Created(map[]), StaleRun();
    StaleSlots(cfg);
    FirstWrite(cfg);
    var s1 := Runs.After(cfg, s, t[0]);
    PlaySync(cfg, s1, 1, 0, StaleSlot(cfg, 1));
    var s2 := Runs.After(cfg, s1, t[1]);
    ListsOne(s2, StaleSlot(cfg, 2));
    PlayLoss(cfg, s2, 1, {0}, [0], 0, StaleSlot(cfg, 2));
    var s3 := Runs.After(cfg, s2, t[2]);
    StaleHalf(cfg, s3);
    var s' :| Plays(cfg, s3, t[3..], s') && Tame(cfg, s', 1) && At(s', 0, StaleSlot(cfg, 6));
    PlayFirst(cfg, s2, t[2], t[3..], s');
    assert [t[2]] + t[3..] == t[2..];
    PlayFirst(cfg, s1, t[1], t[2..], s');
    assert [t[1]] + t[2..] == t[1..];
    PlayFirst(cfg, s, t[0], t[1..], s');
    assert [t[0]] + t[1..] == t;
  }

  /**
   * Freshness is needed: on a new volume with room for its chunk, both writes and the sync of that run
   * succeed, and the next read returns 7, 8, without the 9 that was acknowledged last.
   */
  lemma FreshnessIsNeeded()
    ensures var cfg, s := Tiny(1, 2, 2), Created(map[]);
            && cfg.Valid() && GoodDigest(cfg) && PossibleRun(cfg, s, StaleRun()) && AllSucceed(cfg, s, StaleRun())
            && Read(cfg, RunAll(cfg, s, StaleRun()), 0, 2).result == Ok([7, 8])
  {
    hide PossibleRun, AllSucceed, RunAll, Read, At, StaleRun, GoodDigest, StaleSlot, ShortFiles;
    var cfg := Tiny(1, 2, 2);
    TinyGood(1, 2, 2);
    StaleSlots(cfg);
    StalePlays(cfg);
    var s' :| Plays(cfg, Created(map[]), StaleRun(), s') && Tame(cfg, s', 1) && At(s', 0, StaleSlot(cfg, 6));
    ReadFetched(cfg, s', 1, 0, StaleSlot(cfg, 6));
  }

  // ---------------------------------------------------------------- unjournaled uploads and live losses

  /**
   * A crash between the row and its first LocalCommitted record leaves a Dirty row that no record
   * backs. If its upload is cut as well, it is stuck: recovery, or `fsck`, leaves a chunk Uploading
   * exactly when it was so, has its file, and no LocalCommitted record. (`sync_dirty` does not see it.
   * Its bytes were never acknowledged.)
   */
  lemma StuckUploading(cfg: Config, s: State, s': State, c: nat)
    requires ChunkRecovered(cfg, s, s', c)
    ensures IsUploading(s', c) <==>
              IsUploading(s, c) && s.rows[c].hasPath && c in s.files && LatestLocal(s.journal, c).None?
    ensures IsUploading(s', c) ==> c !in DirtyChunks(s'.rows)
  {
    hide LatestLocal, Synced;
    SummaryLatest(s.journal, c);
    LookRow(s, c);
    LookRow(s', c);
    SameRows(Look(s', c), Look(s, c).(row := RecoveredRow(cfg, FileOf(s, c), RowOf(s, c), Summarize(s.journal, c), 0)));
  }

  /** The run: a write crashes before its LocalCommitted, and a sync right after marking the row. */
  function StuckRun(): seq<Step> {
    [Crashes(WriteOp(0, [7, 8]), 5, [], [], []), Crashes(SyncOp, 1, [], [], [])]
  }

  /** The chunk's slot after n steps of it. */
  function StuckSlot(n: nat): Slot {
    if n == 0 then Slot(None, None, None, None, {})
    else if n == 1 then Slot(Some([7, 8]), Some(DirtyRow(2, 1, 0)), None, None, {})
    else Slot(Some([7, 8]), Some(DirtyRow(2, 1, 0).(state := Uploading)), None, None, {})
  }

  lemma StuckSlots(cfg: Config)
    ensures RecoveredSlot(cfg, StuckSlot(1)) == StuckSlot(1) && RecoveredSlot(cfg, StuckSlot(2)) == StuckSlot(2)
  {
  }

  lemma ReopenOne(cfg: Config, s: State, order: seq<nat>, sl: Slot)
    requires cfg == Tiny(1, 2, 2) && Tame(cfg, s, 1) && At(s, 0, sl) && order == (if sl.latest.Some? then [0] else [])
    ensures IsOrder(order, s.journal)
    ensures Tame(cfg, Reopened(cfg, s, order), 1) && At(Reopened(cfg, s, order), 0, RecoveredSlot(cfg, sl))
  {
    hide Reopened, Small, RecoveredSlot, ShortFiles, Lists, At, IsOrder;
    ListsOne(s, sl);
    OpenStep(cfg, s, 1, order, 0, sl);
    LossShort(cfg, s, {}, order);
  }

  lemma StuckPlays(cfg: Config, s: State)
    requires cfg == Tiny(1, 2, 2) && s == Created(map[])
    ensures PossibleRun(cfg, s, StuckRun()) && At(RunAll(cfg, s, StuckRun()), 0, StuckSlot(2))
  {
    hide At, Write, Sync, Torn, Reopened, Small, ShortFiles, Others, OnlyDirty, IsOrder, RecoveredSlot;
    var t := StuckRun();
    CreatedTame(cfg, 1, 0);
    StuckSlots(cfg);
    WriteCut(cfg, s, 1, 0, StuckSlot(0), [7, 8]);
    var c1 := Torn(s, Write(cfg, s, 0, [7, 8]).trace, 5, []);
    ShortAfter(s, c1, 0, StuckSlot(1));
    ReopenOne(cfg, c1, [], StuckSlot(1));
    var s1 := Runs.After(cfg, s, t[0]);
    OnlyOneDirty(s1, StuckSlot(1));
    SyncCut(cfg, s1, 1, 0, StuckSlot(1));
    var c2 := Torn(s1, Sync(cfg, s1).trace, 1, []);
    ShortAfter(s1, c2, 0, StuckSlot(2));
    ReopenOne(cfg, c2, [], StuckSlot(2));
    var s2 := Runs.After(cfg, s1, t[1]);
    assert t[1..] == [t[1]] && t[1..][1..] == [];
    assert PossibleRun(cfg, s2, []) && RunAll(cfg, s2, []) == s2;
    assert RunAll(cfg, s1, [t[1]]) == s2;
  }

  /** Two crashes are enough to get there. */
  lemma StuckReached()
    ensures var cfg, s := Tiny(1, 2, 2), Created(map[]);
            && cfg.Valid() && GoodDigest(cfg) && PossibleRun(cfg, s, StuckRun())
            && IsUploading(RunAll(cfg, s, StuckRun()), 0)
  {
    hide PossibleRun, RunAll, At, StuckRun, GoodDigest;
    var cfg, s := Tiny(1, 2, 2), Created(map[]);
    TinyGood(1, 2, 2);
    StuckPlays(cfg, s);
    AtUploading(RunAll(cfg, s, StuckRun()));
  }

  lemma AtUploading(s: State)
    requires At(s, 0, StuckSlot(2))
    ensures IsUploading(s, 0)
  {
    Alike(Look(s, 0), StuckSlot(2));
    LookRow(s, 0);
  }

  // ---------------------------------------------------------------- files that vanish, or are cut short

  /** The run: write 7, 8; the file vanishes, and nobody is told. */
  function VanishRun(): seq<Step> { [Completes(WriteOp(0, [7, 8])), Vanishes({0})] }

  /** The next read returns zeroes. */
  lemma UnnoticedLossReadsZeroes()
    ensures var cfg, s := Tiny(1, 2, 2), Created(map[]);
            && cfg.Valid() && GoodDigest(cfg) && PossibleRun(cfg, s, VanishRun()) && AllSucceed(cfg, s, VanishRun())
            && Read(cfg, RunAll(cfg, s, VanishRun()), 0, 2).result == Ok([0, 0])
  {
    hide Write, Read, At, GoodDigest, ShortFiles, OnlyDirty;
    var cfg, s, t := Tiny(1, 2, 2), Created(map[]), VanishRun();
    TinyGood(1, 2, 2);
    FirstWrite(cfg);
    var s1 := Runs.After(cfg, s, t[0]);
    var s2 := LoseFiles(s1, {0});
    assert t[1..] == [t[1]] && t[1..][1..] == [];
    assert PossibleRun(cfg, s2, []) && RunAll(cfg, s2, []) == s2;
    VanishedSlot(s1, s2);
    ReadFetched(cfg, s2, 1, 0, Slot(None, Some(DirtyRow(2, 1, 0)), None, Some(1), {}));
    assert Zeroes(2) == [0, 0];
  }

  lemma VanishedSlot(s: State, s': State)
    requires s' == LoseFiles(s, {0}) && Small(s, 1)
    requires At(s, 0, Slot(Some([7, 8]), Some(DirtyRow(2, 1, 0)), None, Some(1), {}))
    ensures Small(s', 1) && At(s', 0, Slot(None, Some(DirtyRow(2, 1, 0)), None, Some(1), {}))
  {
    hide Timeless;
    Alike(Look(s, 0), Slot(Some([7, 8]), Some(DirtyRow(2, 1, 0)), None, Some(1), {}));
    assert forall c: nat :: Unused(s, c) ==> Unused(s', c);
    assert Look(s', 0) == Look(s, 0).(file := None);
  }

  /** The run: write 7, 8; in the next write of the chunk, a crash between truncating the file and its set_len. */
  function ShortRun(): seq<Step> { [Completes(WriteOp(0, [7, 8])), Crashes(WriteOp(0, [5, 6]), 1, [], [], [0])] }

  /** The chunk is Dirty, not in Error, and cannot be read. */
  lemma ShortFileUnreadable()
    ensures var cfg, s := Tiny(1, 2, 2), Created(map[]);
            && cfg.Valid() && GoodDigest(cfg) && PossibleRun(cfg, s, ShortRun())
            && !InError(RunAll(cfg, s, ShortRun()), 0)
            && Read(cfg, RunAll(cfg, s, ShortRun()), 0, 2).result == Err(Io)
  {
    hide Write, Read, At, GoodDigest, ShortFiles, OnlyDirty, Torn, Reopened, Small, Others, IsOrder;
    var cfg, s, t := Tiny(1, 2, 2), Created(map[]), ShortRun();
    var sl := Slot(Some([7, 8]), Some(DirtyRow(2, 1, 0)), None, Some(1), {});
    TinyGood(1, 2, 2);
    FirstWrite(cfg);
    var s1 := Runs.After(cfg, s, t[0]);
    TruncationCut(cfg, s1, 1, 0, sl, [5, 6]);
    var c1 := Torn(s1, Write(cfg, s1, 0, [5, 6]).trace, 1, []);
    ShortAfter(s1, c1, 0, sl.(file := Some([])));
    ReopenOne(cfg, c1, [0], sl.(file := Some([])));
    var s2 := Runs.After(cfg, s1, t[1]);
    assert t[1..] == [t[1]] && t[1..][1..] == [];
    assert PossibleRun(cfg, s2, []) && RunAll(cfg, s2, []) == s2;
    ShortSlot(cfg, s2);
    ReadResident(cfg, s2, 0, 2);
  }

  lemma ShortSlot(cfg: Config, s: State)
    requires At(s, 0, RecoveredSlot(cfg, Slot(Some([]), Some(DirtyRow(2, 1, 0)), None, Some(1), {})))
    ensures Resident(s, 0) && s.files[0] == [] && !InError(s, 0)
  {
    Alike(Look(s, 0), RecoveredSlot(cfg, Slot(Some([]), Some(DirtyRow(2, 1, 0)), None, Some(1), {})));
    LookRow(s, 0);
  }

  // ---------------------------------------------------------------- agreement and files lost while down

  /** The run: write 7, 8; a sync crashes just before its CloudCommitted; the file is lost before the next boot. */
  function DownRun(): seq<Step> {
    [Completes(WriteOp(0, [7, 8])), Crashes(SyncOp, 3, [], [Boot({0}, [0], 0)], [0])]
  }

  lemma BootLoses(cfg: Config, s: State, sl: Slot)
    requires cfg == Tiny(1, 2, 2) && Tame(cfg, s, 1) && At(s, 0, sl) && IsOrder([0], s.journal)
    ensures BootsFit(cfg, s, [Boot({0}, [0], 0)])
    ensures var s' := AfterBoots(cfg, s, [Boot({0}, [0], 0)]);
            Tame(cfg, s', 1) && At(s', 0, sl.(file := None)) && s'.journal == s.journal
  {
    hide Timeless, Recover, LatestLocal, Synced, IsOrder;
    var b := Boot({0}, [0], 0);
    assert [b][1..] == [];
    assert Recover(cfg, Booted(s, b), [0])[..0] == [];
    var f := Booted(s, b);
    RunNothing(f);
    assert AfterBoot(cfg, s, b) == f;
    Alike(Look(s, 0), sl);
    assert Look(f, 0) == Look(s, 0).(file := None);
    assert forall c: nat :: Unused(s, c) ==> Unused(f, c);
    assert AfterBoots(cfg, f, []) == f && BootsFit(cfg, f, []);
  }

  lemma DownSlots(cfg: Config)
    ensures var synced := SyncedSlot(Slot(Some([7, 8]), Some(DirtyRow(2, 1, 0)), None, Some(1), {}));
            var sl := synced.(synced := {}, file := None);
            RecoveredSlot(cfg, sl).State() == Missing && RecoveredSlot(cfg, sl).latest == Some(1)
            && RecoveredSlot(cfg, sl).synced == {}
  {
  }

  /** After it, the chunk is Missing, and its latest journaled generation is not journaled as uploaded. */
  lemma DownLossDisagrees()
    ensures var cfg, s := Tiny(1, 2, 2), Created(map[]);
            && cfg.Valid() && GoodDigest(cfg) && PossibleRun(cfg, s, DownRun())
            && !Agreed(true, RunAll(cfg, s, DownRun()))
  {
    hide Write, Sync, At, GoodDigest, ShortFiles, OnlyDirty, Torn, Reopened, Small, Others, IsOrder, RecoveredSlot,
         AfterBoots, BootsFit;
    var cfg, s, t := Tiny(1, 2, 2), Created(map[]), DownRun();
    var sl := Slot(Some([7, 8]), Some(DirtyRow(2, 1, 0)), None, Some(1), {});
    var cut := SyncedSlot(sl).(synced := {});
    TinyGood(1, 2, 2);
    FirstWrite(cfg);
    var s1 := Runs.After(cfg, s, t[0]);
    SyncCutLate(cfg, s1, 1, 0, sl);
    var c1 := Torn(s1, Sync(cfg, s1).trace, 3, []);
    ShortAfter(s1, c1, 0, cut);
    ListsOne(c1, cut);
    OrderIs(c1, 1, [0]);
    BootLoses(cfg, c1, cut);
    var c2 := AfterBoots(cfg, c1, [Boot({0}, [0], 0)]);
    ReopenOne(cfg, c2, [0], cut.(file := None));
    var s2 := Runs.After(cfg, s1, t[1]);
    assert t[1..] == [t[1]] && t[1..][1..] == [];
    assert PossibleRun(cfg, s2, []) && RunAll(cfg, s2, []) == s2;
    DownSlots(cfg);
    Disagrees(s2, RecoveredSlot(cfg, cut.(file := None)));
  }

  lemma Disagrees(s: State, sl: Slot)
    requires At(s, 0, sl) && sl.State() == Missing && sl.latest == Some(1) && sl.synced == {}
    ensures !Agreed(true, s)
  {
    hide Timeless;
    Alike(Look(s, 0), sl);
    assert !ChunkAgrees(true, s, 0);
  }

  // ---------------------------------------------------------------- the lost newline

  /**
   * An upload record loses its newline in a crash, and the next write is of another chunk: when that
   * one is recovered, it is Clean, uploaded or not, exactly if its generation is that of the upload, or
   * had been uploaded before. Without the crash it would have been Clean in the second case only.
   */
  lemma LostNewlineTurnsClean(cfg: Config, s: State, s': State, events: seq<Event>, up: Event, begin: Event,
                              done: Event)
    requires WalMerge.NextWrite(up, begin, done) && done.chunkId != up.chunkId && done.chunkId in s.files
    requires s.journal == events + [WalMerge.MergedEvent(up, begin)] + [done]
    requires ChunkRecovered(cfg, s, s', done.chunkId)
    ensures var c, g := done.chunkId, Max(LatestLocal(events, done.chunkId).GetOr(0), done.after);
            && c in s'.rows
            && s'.rows[c].state == (if g == up.generation || g in Synced(events, c) then Clean else Dirty)
            && FileOf(s', c) == FileOf(s, c) && ObjectOf(s', c) == ObjectOf(s, c)
            && Summarize(events + [up] + [begin] + [done], c) == Summary(Some(g), g in Synced(events, c))
  {
    hide LatestLocal, Synced, WalMerge.MergedEvent, WalMerge.NextWrite;
    var c := done.chunkId;
    WalMerge.MergedSummary(events, up, begin, done);
    LookRow(s, c);
    LookRow(s', c);
    SameRows(Look(s', c), Look(s, c).(row := RecoveredRow(cfg, FileOf(s, c), RowOf(s, c), Summarize(s.journal, c), 0)));
  }
}
