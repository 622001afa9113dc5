/** Volumes of a few two-byte chunks, small enough that nothing is evicted, followed slot by slot. */
module SmallVolume {
  import opened Wrappers
  import opened Mapper
  import opened Metadata
  import opened Wal
  import opened Store
  import opened Operations
  import opened Transparency
  import opened Recovery
  import opened Writing

  function NoDigest(): string { "sha256:" + seq(64, _ => '0') }

  /** A volume of n chunks, with a checksum function that has the shape of SHA-256 and nothing else. */
  function Tiny(n: nat, cacheMax: nat, low: nat): Config {
    Config(Geometry(2 * n, 2), cacheMax, low, (data: seq<byte>) => NoDigest())
  }

  predicate Unused(s: State, c: nat) {
    c !in s.files && c !in s.rows && LatestLocal(s.journal, c).None?
  }

  /** Only the first n chunks were ever touched, no row has more than two bytes, and the cloud answers. */
  ghost predicate Small(s: State, n: nat) {
    && s.down == {}
    && (forall c: nat :: c >= n ==> Unused(s, c))
    && (forall c :: c in s.rows ==> s.rows[c].size <= 2)
  }

  lemma UnusedIsLook(s: State, c: nat)
    ensures Unused(s, c) <==> Look(s, c).file.None? && Look(s, c).row.None? && Look(s, c).latest.None?
  {
  }

  lemma RowsOfSmall(s: State, n: nat)
    requires Small(s, n)
    ensures forall c :: c in s.rows ==> c < n
  {
    forall c | c in s.rows
      ensures c < n
    {
      assert c >= n ==> Unused(s, c);
    }
  }

  lemma CreatedSmall(cloud: map<nat, seq<byte>>, n: nat, c: nat)
    ensures Small(Created(cloud), n)
    ensures Look(Created(cloud), c) == Slot(None, None, ObjectOf(Created(cloud), c), None, {})
  {
  }

  /** Effects on one chunk. */
  lemma AfterTrace(s: State, n: nat, t: seq<Effect>, c: nat)
    requires Small(s, n) && c < n && About(t, c)
    ensures Look(Run(s, t), c) == RunAt(Look(s, c), t)
    ensures forall d: nat :: d != c ==> Look(Run(s, t), d) == Look(s, d)
    ensures (RunAt(Look(s, c), t).row.Some? ==> RunAt(Look(s, c), t).row.value.size <= 2) ==> Small(Run(s, t), n)
  {
    hide Unused, Run, Look, RunAt;
    var s' := Run(s, t);
    LookAfterRun(s, t, c, c);
    LookRow(s', c);
    forall d: nat
      ensures d != c ==> Look(s', d) == Look(s, d)
      ensures d >= n ==> Unused(s', d)
      ensures d in s'.rows && d != c ==> s'.rows[d].size <= 2
    {
      LookAfterRun(s, t, c, d);
      UnusedIsLook(s, d);
      UnusedIsLook(s', d);
      LookRow(s, d);
      LookRow(s', d);
    }
  }

  /** `order` lists the journaled chunks, each once. */
  predicate Lists(order: seq<nat>, s: State, n: nat) {
    && (forall c: nat :: c < n ==> (c in order <==> LatestLocal(s.journal, c).Some?))
    && (forall c :: c in order ==> c < n)
    && (forall i, j :: 0 <= i < j < |order| ==> order[i] != order[j])
  }

  lemma OrderIs(s: State, n: nat, order: seq<nat>)
    requires Small(s, n) && Lists(order, s, n)
    ensures IsOrder(order, s.journal)
  {
    hide LatestLocal;
    forall c: nat
      ensures c in order <==> c in Journaled(s.journal)
    {
      LatestLocalIsMax(s.journal, c);
      if c >= n {
        assert Unused(s, c);
      }
    }
  }

  // ---------------------------------------------------------------- eviction and splitting

  lemma {:induction false} BytesBound(rows: Table, ids: set<nat>, n: nat)
    requires ids <= rows.Keys && forall c :: c in ids ==> c < n && rows[c].size <= 2
    ensures Bytes(rows, ids) <= 2 * n
    decreases n
  {
    if n == 0 {
      assert ids == {};
    } else {
      if n - 1 in ids {
        BytesRemove(rows, ids, n - 1);
      }
      var rest := ids - {n - 1};
      assert ids == if n - 1 in ids then ids else rest;
      BytesBound(rows, rest, n - 1);
    }
  }

  /** Nothing is evicted from a cache that can hold every chunk. */
  lemma NoEviction(cfg: Config, s: State, n: nat)
    requires Small(s, n) && 2 * n <= cfg.cacheMax
    ensures Evict(cfg, s) == []
  {
    hide Unused, Bytes;
    RowsOfSmall(s, n);
    BytesBound(s.rows, CachedIds(s.rows), n);
  }

  /** Nor from a cache without a Clean chunk. */
  lemma NothingEvictable(cfg: Config, s: State)
    requires forall c :: c in s.rows ==> s.rows[c].state != Clean
    ensures Evict(cfg, s) == []
  {
    hide CachedBytes;
    assert EvictableIds(s.rows) == {};
    assert EvictableCleanChunks(s.rows) == [];
  }

  lemma OnePiece(c: nat, offset: nat, len: nat)
    requires 0 < len && offset + len <= 2
    ensures Pieces(2 * c + offset, len, 2) == [Span(c, offset, 0, len)]
  {
    var at := 2 * c + offset;
    assert at / 2 == c && at % 2 == offset;
    assert PiecesAt(c + 1, 0, 0, 2, len) == [];
    assert PiecesAt(c, offset, len, 2, 0) == [Span(c, offset, 0, len)] + PiecesAt(c + 1, 0, 0, 2, len);
    assert [Span(c, offset, 0, len)] + [] == [Span(c, offset, 0, len)];
  }

  lemma OneSpan(g: Geometry, n: nat, c: nat, offset: nat, len: nat)
    requires g == Geometry(2 * n, 2) && c < n && 2 * n <= U64_MAX && 0 < len && offset + len <= 2
    ensures Spans(2 * c + offset, len, g) == Ok([Span(c, offset, 0, len)])
    ensures g.ChunkLen(c) == 2
  {
    OnePiece(c, offset, len);
    StartIs(g, c);
    var at := 2 * c + offset;
    assert g.chunk == 2 && at + len <= 2 * n <= U64_MAX && g.volume == 2 * n;
    assert Spans(at, len, g) == Ok(Pieces(at, len, 2));
  }

  // ---------------------------------------------------------------- writing

  /** A volume of n chunks whose cache can hold them all. */
  predicate Roomy(cfg: Config, n: nat) {
    cfg.geo == Geometry(2 * n, 2) && 2 * n <= cfg.cacheMax && 2 * n <= U64_MAX
  }

  lemma PrepareWhole(cfg: Config, s: State, n: nat, c: nat)
    requires Roomy(cfg, n) && Small(s, n) && c < n
    ensures Prepare(cfg, s, Span(c, 0, 0, 2)) == Ok(EmptyChunk(cfg, c)) && cfg.geo.ChunkLen(c) == 2
    ensures var s1 := Run(s, EmptyChunk(cfg, c));
            && Small(s1, n) && Look(s1, c) == Look(s, c).(file := Some(Zeroes(2)))
            && s1.journal == s.journal && s1.nextTxid == s.nextTxid
            && forall d: nat :: d != c ==> Look(s1, d) == Look(s, d)
  {
    OneSpan(cfg.geo, n, c, 0, 2);
    Emptied(cfg, s, c, c);
    var s1 := Run(s, EmptyChunk(cfg, c));
    assert forall d: nat :: d >= n && Unused(s, d) ==> Unused(s1, d);
    forall d: nat | d != c
      ensures Look(s1, d) == Look(s, d)
    {
      Emptied(cfg, s, c, d);
    }
  }

  /** Fetching a chunk into a cache that can hold it. */
  lemma FetchOnce(cfg: Config, s: State, n: nat, c: nat)
    requires Roomy(cfg, n) && Small(s, n) && c < n && !InError(s, c) && !Resident(s, c) && Fetch(cfg, s, c).Ok?
    ensures var data := Fetch(cfg, s, c).value;
            && Ensure(cfg, s, c) == Ok(FetchTrace(cfg, s, c, data))
            && Small(Run(s, FetchTrace(cfg, s, c, data)), n)
            && Look(Run(s, FetchTrace(cfg, s, c, data)), c)
               == Look(s, c).(file := Some(data), row := Some(FetchedRow(cfg, s, c, data)))
            && forall d: nat :: d != c ==> Look(Run(s, FetchTrace(cfg, s, c, data)), d) == Look(s, d)
  {
    hide Fetch, Small, Evict, Resident, LatestLocal, Synced, RunAt;
    var data := Fetch(cfg, s, c).value;
    var t := FetchTrace(cfg, s, c, data);
    OneSpan(cfg.geo, n, c, 0, 2);
    AfterTrace(s, n, t, c);
    AfterFetch(cfg, s, c, data);
    NoEviction(cfg, Run(s, t), n);
    assert t + [] == t;
  }

  lemma FetchGives(cfg: Config, s: State, n: nat, c: nat)
    requires Roomy(cfg, n) && Small(s, n) && c < n && |Look(s, c).Image(2)| == 2
    ensures Fetch(cfg, s, c) == Ok(Look(s, c).Image(2))
  {
    OneSpan(cfg.geo, n, c, 0, 2);
  }

  /** What a prepared write of `data` leaves, time stamps aside. */
  function WrittenSlot(sl: Slot, offset: nat, data: seq<byte>): Slot { CommittedSlot(sl, offset, data, 2, 0) }

  /** A write whose chunk gets prepared by the effects t succeeds. */
  lemma WriteDone(cfg: Config, s: State, n: nat, c: nat, offset: nat, data: seq<byte>, t: seq<Effect>)
    requires Roomy(cfg, n) && c < n && 0 < |data| && offset + |data| <= 2
    requires Prepare(cfg, s, Span(c, offset, 0, |data|)) == Ok(t) && Small(Run(s, t), n)
    ensures Write(cfg, s, 2 * c + offset, data).result.Ok?
    ensures Write(cfg, s, 2 * c + offset, data).trace == t + Commit(cfg, Run(s, t), Span(c, offset, 0, |data|), data)
    ensures var s' := Run(s, Write(cfg, s, 2 * c + offset, data).trace);
            && Small(s', n) && SameButTimes(Look(s', c), WrittenSlot(Look(Run(s, t), c), offset, data))
            && forall d: nat :: d != c ==> Look(s', d) == Look(Run(s, t), d)
  {
    hide Prepare, Small, Run, Look, Commit, Evict, RunAt;
    var sp := Span(c, offset, 0, |data|);
    OneSpan(cfg.geo, n, c, offset, |data|);
    assert data[0..|data|] == data;
    WriteOne(cfg, s, sp, data, t);
    CommitIsCommitAt(cfg, Run(s, t), sp, data);
    CommitEnds(Look(Run(s, t), c), c, offset, data, 2, Run(s, t).nextTxid, Run(s, t).clock);
    AfterTrace(Run(s, t), n, Commit(cfg, Run(s, t), sp, data), c);
    RunConcat(s, t, Commit(cfg, Run(s, t), sp, data));
    var s' := Run(s, t + Commit(cfg, Run(s, t), sp, data));
    NoEviction(cfg, s', n);
    assert t + Commit(cfg, Run(s, t), sp, data) + [] == t + Commit(cfg, Run(s, t), sp, data);
  }

  lemma WriteOne(cfg: Config, s: State, sp: Span, data: seq<byte>, t: seq<Effect>)
    requires Within(sp, data) && sp.requestOffset == 0 && sp.len == |data| && Prepare(cfg, s, sp) == Ok(t)
    ensures WriteSpans(cfg, s, [sp], data) == Outcome(t + Commit(cfg, Run(s, t), sp, data), Ok(()))
  {
    hide Prepare, Commit, Run;
    assert data[0..|data|] == data && [sp][1..] == [];
    assert WriteSpan(cfg, s, sp, data) == Ok(t + Commit(cfg, Run(s, t), sp, data));
    var c := t + Commit(cfg, Run(s, t), sp, data);
    assert c + [] == c;
  }

  // ---------------------------------------------------------------- steps

  /** Chunk c is, time stamps aside, as sl says. */
  ghost predicate At(s: State, c: nat, sl: Slot) { SameButTimes(Look(s, c), sl) }

  /** What can be read off a slot whatever its time stamps. */
  lemma Alike(a: Slot, b: Slot)
    requires SameButTimes(a, b)
    ensures a.file == b.file && a.remote == b.remote && a.latest == b.latest && a.synced == b.synced
    ensures a.State() == b.State() && a.Gen() == b.Gen() && a.Image(2) == b.Image(2)
    ensures a.Committed() <==> b.Committed()
    ensures a.row.Some? <==> b.row.Some?
    ensures a.row.Some? ==> Timeless(a.row) == Timeless(b.row) && a.row.value.hasPath == b.row.value.hasPath
    ensures a.row.Some? ==> a.row.value.size == b.row.value.size && a.row.value.localGen == b.row.value.localGen
  {
    var x, y := a.(row := None), b.(row := None);
    assert x.file == y.file && x.remote == y.remote && x.latest == y.latest && x.synced == y.synced;
    if a.row.Some? {
      var m, n := Timeless(a.row).value, Timeless(b.row).value;
      assert m.state == n.state && m.hasPath == n.hasPath && m.size == n.size && m.localGen == n.localGen;
    }
  }

  lemma WrittenAlike(a: Slot, b: Slot, offset: nat, data: seq<byte>)
    requires a.file == b.file && a.remote == b.remote && a.latest == b.latest && a.synced == b.synced
    requires a.Gen() == b.Gen()
    ensures WrittenSlot(a, offset, data) == WrittenSlot(b, offset, data)
  {
  }

  lemma Follow(a: Slot, b: Slot, c: Slot)
    requires SameButTimes(a, b) && SameButTimes(b, c)
    ensures SameButTimes(a, c)
  {
  }

  /** Everything about the other chunks is as before. */
  ghost predicate Others(s: State, s': State, c: nat) {
    forall d: nat :: d != c ==> Look(s', d) == Look(s, d)
  }

  /** `write_at` of a whole chunk. */
  lemma WholeWrite(cfg: Config, s: State, n: nat, c: nat, sl: Slot, data: seq<byte>)
    requires Roomy(cfg, n) && Small(s, n) && c < n && At(s, c, sl) && |data| == 2
    ensures Write(cfg, s, 2 * c, data).result.Ok?
    ensures Write(cfg, s, 2 * c, data).trace
         == EmptyChunk(cfg, c) + Commit(cfg, Run(s, EmptyChunk(cfg, c)), Span(c, 0, 0, 2), data)
    ensures var s' := Run(s, Write(cfg, s, 2 * c, data).trace);
            Small(s', n) && At(s', c, WrittenSlot(sl.(file := Some(Zeroes(2))), 0, data)) && Others(s, s', c)
  {
    hide Prepare, Small, Run, Look, Commit, Write, SameButTimes, WrittenSlot, EmptyChunk;
    var t := EmptyChunk(cfg, c);
    PrepareWhole(cfg, s, n, c);
    WriteDone(cfg, s, n, c, 0, data, t);
    Alike(Look(s, c), sl);
    WrittenAlike(Look(Run(s, t), c), sl.(file := Some(Zeroes(2))), 0, data);
  }

  /** A chunk that was fetched into a cache with room for it. */
  function FetchedSlot(sl: Slot): Slot {
    sl.(file := Some(sl.Image(2)), row := Some(Meta(true, Clean, 2, None, None, Some(NoDigest()), 0, None, 0)))
  }

  /** `write_at` of a byte, when the chunk has to be fetched first. */
  lemma ByteWrite(cfg: Config, s: State, n: nat, c: nat, sl: Slot, data: seq<byte>)
    requires Roomy(cfg, n) && Small(s, n) && c < n && At(s, c, sl) && |data| == 1
    requires sl.State() == Missing && sl.file.None? && |sl.Image(2)| == 2
    ensures Write(cfg, s, 2 * c, data).result.Ok?
    ensures var s' := Run(s, Write(cfg, s, 2 * c, data).trace);
            Small(s', n) && At(s', c, WrittenSlot(FetchedSlot(sl), 0, data)) && Others(s, s', c)
  {
    hide Small, Run, Commit, Write, SameButTimes, WrittenSlot, Fetch, LatestLocal, Synced, Ensure;
    Alike(Look(s, c), sl);
    LookRow(s, c);
    FetchGives(cfg, s, n, c);
    FetchOnce(cfg, s, n, c);
    OneSpan(cfg.geo, n, c, 0, 1);
    var t := FetchTrace(cfg, s, c, Fetch(cfg, s, c).value);
    assert Prepare(cfg, s, Span(c, 0, 0, 1)) == Ok(t);
    WriteDone(cfg, s, n, c, 0, data, t);
    WrittenAlike(Look(Run(s, t), c), FetchedSlot(sl), 0, data);
  }

  function SyncedSlot(sl: Slot): Slot
    requires sl.row.Some?
  {
    sl.(row := Some(sl.row.value.(state := Clean, remoteGen := Some(sl.Gen()), checksum := Some(NoDigest()),
                                  dirtySince := None)),
        remote := sl.file, synced := sl.synced + {sl.Gen()})
  }

  /** Chunk c is the only Dirty one. */
  predicate OnlyDirty(s: State, c: nat) {
    c in s.rows && s.rows[c].state == Dirty && forall d :: d in s.rows && d != c ==> s.rows[d].state != Dirty
  }

  lemma OneDirty(s: State, c: nat)
    requires OnlyDirty(s, c)
    ensures DirtyChunks(s.rows) == [c]
  {
    hide Listing;
    assert DirtyIds(s.rows) == {c};
    var list := DirtyChunks(s.rows);
    assert |list| == 1 && list[0] in list;
  }

  lemma UploadOne(cfg: Config, s: State, n: nat, c: nat)
    requires (forall data: seq<byte> :: cfg.digest(data) == NoDigest()) && Small(s, n) && c < n
    requires c in s.rows && s.rows[c].state == Dirty && s.rows[c].hasPath && c in s.files
    ensures SyncOne(cfg, s, c).result.Ok?
    ensures |SyncOne(cfg, s, c).trace| == 4 && !SyncOne(cfg, s, c).trace[1].WriteFile?
    ensures SyncOne(cfg, s, c).trace[0] == Upsert(c, s.rows[c].(state := Uploading))
    ensures SyncOne(cfg, s, c).trace[3] == Append(CloudCommitted(c, s.rows[c].localGen.GetOr(0), NoDigest()))
    ensures forall i :: 0 <= i < 3 ==> !SyncOne(cfg, s, c).trace[i].Append?
    ensures var s' := Run(s, SyncOne(cfg, s, c).trace);
            Small(s', n) && Look(s', c) == SyncedSlot(Look(s, c)) && Others(s, s', c)
  {
    hide LatestLocal, Synced, Unused;
    var t := SyncOne(cfg, s, c).trace;
    var s1, s2 := ApplyAt(Look(s, c), t[0]), ApplyAt(ApplyAt(Look(s, c), t[0]), t[1]);
    var s3 := ApplyAt(s2, t[2]);
    assert t[1..] == [t[1], t[2], t[3]] && t[1..][1..] == [t[2], t[3]] && t[1..][1..][1..] == [t[3]]
        && t[1..][1..][1..][1..] == [];
    assert RunAt(s3, [t[3]]) == ApplyAt(s3, t[3]);
    assert RunAt(s2, [t[2], t[3]]) == RunAt(s3, [t[3]]);
    assert RunAt(s1, [t[1], t[2], t[3]]) == RunAt(s2, [t[2], t[3]]);
    AfterTrace(s, n, t, c);
  }

  lemma SyncIs(cfg: Config, s: State, c: nat)
    requires DirtyChunks(s.rows) == [c] && c in s.rows && SyncOne(cfg, s, c).result.Ok?
    requires Evict(cfg, Run(s, SyncOne(cfg, s, c).trace)) == []
    ensures Sync(cfg, s) == SyncOne(cfg, s, c)
  {
    hide SyncOne, Run, Evict, DirtyChunks;
    var one := SyncOne(cfg, s, c);
    assert [c][1..] == [];
    assert SyncList(cfg, Run(s, one.trace), []) == Outcome([], Ok(0));
    assert one.trace + [] == one.trace;
    assert SyncList(cfg, s, [c]) == one;
  }

  /** `sync_dirty` of one chunk. */
  lemma SyncStep(cfg: Config, s: State, n: nat, c: nat, sl: Slot)
    requires (forall data: seq<byte> :: cfg.digest(data) == NoDigest()) && Roomy(cfg, n) && Small(s, n) && c < n
    requires At(s, c, sl) && OnlyDirty(s, c) && sl.row.Some? && sl.row.value.hasPath && sl.file.Some?
    ensures Sync(cfg, s).result.Ok? && Sync(cfg, s) == SyncOne(cfg, s, c)
    ensures var s' := Run(s, Sync(cfg, s).trace); Small(s', n) && At(s', c, SyncedSlot(sl)) && Others(s, s', c)
  {
    hide Small, Run, SyncOne, Evict, LatestLocal, Synced;
    Alike(Look(s, c), sl);
    LookRow(s, c);
    OneDirty(s, c);
    UploadOne(cfg, s, n, c);
    NoEviction(cfg, Run(s, SyncOne(cfg, s, c).trace), n);
    SyncIs(cfg, s, c);
    SyncedAlike(Look(s, c), sl);
  }

  lemma SyncedAlike(a: Slot, b: Slot)
    requires SameButTimes(a, b) && a.row.Some?
    ensures b.row.Some? && SameButTimes(SyncedSlot(a), SyncedSlot(b))
  {
    Alike(a, b);
    var m, n := Timeless(a.row).value, Timeless(b.row).value;
    assert m.pins == n.pins;
  }

  // ---------------------------------------------------------------- recovery and reads

  function RecoveredSlot(cfg: Config, sl: Slot): Slot {
    sl.(row := RecoveredRow(cfg, sl.file, sl.row, Summary(sl.latest, sl.Committed()), 0))
  }

  lemma RecoveredAlike(cfg: Config, a: Slot, b: Slot)
    requires SameButTimes(a, b)
    ensures SameButTimes(RecoveredSlot(cfg, a), RecoveredSlot(cfg, b))
  {
    hide RecoveredRow;
    Alike(a, b);
    TimelessRecovered(cfg, a.file, a.row, b.row, Summary(a.latest, a.Committed()));
  }

  lemma RecoverStep(cfg: Config, s: State, s': State, c: nat, sl: Slot)
    requires At(s, c, sl) && IsRecovered(cfg, s, s')
    ensures At(s', c, RecoveredSlot(cfg, sl))
  {
    hide LatestLocal, Synced, RecoveredRow;
    assert ChunkRecovered(cfg, s, s', c);
    LookRow(s, c);
    RecoveredAlike(cfg, Look(s, c), sl);
    Follow(Look(s', c), RecoveredSlot(cfg, Look(s, c)), RecoveredSlot(cfg, sl));
  }

  /** No file is longer than its chunk. */
  ghost predicate ShortFiles(s: State) { forall c :: c in s.files ==> |s.files[c]| <= 2 }

  lemma RecoveredSmall(cfg: Config, s: State, s': State, n: nat)
    requires Small(s, n) && ShortFiles(s) && IsRecovered(cfg, s, s') && s'.down == s.down
    ensures Small(s', n)
  {
    hide LatestLocal, Synced, Unused;
    forall c: nat
      ensures c >= n ==> Unused(s', c)
      ensures c in s'.rows ==> s'.rows[c].size <= 2
    {
      assert ChunkRecovered(cfg, s, s', c);
      UnusedIsLook(s, c);
      UnusedIsLook(s', c);
      StaysSmall(cfg, s, s', c);
    }
  }

  lemma StaysSmall(cfg: Config, s: State, s': State, c: nat)
    requires ChunkRecovered(cfg, s, s', c)
    ensures Unused(s, c) ==> Look(s', c).file.None? && Look(s', c).row.None? && Look(s', c).latest.None?
    ensures (c in s.rows ==> s.rows[c].size <= 2) && (c in s.files ==> |s.files[c]| <= 2) && c in s'.rows ==>
              s'.rows[c].size <= 2
  {
    hide LatestLocal, Synced;
    var to := Look(s, c).(row := RecoveredRow(cfg, FileOf(s, c), RowOf(s, c), Summarize(s.journal, c), 0));
    Alike(Look(s', c), to);
    LookRow(s, c);
    LookRow(s', c);
  }

  lemma KeepsShort(s: State, s': State)
    requires ShortFiles(s) && forall c: nat :: FileOf(s', c) == FileOf(s, c)
    ensures ShortFiles(s')
  {
    forall c | c in s'.files
      ensures |s'.files[c]| <= 2
    {
      assert FileOf(s', c) == FileOf(s, c);
    }
  }

  /** Files of the chunks in `gone` are lost, and a live engine runs `fsck`. */
  lemma LossStep(cfg: Config, s: State, n: nat, gone: set<nat>, order: seq<nat>, c: nat, sl: Slot)
    requires Small(s, n) && ShortFiles(s) && Lists(order, s, n) && At(s, c, sl)
    ensures IsOrder(order, s.journal)
    ensures var s' := Run(LoseFiles(s, gone), Fsck(cfg, LoseFiles(s, gone), order));
            Small(s', n) && At(s', c, RecoveredSlot(cfg, if c in gone then sl.(file := None) else sl))
  {
    hide Fsck, IsRecovered, LatestLocal, Synced, Run;
    OrderIs(s, n, order);
    var lost := LoseFiles(s, gone);
    assert forall d: nat :: Unused(s, d) ==> Unused(lost, d);
    assert Small(lost, n);
    Alike(Look(s, c), sl);
    assert Look(lost, c) == if c in gone then Look(s, c).(file := None) else Look(s, c);
    FsckIsRecovered(cfg, lost, order);
    RecoverStep(cfg, lost, Run(lost, Fsck(cfg, lost, order)), c, if c in gone then sl.(file := None) else sl);
    RecoveredSmall(cfg, lost, Run(lost, Fsck(cfg, lost, order)), n);
  }

  /** The process dies, and a new one opens the volume. */
  lemma OpenStep(cfg: Config, s: State, n: nat, order: seq<nat>, c: nat, sl: Slot)
    requires Small(s, n) && ShortFiles(s) && Lists(order, s, n) && At(s, c, sl)
    ensures IsOrder(order, s.journal)
    ensures Small(Reopened(cfg, s, order), n) && At(Reopened(cfg, s, order), c, RecoveredSlot(cfg, sl))
  {
    hide Recover, IsRecovered, LatestLocal, Synced, Run;
    OrderIs(s, n, order);
    var l := Loaded(s);
    assert forall d: nat :: Unused(s, d) ==> Unused(l, d);
    assert Small(l, n) && Look(l, c) == Look(s, c);
    RecoverIsRecovered(cfg, l, order);
    RecoverStep(cfg, l, Reopened(cfg, s, order), c, sl);
    RecoveredSmall(cfg, l, Reopened(cfg, s, order), n);
  }

  lemma ReadFile(cfg: Config, s: State, n: nat, c: nat, offset: nat, len: nat, t: seq<Effect>)
    requires cfg.geo == Geometry(2 * n, 2) && 2 * n <= U64_MAX && c < n && 0 < len && offset + len <= 2
    requires Ensure(cfg, s, c) == Ok(t)
    requires FileOf(Run(s, t), c).Some?
    ensures var file := FileOf(Run(s, t), c).value;
            Read(cfg, s, 2 * c + offset, len).result
            == if offset + len <= |file| then Ok(file[offset..offset + len]) else Err(Io)
  {
    hide Ensure, Touch, Run;
    OneSpan(cfg.geo, n, c, offset, len);
    var sp := Span(c, offset, 0, len);
    assert [sp][1..] == [];
    var s1 := Run(s, t);
    if offset + len <= |s1.files[c]| {
      var got := s1.files[c][offset..offset + len];
      var t' := t + Touch(s1, c);
      assert ReadSpans(cfg, Run(s, t'), []) == Outcome([], Ok([]));
      assert got + [] == got;
    }
  }

  /** A read of a chunk that has to be fetched returns what the cloud has. */
  lemma ReadFetched(cfg: Config, s: State, n: nat, c: nat, sl: Slot)
    requires Roomy(cfg, n) && Small(s, n) && c < n && At(s, c, sl)
    requires sl.State() != ChunkState.Error && sl.file.None? && |sl.Image(2)| == 2
    ensures Read(cfg, s, 2 * c, 2).result == Ok(sl.Image(2))
  {
    hide Small, Run, Read, SameButTimes, Fetch, LatestLocal, Synced, Ensure;
    Alike(Look(s, c), sl);
    LookRow(s, c);
    FetchGives(cfg, s, n, c);
    FetchOnce(cfg, s, n, c);
    var t := FetchTrace(cfg, s, c, Fetch(cfg, s, c).value);
    LookRow(Run(s, t), c);
    ReadFile(cfg, s, n, c, 0, 2, t);
    assert sl.Image(2)[0..2] == sl.Image(2);
  }

  // ---------------------------------------------------------------- crashes

  lemma AlmostCommitted(sl: Slot, c: nat, data: seq<byte>, txid: nat, now: nat, t: seq<Effect>)
    requires |data| == 2
    requires t == [PutFile(c, []), SetLen(c, 2), Append(WriteBegin(txid, c, 0, 2, sl.Gen(), sl.Gen() + 1)),
                   WriteFile(c, 0, data, 2), Upsert(c, DirtyRow(2, sl.Gen() + 1, now))]
    ensures RunAt(sl, t) == sl.(file := Some(data), row := Some(DirtyRow(2, sl.Gen() + 1, now)))
  {
    var s2 := sl.(file := Some(Overwrite([], 0, [], 2)));
    assert RunAt(sl, t) == RunAt(ApplyAt(sl, t[0]), t[1..]);
    assert RunAt(ApplyAt(sl, t[0]), t[1..]) == RunAt(s2, t[2..]) by {
      assert t[1..][1..] == t[2..];
    }
    assert RunAt(s2, t[2..]) == RunAt(s2, t[3..]) by {
      assert t[2..][1..] == t[3..];
    }
    var s4 := s2.(file := Some(Overwrite(s2.file.value, 0, data, 2)));
    assert RunAt(s2, t[3..]) == RunAt(s4, t[4..]) by {
      assert t[3..][1..] == t[4..];
    }
    assert RunAt(s4, t[4..]) == RunAt(s4.(row := Some(DirtyRow(2, sl.Gen() + 1, now))), []) by {
      assert t[4..][1..] == [];
    }
    assert Overwrite(s2.file.value, 0, data, 2) == data;
  }

  /** `write_at` of a whole chunk, cut just before its LocalCommitted record. */
  lemma WriteCut(cfg: Config, s: State, n: nat, c: nat, sl: Slot, data: seq<byte>)
    requires Roomy(cfg, n) && Small(s, n) && c < n && At(s, c, sl) && |data| == 2
    ensures |Write(cfg, s, 2 * c, data).trace| == 6
    ensures var s' := Torn(s, Write(cfg, s, 2 * c, data).trace, 5, []);
            Small(s', n) && At(s', c, sl.(file := Some(data), row := Some(DirtyRow(2, sl.Gen() + 1, 0))))
                && Others(s, s', c)
  {
    hide Small, Run, Write, SameButTimes, WrittenSlot, Look, RunAt;
    Alike(Look(s, c), sl);
    WholeWrite(cfg, s, n, c, sl, data);
    var t := Write(cfg, s, 2 * c, data).trace;
    var s1 := Run(s, EmptyChunk(cfg, c));
    PrepareWhole(cfg, s, n, c);
    AlmostCommitted(Look(s, c), c, data, s1.nextTxid, s1.clock, t[..5]);
    AfterTrace(s, n, t[..5], c);
    SameWritten(Look(s, c), sl, data, s1.clock);
  }

  lemma SameWritten(a: Slot, b: Slot, data: seq<byte>, now: nat)
    requires SameButTimes(a, b)
    ensures SameButTimes(a.(file := Some(data), row := Some(DirtyRow(2, a.Gen() + 1, now))),
                         b.(file := Some(data), row := Some(DirtyRow(2, b.Gen() + 1, 0))))
  {
    Alike(a, b);
  }

  /** `write_at` of a whole chunk, cut between truncating its file and setting its length. */
  lemma TruncationCut(cfg: Config, s: State, n: nat, c: nat, sl: Slot, data: seq<byte>)
    requires Roomy(cfg, n) && Small(s, n) && c < n && At(s, c, sl) && |data| == 2
    ensures |Write(cfg, s, 2 * c, data).trace| == 6
    ensures var s' := Torn(s, Write(cfg, s, 2 * c, data).trace, 1, []);
            Small(s', n) && At(s', c, sl.(file := Some([]))) && Others(s, s', c)
  {
    hide Small, Run, Write, WrittenSlot, Look, RunAt, LatestLocal, Synced;
    Alike(Look(s, c), sl);
    WholeWrite(cfg, s, n, c, sl, data);
    var t := Write(cfg, s, 2 * c, data).trace;
    assert t[..1] == [PutFile(c, [])];
    RunOne(s, PutFile(c, []));
    OneTruncation(s, n, c);
  }

  lemma OneTruncation(s: State, n: nat, c: nat)
    requires Small(s, n) && c < n
    ensures var s' := Apply(s, PutFile(c, []));
            Small(s', n) && Look(s', c) == Look(s, c).(file := Some([])) && Others(s, s', c)
  {
    var s' := Apply(s, PutFile(c, []));
    assert forall d: nat :: d >= n && Unused(s, d) ==> Unused(s', d);
    forall d: nat
      ensures d != c ==> Look(s', d) == Look(s, d)
    {
      LookAfter(s, PutFile(c, []), d);
    }
  }

  /** `sync_dirty`, cut just after it has marked the chunk. */
  lemma SyncCut(cfg: Config, s: State, n: nat, c: nat, sl: Slot)
    requires (forall data: seq<byte> :: cfg.digest(data) == NoDigest()) && Roomy(cfg, n) && Small(s, n) && c < n
    requires At(s, c, sl) && OnlyDirty(s, c) && sl.row.Some? && sl.row.value.hasPath && sl.file.Some?
    requires sl.row.value.size <= 2
    ensures |Sync(cfg, s).trace| == 4
    ensures var s' := Torn(s, Sync(cfg, s).trace, 1, []);
            Small(s', n) && At(s', c, sl.(row := Some(sl.row.value.(state := Uploading)))) && Others(s, s', c)
  {
    hide Small, Run, Sync, SyncOne, LatestLocal, Synced;
    Alike(Look(s, c), sl);
    LookRow(s, c);
    SyncStep(cfg, s, n, c, sl);
    UploadOne(cfg, s, n, c);
    var t := Sync(cfg, s).trace;
    assert t[..1] == [t[0]] && t[..1][1..] == [];
    assert RunAt(Look(s, c), t[..1]) == ApplyAt(Look(s, c), t[0]);
    AfterTrace(s, n, t[..1], c);
    SameUploading(Look(s, c), sl);
  }

  lemma SameUploading(a: Slot, b: Slot)
    requires SameButTimes(a, b) && a.row.Some?
    ensures b.row.Some?
    ensures SameButTimes(a.(row := Some(a.row.value.(state := Uploading))),
                         b.(row := Some(b.row.value.(state := Uploading))))
  {
    Alike(a, b);
    var x, y := a.(row := None), b.(row := None);
    var m, n := Timeless(a.row).value, Timeless(b.row).value;
    assert m.pins == n.pins && m.remoteGen == n.remoteGen && m.checksum == n.checksum;
  }

  lemma AlmostSynced(cfg: Config, s: State, c: nat)
    requires (forall data: seq<byte> :: cfg.digest(data) == NoDigest()) && s.down == {}
    requires c in s.rows && s.rows[c].state == Dirty && s.rows[c].hasPath && c in s.files
    ensures |SyncOne(cfg, s, c).trace| == 4 && !SyncOne(cfg, s, c).trace[3].WriteFile?
    ensures About(SyncOne(cfg, s, c).trace[..3], c)
    ensures RunAt(Look(s, c), SyncOne(cfg, s, c).trace[..3]) == SyncedSlot(Look(s, c)).(synced := Look(s, c).synced)
  {
    hide LatestLocal, Synced;
    var t := SyncOne(cfg, s, c).trace;
    var u := t[..3];
    assert u == [t[0], t[1], t[2]] && u[1..] == [t[1], t[2]] && u[1..][1..] == [t[2]] && u[1..][1..][1..] == [];
    var s1, s2 := ApplyAt(Look(s, c), t[0]), ApplyAt(ApplyAt(Look(s, c), t[0]), t[1]);
    assert RunAt(s2, [t[2]]) == ApplyAt(s2, t[2]);
    assert RunAt(s1, [t[1], t[2]]) == RunAt(s2, [t[2]]);
  }

  /** `sync_dirty`, cut just before its CloudCommitted record. */
  lemma SyncCutLate(cfg: Config, s: State, n: nat, c: nat, sl: Slot)
    requires (forall data: seq<byte> :: cfg.digest(data) == NoDigest()) && Roomy(cfg, n) && Small(s, n) && c < n
    requires At(s, c, sl) && OnlyDirty(s, c) && sl.row.Some? && sl.row.value.hasPath && sl.file.Some?
    requires sl.row.value.size <= 2
    ensures |Sync(cfg, s).trace| == 4
    ensures var s' := Torn(s, Sync(cfg, s).trace, 3, []);
            Small(s', n) && At(s', c, SyncedSlot(sl).(synced := sl.synced)) && Others(s, s', c)
  {
    hide Small, Run, Sync, SyncOne, LatestLocal, Synced;
    Alike(Look(s, c), sl);
    LookRow(s, c);
    SyncStep(cfg, s, n, c, sl);
    DownOfSmall(s, n);
    AlmostSynced(cfg, s, c);
    AfterTrace(s, n, SyncOne(cfg, s, c).trace[..3], c);
    SyncedAlike(Look(s, c), sl);
    SameSynced(SyncedSlot(Look(s, c)), SyncedSlot(sl), sl.synced);
  }

  lemma DownOfSmall(s: State, n: nat)
    requires Small(s, n)
    ensures s.down == {}
  {
  }

  lemma SameSynced(a: Slot, b: Slot, synced: set<nat>)
    requires SameButTimes(a, b)
    ensures SameButTimes(a.(synced := synced), b.(synced := synced))
  {
    hide Timeless;
    var x, y := a.(row := None), b.(row := None);
    assert x.file == y.file && x.remote == y.remote && x.latest == y.latest;
  }
}
