/**
 * The cached bytes that eviction goes by are the bytes in the files: of the cached chunks after every run in
 * which no crash leaves a file short and no loss goes unnoticed, and of all files on disk if none crashes.
 */
module Accounting {
  import opened Wrappers
  import opened Mapper
  import opened Metadata
  import opened Wal
  import opened Store
  import opened Operations
  import opened Recovery
  import opened Writing
  import opened Runs
  import opened Loops
  import opened CacheLimit
  import opened Serving
  import opened Success
  import opened Records
  import opened Uploads
  import opened Repairs
  import opened RowShapes
  import opened Lengths

  /** Bytes in the files of the chunks in `ids`. */
  ghost function FileBytes(files: map<nat, seq<byte>>, ids: set<nat>): nat
    requires ids <= files.Keys
  {
    if ids == {} then 0 else var c :| c in ids; |files[c]| + FileBytes(files, ids - {c})
  }

  lemma {:induction false} FileBytesRemove(files: map<nat, seq<byte>>, ids: set<nat>, c: nat)
    requires ids <= files.Keys && c in ids
    ensures FileBytes(files, ids) == |files[c]| + FileBytes(files, ids - {c})
  {
    var d :| d in ids && FileBytes(files, ids) == |files[d]| + FileBytes(files, ids - {d});
    if d != c {
      FileBytesRemove(files, ids - {d}, c);
      FileBytesRemove(files, ids - {c}, d);
      assert ids - {d} - {c} == ids - {c} - {d};
    }
  }

  lemma {:induction false} BytesAreFileBytes(rows: Table, files: map<nat, seq<byte>>, ids: set<nat>)
    requires ids <= rows.Keys && ids <= files.Keys && forall c :: c in ids ==> rows[c].size == |files[c]|
    ensures Bytes(rows, ids) == FileBytes(files, ids)
  {
    if ids != {} {
      var c :| c in ids;
      BytesRemove(rows, ids, c);
      FileBytesRemove(files, ids, c);
      BytesAreFileBytes(rows, files, ids - {c});
    }
  }

  // ---------------------------------------------------------------- cached rows have files

  ghost predicate AllBacked(s: State) { forall c: nat :: IsCached(s, c) ==> c in s.files }

  /** A file is of a cached chunk, and the row has its size and, if any, its checksum. */
  predicate ChunkTrue(cfg: Config, s: State, c: nat) {
    c in s.files ==>
      && IsCached(s, c) && s.rows[c].size == |s.files[c]|
      && (s.rows[c].checksum.Some? ==> s.rows[c].checksum == Some(cfg.digest(s.files[c])))
  }

  ghost predicate AllTrue(cfg: Config, s: State) { forall c: nat :: ChunkTrue(cfg, s, c) }

  /** What an operation that is not cut keeps: every cached row has its file, and every file, if told of, its row. */
  ghost predicate KeepsAccounts(cfg: Config, s: State, s': State) {
    && (AllBacked(s) ==> AllBacked(s'))
    && (AllTrue(cfg, s) && AllShaped(s) ==> AllTrue(cfg, s'))
  }

  lemma AccountsTrans(cfg: Config, a: State, b: State, c: State)
    requires KeepsAccounts(cfg, a, b) && KeepsAccounts(cfg, b, c) && (AllShaped(a) ==> AllShaped(b))
    ensures KeepsAccounts(cfg, a, c)
  {
  }

  lemma EvictedKeeps(cfg: Config, s: State, s': State)
    requires EvictedExactly(cfg, s, s')
    ensures KeepsAccounts(cfg, s, s')
  {
    hide WithinLimit, CachedBytes, UsedBefore, Shaped;
    forall d: nat
      ensures IsCached(s', d) ==> IsCached(s, d) && (d in s'.files <==> d in s.files)
      ensures AllShaped(s) && ChunkTrue(cfg, s, d) ==> ChunkTrue(cfg, s', d)
    {
      if d in Gone(s, s') {
        CleanHasPath(s, d);
      } else {
        assert WasKept(s, s', d);
        SameRow(s, s', d);
      }
    }
    if AllBacked(s) {
      forall d: nat | IsCached(s', d)
        ensures d in s'.files
      {
        assert IsCached(s, d);
      }
    }
    assert AllTrue(cfg, s) && AllShaped(s) ==> forall d: nat :: ChunkTrue(cfg, s, d);
  }

  lemma CleanHasPath(s: State, d: nat)
    ensures AllShaped(s) && d in s.rows && s.rows[d].state == Clean ==> s.rows[d].hasPath
  {
  }

  lemma EnsureKeeps(cfg: Config, s: State, c: nat)
    requires cfg.Valid() && Ensure(cfg, s, c).Ok?
    ensures KeepsAccounts(cfg, s, Run(s, Ensure(cfg, s, c).value))
  {
    hide Ensure, Run, EvictedExactly, AllShaped, Shapes, Shaped;
    EnsuresExactly(cfg, s, c);
    var s' := Run(s, Ensure(cfg, s, c).value);
    if !Held(s, c) {
      var data := Obtained(cfg, s, c);
      var row := Meta(true, Clean, cfg.geo.ChunkLen(c), None, None, Some(cfg.digest(data)), s.clock, None, 0);
      var s1 := s.(files := s.files[c := data], rows := s.rows[c := row], clock := s.clock + 1);
      ObtainedLength(cfg, s, c);
      InstalledKeeps(cfg, s, s1, c);
      CleanRowShaped(row);
      InstalledShaped(s, s1, c, row);
      EvictedKeeps(cfg, s1, s');
      AccountsTrans(cfg, s, s1, s');
    }
  }

  lemma ObtainedLength(cfg: Config, s: State, c: nat)
    requires Obtainable(cfg, s, c)
    ensures |Obtained(cfg, s, c)| == cfg.geo.ChunkLen(c)
  {
  }

  lemma InstalledKeeps(cfg: Config, s: State, s1: State, c: nat)
    requires c in s1.files && IsCached(s1, c) && ChunkTrue(cfg, s1, c)
    requires forall d: nat :: d != c ==> WasKept(s, s1, d)
    ensures KeepsAccounts(cfg, s, s1)
  {
    forall d: nat | d != c
      ensures (IsCached(s1, d) <==> IsCached(s, d)) && (d in s1.files <==> d in s.files)
      ensures ChunkTrue(cfg, s, d) ==> ChunkTrue(cfg, s1, d)
    {
      SameRow(s, s1, d);
    }
    if AllBacked(s) {
      forall d: nat | IsCached(s1, d)
        ensures d in s1.files
      {
        assert d != c ==> IsCached(s, d);
      }
    }
    if AllTrue(cfg, s) {
      forall d: nat
        ensures ChunkTrue(cfg, s1, d)
      {
        assert ChunkTrue(cfg, s, d);
      }
    }
  }

  lemma CleanRowShaped(m: Meta)
    requires m.hasPath && m.state == Clean && m.pins == 0
    requires m.remoteGen == None && m.checksum.Some? && m.dirtySince == None
    ensures Shaped(m)
  {
  }

  lemma InstalledShaped(s: State, s1: State, c: nat, row: Meta)
    requires AllShaped(s) ==> Shaped(row)
    requires row.lastAccess == s.clock && row.dirtySince == None
    requires s1.rows == s.rows[c := row] && s1.clock == s.clock + 1
    ensures AllShaped(s) ==> AllShaped(s1)
  {
  }

  lemma TouchKeeps(cfg: Config, s: State, c: nat)
    ensures KeepsAccounts(cfg, s, Run(s, Touch(s, c)))
  {
    hide Shaped;
    var s1 := Run(s, Touch(s, c));
    RunNothing(s);
    if c in s.rows {
      RunOne(s, Touch(s, c)[0]);
    }
    assert forall d: nat :: IsCached(s1, d) <==> IsCached(s, d);
    if AllTrue(cfg, s) {
      forall d: nat
        ensures ChunkTrue(cfg, s1, d)
      {
        assert ChunkTrue(cfg, s, d);
      }
    }
  }

  lemma ReadOneKeeps(cfg: Config, s: State, sp: Span)
    requires cfg.Valid()
    ensures KeepsAccounts(cfg, s, Run(s, ReadOne(cfg, s, sp).trace))
    ensures AllShaped(s) ==> AllShaped(Run(s, ReadOne(cfg, s, sp).trace))
  {
    hide Ensure, Run, Touch, KeepsAccounts, AllShaped, Shapes;
    RunNothing(s);
    NothingKeeps(cfg, s);
    var c := sp.chunkId;
    if Ensure(cfg, s, c).Ok? {
      var t := Ensure(cfg, s, c).value;
      var s1 := Run(s, t);
      EnsureKeeps(cfg, s, c);
      TouchKeeps(cfg, s1, c);
      RunConcat(s, t, Touch(s1, c));
      if AllShaped(s) {
        EnsureShapes(cfg, s, c);
        ShapesRun(s, t);
        TouchShapes(s1, c);
        ShapesRun(s1, Touch(s1, c));
      }
      AccountsTrans(cfg, s, s1, Run(s1, Touch(s1, c)));
    }
  }

  lemma NothingKeeps(cfg: Config, s: State)
    ensures KeepsAccounts(cfg, s, s)
  {
  }

  lemma {:induction false} ReadSpansKeep(cfg: Config, s: State, spans: seq<Span>)
    requires cfg.Valid()
    ensures KeepsAccounts(cfg, s, Run(s, ReadSpans(cfg, s, spans).trace))
    decreases |spans|
  {
    hide ReadOne, ReadSpans, Run, KeepsAccounts, AllShaped;
    ReadUnfold(cfg, s, spans);
    RunNothing(s);
    NothingKeeps(cfg, s);
    if spans != [] {
      var one := ReadOne(cfg, s, spans[0]);
      var s1 := Run(s, one.trace);
      ReadOneKeeps(cfg, s, spans[0]);
      if one.result.Ok? {
        var rest := ReadSpans(cfg, s1, spans[1..]);
        ReadSpansKeep(cfg, s1, spans[1..]);
        RunConcat(s, one.trace, rest.trace);
        AccountsTrans(cfg, s, s1, Run(s1, rest.trace));
      }
    }
  }

  // ---------------------------------------------------------------- write_at and sync_dirty

  lemma LeftAloneKeeps(cfg: Config, s: State, s': State, d: nat)
    requires LeftAlone(s, s', d)
    ensures IsCached(s', d) ==> IsCached(s, d) && (d in s'.files <==> d in s.files)
    ensures AllShaped(s) && ChunkTrue(cfg, s, d) ==> ChunkTrue(cfg, s', d)
  {
    if WasKept(s, s', d) {
      SameRow(s, s', d);
    } else {
      CleanHasPath(s, d);
    }
  }

  lemma WrittenIsTrue(cfg: Config, s: State, s': State, sp: Span, data: seq<byte>, generation: nat)
    requires Within(sp, data) && WasWritten(cfg, s, s', sp, data, generation)
    requires sp.offsetInChunk + sp.len <= cfg.geo.ChunkLen(sp.chunkId)
    ensures IsCached(s', sp.chunkId) && sp.chunkId in s'.files && ChunkTrue(cfg, s', sp.chunkId)
  {
  }

  /** Each chunk is as it should be, or was left alone. */
  lemma ChunkwiseKeeps(cfg: Config, s: State, s': State)
    requires forall d: nat :: (d in s'.files && ChunkTrue(cfg, s', d)) || LeftAlone(s, s', d)
    ensures KeepsAccounts(cfg, s, s')
  {
    hide LeftAlone, ChunkTrue, IsCached;
    forall d: nat
      ensures AllBacked(s) && IsCached(s', d) ==> d in s'.files
      ensures AllTrue(cfg, s) && AllShaped(s) ==> ChunkTrue(cfg, s', d)
    {
      assert AllBacked(s) && IsCached(s, d) ==> d in s.files;
      assert AllTrue(cfg, s) ==> ChunkTrue(cfg, s, d);
      if !(d in s'.files && ChunkTrue(cfg, s', d)) {
        LeftAloneKeeps(cfg, s, s', d);
      }
    }
  }

  lemma {:induction false} SpanInChunk(spans: seq<Span>, start: nat, len: nat, g: Geometry, at: nat, i: nat)
    requires Covers(spans, start, len, g, at) && i < |spans|
    ensures spans[i].offsetInChunk + spans[i].len <= g.ChunkLen(spans[i].chunkId)
    decreases i
  {
    if i > 0 {
      SpanInChunk(spans[1..], start + spans[0].len, len - spans[0].len, g, at + spans[0].len, i - 1);
    }
  }

  lemma RowsFirstKeep(cfg: Config, s: State, s': State, spans: seq<Span>, data: seq<byte>, k: nat, start: nat, len: nat)
    requires AllWithin(spans, data) && k <= |spans| && RowsFirst(cfg, s, s', spans, data, k)
    requires Covers(spans, start, len, cfg.geo, 0)
    ensures KeepsAccounts(cfg, s, s')
  {
    hide Turn, StartsFrom, WasWritten, LeftAlone, ChunkTrue, IsCached, KeepsAccounts, Covers;
    forall d: nat
      ensures (d in s'.files && ChunkTrue(cfg, s', d)) || LeftAlone(s, s', d)
    {
      if i :| 0 <= i < k && spans[i].chunkId == d {
        SpanInChunk(spans, start, len, cfg.geo, 0, i);
        WrittenIsTrue(cfg, s, s', spans[i], data, StartsFrom(cfg, Turn(cfg, s, spans, data, i), spans[i]) + 1);
      }
    }
    ChunkwiseKeeps(cfg, s, s');
  }

  lemma WriteKeeps(cfg: Config, s: State, offset: nat, data: seq<byte>)
    requires cfg.Valid()
    ensures KeepsAccounts(cfg, s, Run(s, Write(cfg, s, offset, data).trace))
  {
    hide Run, Write, RecordsFirst, RowsFirst, KeepsAccounts, Covers, WithinLimit, Acknowledged;
    NothingKeeps(cfg, s);
    var k := WritesExactly(cfg, s, offset, data);
    var spans := Spans(offset, |data|, cfg.geo);
    if spans.Ok? {
      SpansCover(offset, |data|, cfg.geo);
      RowsFirstKeep(cfg, s, Run(s, Write(cfg, s, offset, data).trace), spans.value, data, k, offset, |data|);
    }
  }

  lemma UploadsKeep(cfg: Config, s: State, s': State, list: seq<nat>, k: nat)
    requires UploadsFirst(cfg, s, s', list, k) && forall c :: c in list ==> c in s.rows && s.rows[c].state == Dirty
    ensures KeepsAccounts(cfg, s, s')
  {
    forall d: nat
      ensures AllBacked(s) && IsCached(s', d) ==> d in s'.files
      ensures ChunkTrue(cfg, s, d) ==> ChunkTrue(cfg, s', d)
    {
      if d in list[..k] {
        var i :| 0 <= i < k && list[i] == d;
        assert WasUploaded(cfg, s, s', list[i]);
      } else if k < |list| && d == list[k] {
        assert StoppedAt(s, s', d);
        assert IsCached(s, d);
      } else {
        assert NotUploaded(s, s', d);
        assert RowOf(s', d) == RowOf(s, d);
        assert IsCached(s', d) <==> IsCached(s, d);
      }
    }
    if AllTrue(cfg, s) {
      forall d: nat
        ensures ChunkTrue(cfg, s', d)
      {
        assert ChunkTrue(cfg, s, d);
      }
    }
  }

  lemma SyncKeeps(cfg: Config, s: State)
    requires cfg.Valid()
    ensures KeepsAccounts(cfg, s, Run(s, Sync(cfg, s).trace))
  {
    hide Run, SyncList, Evict, UploadsFirst, EvictedExactly, KeepsAccounts, AllShaped, Shapes, OldestFirst, DirtyChunks;
    var list := DirtyChunks(s.rows);
    DirtyOldestFirst(s.rows);
    OldestListed(s, list);
    var k := SyncListExactly(cfg, s, list);
    var u := SyncList(cfg, s, list);
    var mid := Run(s, u.trace);
    UploadsKeep(cfg, s, mid, list, k);
    if u.result.Ok? {
      if AllShaped(s) {
        SyncListShapes(cfg, s, list);
        ShapesRun(s, u.trace);
      }
      EvictsExactly(cfg, mid);
      EvictedKeeps(cfg, mid, Run(mid, Evict(cfg, mid)));
      RunConcat(s, u.trace, Evict(cfg, mid));
      AccountsTrans(cfg, s, mid, Run(mid, Evict(cfg, mid)));
    }
  }

  // ---------------------------------------------------------------- recovery

  /** Recovery leaves no cached row without its file, whatever it found. */
  lemma RepairedChunk(cfg: Config, s: State, s': State, c: nat)
    requires IsRepaired(cfg, s, s', c)
    ensures IsCached(s', c) ==> c in s'.files
    ensures AllShaped(s) && ChunkTrue(cfg, s, c) ==> ChunkTrue(cfg, s', c)
    ensures c in s.files && LatestLocal(s.journal, c).Some? ==>
              IsCached(s', c) && c in s'.files && s'.rows[c].size == |s.files[c]|
  {
    hide LatestLocal, Synced;
    if !(c in s.files && LatestLocal(s.journal, c).Some?) && !Dangling(s, c) {
      assert WasKept(s, s', c);
      SameRow(s, s', c);
    }
  }

  lemma RepairedBacked(cfg: Config, s: State, s': State)
    requires AllRepaired(cfg, s, s')
    ensures AllBacked(s') && (AllTrue(cfg, s) && AllShaped(s) ==> AllTrue(cfg, s'))
  {
    hide IsRepaired, ChunkTrue, IsCached, AllShaped;
    forall c: nat
      ensures IsCached(s', c) ==> c in s'.files
      ensures AllTrue(cfg, s) && AllShaped(s) ==> ChunkTrue(cfg, s', c)
    {
      assert IsRepaired(cfg, s, s', c);
      RepairedChunk(cfg, s, s', c);
      assert AllTrue(cfg, s) ==> ChunkTrue(cfg, s, c);
    }
  }

  /** After `recover`, `fsck` and `open`, the row of every journaled chunk with a file has that file's size. */
  lemma RecoveredSizes(cfg: Config, s: State, order: seq<nat>, c: nat)
    requires IsOrder(order, s.journal) && c in s.files && LatestLocal(s.journal, c).Some?
    ensures var a, b, d := Run(s, Recover(cfg, s, order)), Run(s, Fsck(cfg, s, order)), Reopened(cfg, s, order);
            && c in a.rows && a.rows[c].size == |s.files[c]|
            && c in b.rows && b.rows[c].size == |s.files[c]|
            && c in d.rows && d.rows[c].size == |s.files[c]|
  {
    hide Recover, Fsck, Run, Reopened, LatestLocal, IsRepaired;
    RecoverRepairs(cfg, s, order);
    FsckRepairs(cfg, s, order);
    OpenRepairs(cfg, s, order);
    RepairedChunk(cfg, s, Run(s, Recover(cfg, s, order)), c);
    RepairedChunk(cfg, s, Run(s, Fsck(cfg, s, order)), c);
    RepairedChunk(cfg, s, Reopened(cfg, s, order), c);
  }

  lemma LossTrue(cfg: Config, s: State, gone: set<nat>)
    requires AllTrue(cfg, s)
    ensures AllTrue(cfg, LoseFiles(s, gone)) && AllTrue(cfg, Loaded(s))
  {
    assert forall c: nat :: ChunkTrue(cfg, s, c) ==> ChunkTrue(cfg, LoseFiles(s, gone), c);
    assert forall c: nat :: ChunkTrue(cfg, s, c) ==> ChunkTrue(cfg, Loaded(s), c);
  }

  // ---------------------------------------------------------------- steps and runs

  lemma OpKeeps(cfg: Config, s: State, op: Op)
    requires cfg.Valid() && OrderFits(s, op)
    ensures KeepsAccounts(cfg, s, Run(Begin(s, op), TraceOf(cfg, s, op)))
  {
    hide Run, ReadSpans, Write, Sync, Evict, Fsck, Recover, AllShaped, AllRepaired, IsOrder, EvictedExactly;
    RunNothing(s);
    var s' := Run(Begin(s, op), TraceOf(cfg, s, op));
    match op
    case ReadOp(offset, len) =>
      if Spans(offset, len, cfg.geo).Ok? {
        ReadSpansKeep(cfg, s, Spans(offset, len, cfg.geo).value);
      }
    case WriteOp(offset, data) => WriteKeeps(cfg, s, offset, data);
    case SyncOp => SyncKeeps(cfg, s);
    case EvictOp =>
      EvictsExactly(cfg, s);
      EvictedKeeps(cfg, s, s');
    case FsckOp(order) =>
      FsckRepairs(cfg, s, order);
      RepairedBacked(cfg, s, s');
    case OpenOp(order) =>
      OpenRepairs(cfg, s, order);
      RepairedBacked(cfg, s, s');
  }

  /** No file vanishes unnoticed, and no crash leaves one short. */
  ghost predicate Tidy(cfg: Config, s: State, step: Step)
    requires Possible(cfg, s, step)
  {
    !step.Vanishes? && !CutsShort(cfg, s, step)
  }

  lemma BackedWhatever(s: State, s': State)
    requires AllBacked(s) && s'.rows == s.rows && s'.files == s.files
    ensures AllBacked(s')
  {
  }

  lemma StepBacked(cfg: Config, s: State, step: Step)
    requires cfg.Valid() && AllBacked(s) && Possible(cfg, s, step) && !step.Vanishes?
    ensures AllBacked(After(cfg, s, step))
  {
    hide Recover, Run, IsOrder, TraceOf, Fsck, Reopened, AllRepaired, AllTrue, AllShaped;
    match step
    case Completes(op) => OpKeeps(cfg, s, op);
    case Crashes(op, at, junk, boots, order) =>
      BootsKeep(cfg, CrashState(cfg, s, step), boots, []);
      OpenRepairs(cfg, AfterBoots(cfg, CrashState(cfg, s, step), boots), order);
      RepairedBacked(cfg, AfterBoots(cfg, CrashState(cfg, s, step), boots), After(cfg, s, step));
    case Loses(gone, live, order) =>
      LossRepaired(cfg, s, gone, live, order);
      RepairedBacked(cfg, LoseFiles(s, gone), After(cfg, s, step));
    case Outage(down) => BackedWhatever(s, s.(down := down));
  }

  lemma LossRepaired(cfg: Config, s: State, gone: set<nat>, live: bool, order: seq<nat>)
    requires IsOrder(order, s.journal)
    ensures AllRepaired(cfg, LoseFiles(s, gone), After(cfg, s, Loses(gone, live, order)))
  {
    hide Recover, Run, Fsck, Reopened, AllRepaired;
    if live {
      FsckRepairs(cfg, LoseFiles(s, gone), order);
    } else {
      OpenRepairs(cfg, LoseFiles(s, gone), order);
    }
  }

  ghost predicate TidyRun(cfg: Config, s: State, steps: seq<Step>)
    requires PossibleRun(cfg, s, steps)
    decreases steps
  {
    steps != [] ==> Tidy(cfg, s, steps[0]) && TidyRun(cfg, After(cfg, s, steps[0]), steps[1..])
  }

  /** Every cached row has the size of its file, and the cached bytes are the bytes in the files of those rows. */
  ghost predicate Accounted(s: State) {
    && CachedIds(s.rows) <= s.files.Keys
    && (forall c :: c in CachedIds(s.rows) ==> s.rows[c].size == |s.files[c]|)
    && CachedBytes(s.rows) == FileBytes(s.files, CachedIds(s.rows))
  }

  lemma FitIsAccounted(cfg: Config, s: State)
    requires AllFit(cfg, s) && AllBacked(s)
    ensures Accounted(s)
  {
    forall c | c in CachedIds(s.rows)
      ensures c in s.files && s.rows[c].size == |s.files[c]|
    {
      assert IsCached(s, c) && ChunkFits(cfg, s, c);
    }
    BytesAreFileBytes(s.rows, s.files, CachedIds(s.rows));
  }

  /**
   * Over every possible run in which no file vanishes unnoticed and no crash leaves one short, every cached
   * row has its file's size: what eviction and the statistics go by is what is on disk.
   */
  lemma {:induction false} SizesOverRuns(cfg: Config, s: State, steps: seq<Step>)
    requires cfg.Valid() && AllFit(cfg, s) && AllBacked(s) && PossibleRun(cfg, s, steps) && TidyRun(cfg, s, steps)
    ensures Accounted(RunAll(cfg, s, steps))
    decreases steps
  {
    hide AllFit, AllBacked, Possible, After, CutsShort;
    if steps == [] {
      FitIsAccounted(cfg, s);
    } else {
      StepFits(cfg, s, steps[0]);
      StepBacked(cfg, s, steps[0]);
      SizesOverRuns(cfg, After(cfg, s, steps[0]), steps[1..]);
    }
  }

  lemma CreatedFits(cfg: Config, cloud: map<nat, seq<byte>>)
    ensures AllFit(cfg, Created(cloud)) && AllBacked(Created(cloud)) && AllTrue(cfg, Created(cloud))
  {
  }

  /** No crash, and no loss unnoticed. */
  predicate Calm(steps: seq<Step>) {
    forall i :: 0 <= i < |steps| ==> !steps[i].Crashes? && !steps[i].Vanishes?
  }

  lemma StepTrue(cfg: Config, s: State, step: Step)
    requires cfg.Valid() && AllTrue(cfg, s) && AllShaped(s) && Possible(cfg, s, step)
    requires !step.Crashes? && !step.Vanishes?
    ensures AllTrue(cfg, After(cfg, s, step))
  {
    hide Recover, Run, IsOrder, TraceOf, Fsck, Reopened, AllRepaired, AllShaped;
    match step
    case Completes(op) => OpKeeps(cfg, s, op);
    case Loses(gone, live, order) =>
      LossRepaired(cfg, s, gone, live, order);
      LossTrue(cfg, s, gone);
      SameRowsShaped(s, LoseFiles(s, gone));
      RepairedBacked(cfg, LoseFiles(s, gone), After(cfg, s, step));
    case Outage(down) =>
      assert forall c: nat :: ChunkTrue(cfg, s, c) ==> ChunkTrue(cfg, s.(down := down), c);
  }

  /** The files on disk are those of the cached chunks, with their sizes and checksums in the rows. */
  ghost predicate DiskAccounted(cfg: Config, s: State) {
    && s.files.Keys == CachedIds(s.rows)
    && (forall c :: c in s.files ==>
          && s.rows[c].size == |s.files[c]|
          && (s.rows[c].checksum.Some? ==> s.rows[c].checksum == Some(cfg.digest(s.files[c])))
          && (s.rows[c].state == Clean ==> s.rows[c].checksum.Some?))
    && CachedBytes(s.rows) == FileBytes(s.files, s.files.Keys)
  }

  lemma TrueIsAccounted(cfg: Config, s: State)
    requires AllTrue(cfg, s) && AllBacked(s) && AllShaped(s)
    ensures DiskAccounted(cfg, s)
  {
    forall c: nat
      ensures c in s.files <==> c in CachedIds(s.rows)
      ensures c in s.files ==> s.rows[c].size == |s.files[c]|
    {
      assert ChunkTrue(cfg, s, c);
      assert c in CachedIds(s.rows) ==> IsCached(s, c);
    }
    assert s.files.Keys == CachedIds(s.rows);
    forall c | c in s.files
      ensures s.rows[c].checksum.Some? ==> s.rows[c].checksum == Some(cfg.digest(s.files[c]))
    {
      assert ChunkTrue(cfg, s, c);
    }
    BytesAreFileBytes(s.rows, s.files, CachedIds(s.rows));
  }

  /** Without crashes, the cached bytes are the bytes on disk, and the checksums those of the files. */
  lemma {:induction false} DiskOverRuns(cfg: Config, s: State, steps: seq<Step>)
    requires cfg.Valid() && AllTrue(cfg, s) && AllBacked(s) && AllShaped(s) && PossibleRun(cfg, s, steps) && Calm(steps)
    ensures DiskAccounted(cfg, RunAll(cfg, s, steps))
    decreases steps
  {
    hide AllTrue, AllBacked, AllShaped, Possible, After;
    if steps == [] {
      TrueIsAccounted(cfg, s);
    } else {
      assert forall i :: 0 <= i < |steps[1..]| ==> steps[1..][i] == steps[i + 1];
      StepTrue(cfg, s, steps[0]);
      StepBacked(cfg, s, steps[0]);
      StepShapes(cfg, s, steps[0]);
      DiskOverRuns(cfg, After(cfg, s, steps[0]), steps[1..]);
    }
  }

  /**
   * All of it from the creation of a volume on, over any objects: the rows are shaped after every possible run,
   * their sizes are right after every tidy one, and without crashes they account for the whole disk.
   */
  lemma NewVolumeAccounted(cfg: Config, cloud: map<nat, seq<byte>>, steps: seq<Step>)
    requires cfg.Valid() && PossibleRun(cfg, Created(cloud), steps)
    ensures AllShaped(RunAll(cfg, Created(cloud), steps))
    ensures TidyRun(cfg, Created(cloud), steps) ==> Accounted(RunAll(cfg, Created(cloud), steps))
    ensures Calm(steps) ==> DiskAccounted(cfg, RunAll(cfg, Created(cloud), steps))
  {
    hide AllTrue, AllBacked, AllShaped, AllFit, PossibleRun, TidyRun, RunAll, Accounted, DiskAccounted;
    CreatedFits(cfg, cloud);
    CreatedShaped(cloud);
    RowsShapedOverRuns(cfg, Created(cloud), steps);
    if TidyRun(cfg, Created(cloud), steps) {
      SizesOverRuns(cfg, Created(cloud), steps);
    }
    if Calm(steps) {
      DiskOverRuns(cfg, Created(cloud), steps);
    }
  }
}
