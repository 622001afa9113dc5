/**
 * When operations succeed: no chunk ever becomes unreadable unless its local file is lost, and a
 * read of readable chunks succeeds whenever the cloud answers and the cache has room.
 */
module Availability {
  import opened Wrappers
  import opened Mapper
  import opened Metadata
  import opened Store
  import opened Volume
  import opened Operations
  import opened Safety
  import opened Transparency
  import opened Recovery
  import opened Writing
  import opened Runs
  import opened Eviction
  import opened Guards

  // ---------------------------------------------------------------- nothing puts a chunk in Error

  predicate ErrorFree(t: seq<Effect>) {
    forall i :: 0 <= i < |t| && t[i].Upsert? ==> t[i].row.state != ChunkState.Error
  }

  ghost predicate NoNewErrors(s: State, s': State) {
    forall c: nat :: InError(s', c) ==> InError(s, c)
  }

  lemma {:induction false} ErrorFreeKeeps(s: State, t: seq<Effect>, k: nat)
    requires ErrorFree(t) && k <= |t|
    ensures NoNewErrors(s, Run(s, t[..k]))
    decreases k
  {
    if k > 0 {
      assert forall i :: 0 <= i < |t[1..]| ==> t[1..][i] == t[i + 1];
      ErrorFreeKeeps(Apply(s, t[0]), t[1..], k - 1);
      assert t[..k][0] == t[0] && t[..k][1..] == t[1..][..k - 1];
    }
  }

  lemma ErrorFreeRun(s: State, t: seq<Effect>)
    requires ErrorFree(t)
    ensures NoNewErrors(s, Run(s, t))
  {
    ErrorFreeKeeps(s, t, |t|);
    assert t[..|t|] == t;
  }

  lemma {:induction false} EvictListErrorFree(cfg: Config, s: State, list: seq<nat>, cached: nat)
    requires forall c :: c in list ==> c in s.rows
    ensures ErrorFree(EvictList(cfg, s, list, cached))
    decreases list
  {
    if list != [] && cached > cfg.low {
      EvictListErrorFree(cfg, Run(s, EvictOne(s, list[0])), list[1..], SaturatingSub(cached, s.rows[list[0]].size));
    }
  }

  lemma EvictErrorFree(cfg: Config, s: State)
    ensures ErrorFree(Evict(cfg, s))
  {
    if CachedBytes(s.rows) > cfg.cacheMax {
      EvictListErrorFree(cfg, s, EvictableCleanChunks(s.rows), CachedBytes(s.rows));
    }
  }

  lemma EnsureErrorFree(cfg: Config, s: State, c: nat)
    requires Ensure(cfg, s, c).Ok?
    ensures ErrorFree(Ensure(cfg, s, c).value)
  {
    hide Run, Evict, Fetch, Look, InError;
    if !Resident(s, c) {
      EvictErrorFree(cfg, Run(s, FetchTrace(cfg, s, c, Fetch(cfg, s, c).value)));
    }
  }

  lemma {:induction false} ReadErrorFree(cfg: Config, s: State, spans: seq<Span>, v: Cells)
    requires Represents(cfg, s, v)
    ensures ErrorFree(ReadSpans(cfg, s, spans).trace)
    decreases spans
  {
    hide Represents, Ensure, Run, Look, Touch;
    if spans != [] && Ensure(cfg, s, spans[0].chunkId).Ok? {
      var c := spans[0].chunkId;
      var t := Ensure(cfg, s, c).value;
      EnsureErrorFree(cfg, s, c);
      TouchErrorFree(cfg, s, c, v);
      ReadErrorFree(cfg, Run(s, t + Touch(Run(s, t), c)), spans[1..], v);
    }
  }

  lemma TouchErrorFree(cfg: Config, s: State, c: nat, v: Cells)
    requires Represents(cfg, s, v) && Ensure(cfg, s, c).Ok?
    ensures var s1 := Run(s, Ensure(cfg, s, c).value); c in s1.files ==> ErrorFree(Touch(s1, c))
    ensures Represents(cfg, Run(s, Ensure(cfg, s, c).value + Touch(Run(s, Ensure(cfg, s, c).value), c)), v)
  {
    EnsuredFileAgrees(cfg, s, c, v);
    ReadOneTransparent(cfg, s, c, v);
  }

  lemma {:induction false} SyncListErrorFree(cfg: Config, s: State, list: seq<nat>, v: Cells)
    requires Represents(cfg, s, v) && ToSync(s, list)
    ensures ErrorFree(SyncList(cfg, s, list).trace)
    decreases list
  {
    if list != [] {
      assert ChunkSettled(cfg, s, v, list[0]);
      LookRow(s, list[0]);
      SyncOneTransparent(cfg, s, list[0], v);
      if SyncOne(cfg, s, list[0]).result.Ok? {
        SyncOneLeavesRest(cfg, s, list);
        SyncListErrorFree(cfg, Run(s, SyncOne(cfg, s, list[0]).trace), list[1..], v);
      }
    }
  }

  lemma SyncErrorFree(cfg: Config, s: State, v: Cells)
    requires Represents(cfg, s, v)
    ensures ErrorFree(Sync(cfg, s).trace)
  {
    hide Run, SyncList, Evict, Represents;
    SyncListErrorFree(cfg, s, DirtyChunks(s.rows), v);
    EvictErrorFree(cfg, Run(s, SyncList(cfg, s, DirtyChunks(s.rows)).trace));
  }

  lemma WriteSpanErrorFree(cfg: Config, s: State, sp: Span, data: seq<byte>)
    requires Within(sp, data) && WriteSpan(cfg, s, sp, data).Ok?
    ensures ErrorFree(WriteSpan(cfg, s, sp, data).value)
  {
    hide Run, Ensure, Look;
    if !IsFull(cfg, sp) {
      EnsureErrorFree(cfg, s, sp.chunkId);
    }
  }

  lemma {:induction false} WriteSpansErrorFree(cfg: Config, s: State, spans: seq<Span>, data: seq<byte>)
    requires AllWithin(spans, data)
    ensures ErrorFree(WriteSpans(cfg, s, spans, data).trace)
    decreases |spans|
  {
    hide WriteSpan, Run;
    if spans != [] && WriteSpan(cfg, s, spans[0], data).Ok? {
      WriteSpanErrorFree(cfg, s, spans[0], data);
      WriteSpansErrorFree(cfg, Run(s, WriteSpan(cfg, s, spans[0], data).value), spans[1..], data);
    }
  }

  lemma WriteErrorFree(cfg: Config, s: State, offset: nat, data: seq<byte>)
    ensures ErrorFree(Write(cfg, s, offset, data).trace)
  {
    if Spans(offset, |data|, cfg.geo).Ok? {
      var spans := Spans(offset, |data|, cfg.geo).value;
      SpansWithin(offset, data, cfg.geo);
      WriteSpansErrorFree(cfg, s, spans, data);
      EvictErrorFree(cfg, Run(s, WriteSpans(cfg, s, spans, data).trace));
    }
  }

  /** Recovering a state that lost no file puts nothing in Error. */
  lemma {:induction false} RecoveryErrorFree(cfg: Config, s: State, t: seq<Effect>, v: Cells)
    requires Recoverable(cfg, s, v) && RecoverySteps(cfg, s, t)
    ensures ErrorFree(t)
    decreases t
  {
    if t != [] {
      assert ChunkSafe(cfg, s, v, t[0].c);
      LookRow(s, t[0].c);
      RecoveryStepSafe(cfg, s, t[0], v);
      RecoveryErrorFree(cfg, Apply(s, t[0]), t[1..], v);
      assert forall i :: 0 < i < |t| ==> t[i] == t[1..][i - 1];
    }
  }

  lemma TraceErrorFree(cfg: Config, s: State, op: Op, v: Cells)
    requires Represents(cfg, s, v)
    ensures ErrorFree(TraceOf(cfg, s, op))
  {
    SettledIsSafe(cfg, s, v);
    match op
    case ReadOp(offset, len) =>
      if Spans(offset, len, cfg.geo).Ok? {
        ReadErrorFree(cfg, s, Spans(offset, len, cfg.geo).value, v);
      }
    case WriteOp(offset, data) => WriteErrorFree(cfg, s, offset, data);
    case SyncOp => SyncErrorFree(cfg, s, v);
    case EvictOp => EvictErrorFree(cfg, s);
    case FsckOp(order) =>
      FsckIsSteps(cfg, s, order);
      RecoveryErrorFree(cfg, s, Fsck(cfg, s, order), v);
    case OpenOp(order) =>
      LoadedSame(cfg, s, v);
      RecoverIsSteps(cfg, Loaded(s), order);
      RecoveryErrorFree(cfg, Loaded(s), Recover(cfg, Loaded(s), order), v);
  }

  lemma ReopenErrorFree(cfg: Config, s: State, order: seq<nat>, v: Cells)
    requires Recoverable(cfg, s, v)
    ensures NoNewErrors(s, Reopened(cfg, s, order))
  {
    LoadedSame(cfg, s, v);
    RecoverIsSteps(cfg, Loaded(s), order);
    RecoveryErrorFree(cfg, Loaded(s), Recover(cfg, Loaded(s), order), v);
    ErrorFreeRun(Loaded(s), Recover(cfg, Loaded(s), order));
    var s' := Reopened(cfg, s, order);
    forall c: nat | InError(s', c)
      ensures InError(s, c)
    {
      assert InError(Loaded(s), c);
    }
  }

  lemma NoNewErrorsTrans(a: State, b: State, c: State)
    requires NoNewErrors(a, b) && NoNewErrors(b, c)
    ensures NoNewErrors(a, c)
  {
  }

  lemma TornErrorFree(s: State, t: seq<Effect>, k: nat, junk: seq<byte>)
    requires ErrorFree(t) && k <= |t|
    ensures NoNewErrors(s, Torn(s, t, k, junk))
  {
    ErrorFreeKeeps(s, t, k);
    var s1 := Run(s, t[..k]);
    assert Torn(s, t, k, junk).rows == s1.rows;
    forall c: nat | InError(Torn(s, t, k, junk), c)
      ensures InError(s, c)
    {
      assert InError(s1, c);
    }
  }

  lemma BootsErrorFree(cfg: Config, s: State, boots: seq<Boot>, v: Cells)
    requires Recoverable(cfg, s, v) && BootsFit(cfg, s, boots) && forall i :: 0 <= i < |boots| ==> boots[i].gone == {}
    ensures NoNewErrors(s, AfterBoots(cfg, s, boots))
    decreases boots
  {
    hide Recoverable, Salvageable, Run, Recover, RecoverySteps, IsOrder;
    if boots != [] {
      var b := boots[0];
      var f, t := Booted(s, b), Recover(cfg, Booted(s, b), b.order);
      BootKeeps(cfg, s, b, v);
      LossIsSafe(cfg, s, {}, v);
      LoadedSame(cfg, s, v);
      RecoverIsSteps(cfg, f, b.order);
      RecoveryErrorFree(cfg, f, t, v);
      ErrorFreeKeeps(f, t, b.at);
      assert forall i :: 0 <= i < |boots[1..]| ==> boots[1..][i] == boots[i + 1];
      BootsErrorFree(cfg, AfterBoot(cfg, s, b), boots[1..], v);
      NoNewErrorsTrans(f, AfterBoot(cfg, s, b), AfterBoots(cfg, s, boots));
      SameRowsSameErrors(s, f, AfterBoots(cfg, s, boots));
    }
  }

  lemma SameRowsSameErrors(s: State, f: State, s': State)
    requires s.rows == f.rows && NoNewErrors(f, s')
    ensures NoNewErrors(s, s')
  {
    forall c: nat | InError(s', c)
      ensures InError(s, c)
    {
      assert InError(f, c);
    }
  }

  /** Only the loss of local files makes chunks unreadable: no operation does, and no crash of one. */
  lemma OnlyLossMakesErrors(cfg: Config, s: State, v: Cells, step: Step)
    requires Represents(cfg, s, v) && Possible(cfg, s, step) && Safe(cfg, s, v, step)
    requires !step.Loses? && KeepsFilesDown(step)
    ensures NoNewErrors(s, After(cfg, s, step))
  {
    match step
    case Completes(op) =>
      TraceErrorFree(cfg, s, op, v);
      ErrorFreeRun(Begin(s, op), TraceOf(cfg, s, op));
      forall c: nat | InError(After(cfg, s, step), c)
        ensures InError(s, c)
      {
        assert InError(Begin(s, op), c);
      }
    case Crashes(op, at, junk, boots, order) =>
      TraceErrorFree(cfg, s, op, v);
      TornErrorFree(Begin(s, op), TraceOf(cfg, s, op), at, junk);
      CrashRepresents(cfg, s, v, step);
      var crashed := CrashState(cfg, s, step);
      BootsErrorFree(cfg, crashed, boots, Expected(cfg, s, v, step));
      BootsKeep(cfg, crashed, boots, Expected(cfg, s, v, step));
      ReopenErrorFree(cfg, AfterBoots(cfg, crashed, boots), order, Expected(cfg, s, v, step));
      NoNewErrorsTrans(Begin(s, op), crashed, AfterBoots(cfg, crashed, boots));
      NoNewErrorsTrans(Begin(s, op), AfterBoots(cfg, crashed, boots), After(cfg, s, step));
      forall c: nat | InError(After(cfg, s, step), c)
        ensures InError(s, c)
      {
        assert InError(Begin(s, op), c);
      }
    case Vanishes(_) =>
      forall c: nat | InError(After(cfg, s, step), c)
        ensures InError(s, c)
      {
      }
    case Outage(down) =>
      forall c: nat | InError(After(cfg, s, step), c)
        ensures InError(s, c)
      {
      }
  }

  // ---------------------------------------------------------------- reads that succeed

  /** The chunk's file, if it has one, is as long as the chunk. */
  predicate WholeFile(cfg: Config, s: State, c: nat) { c in s.files ==> |s.files[c]| == cfg.geo.ChunkLen(c) }

  /** Reading chunk c works: it is not in Error, its file is whole, the cloud has it, and it fits the cache. */
  ghost predicate Servable(cfg: Config, s: State, c: nat) {
    && !InError(s, c) && WholeFile(cfg, s, c) && Fetch(cfg, s, c).Ok?
    && HeldBytes(s.rows) + cfg.geo.ChunkLen(c) <= cfg.low
  }

  lemma FetchedWhole(cfg: Config, s: State, c: nat)
    requires Fetch(cfg, s, c).Ok?
    ensures |Fetch(cfg, s, c).value| == cfg.geo.ChunkLen(c)
  {
  }

  /** What `ensure_chunk_for_read` leaves in its own chunk's file, if anything: what was there, or what was fetched. */
  lemma EnsuredFile(cfg: Config, s: State, c: nat, v: Cells)
    requires Represents(cfg, s, v) && Ensure(cfg, s, c).Ok?
    ensures !Resident(s, c) ==> Fetch(cfg, s, c).Ok?
    ensures var s1 := Run(s, Ensure(cfg, s, c).value);
            && (c in s1.files && Resident(s, c) ==> s1.files[c] == s.files[c])
            && (c in s1.files && !Resident(s, c) ==> s1.files[c] == Fetch(cfg, s, c).value)
  {
    hide Represents, Run, Evict, Fetch;
    var s1 := Run(s, Ensure(cfg, s, c).value);
    EnsureLook(cfg, s, c, v);
    assert Look(s1, c).file == FileOf(s1, c);
  }

  lemma EnsureSucceeds(cfg: Config, s: State, c: nat, v: Cells)
    requires Represents(cfg, s, v) && ClockAhead(s) && Servable(cfg, s, c)
    ensures Ensure(cfg, s, c).Ok?
    ensures var s1 := Run(s, Ensure(cfg, s, c).value); Resident(s1, c) && |s1.files[c]| == cfg.geo.ChunkLen(c)
  {
    hide Represents, Run, Evict, HeldBytes, Fetch;
    FetchedSurvives(cfg, s, c, v);
    EnsuredFile(cfg, s, c, v);
    FetchedWhole(cfg, s, c);
  }

  lemma HeldSame(r: Table, c: nat, m: Meta)
    requires c in r && m.state == r[c].state && m.size == r[c].size && m.pins == r[c].pins
    ensures HeldBytes(r[c := m]) == HeldBytes(r)
  {
    var r' := r[c := m];
    assert CachedIds(r') == CachedIds(r) && EvictableIds(r') == EvictableIds(r);
    BytesSame(r, r', CachedIds(r) - EvictableIds(r));
  }

  lemma TouchHeld(s: State, c: nat)
    ensures HeldBytes(Run(s, Touch(s, c)).rows) == HeldBytes(s.rows)
  {
    if c in s.rows {
      RunOne(s, Touch(s, c)[0]);
      HeldSame(s.rows, c, s.rows[c].(lastAccess := s.clock));
    }
  }

  lemma KeptWhole(cfg: Config, a: State, b: State, d: nat)
    requires UntouchedOrEvicted(Look(a, d), Look(b, d)) && WholeFile(cfg, a, d)
    ensures WholeFile(cfg, b, d) && ObjectOf(b, d) == ObjectOf(a, d)
  {
    var x, y := Look(a, d), Look(b, d);
    assert x.file == FileOf(a, d) && y.file == FileOf(b, d) && x.remote == ObjectOf(a, d) && y.remote == ObjectOf(b, d);
  }

  lemma TouchKeepsFiles(s: State, c: nat)
    ensures Run(s, Touch(s, c)).files == s.files && Run(s, Touch(s, c)).cloud == s.cloud
  {
    if c in s.rows {
      RunOne(s, Touch(s, c)[0]);
    }
  }

  lemma SameFetch(cfg: Config, a: State, b: State, d: nat)
    requires ObjectOf(a, d) == ObjectOf(b, d) && a.down == b.down
    ensures Fetch(cfg, a, d) == Fetch(cfg, b, d)
  {
  }

  /** After chunk c was served, any servable chunk still has its object, and a whole file if any. */
  lemma StillWhole(cfg: Config, s: State, c: nat, d: nat, v: Cells)
    requires Represents(cfg, s, v) && ClockAhead(s) && Servable(cfg, s, c) && Servable(cfg, s, d)
    requires Ensure(cfg, s, c).Ok?
    ensures var s1 := Run(s, Ensure(cfg, s, c).value);
            WholeFile(cfg, Run(s1, Touch(s1, c)), d) && Fetch(cfg, Run(s1, Touch(s1, c)), d).Ok?
  {
    hide Represents, Run, Evict, Ensure, Touch, HeldBytes, Fetch, ClockAhead;
    var s1 := Run(s, Ensure(cfg, s, c).value);
    TouchKeepsFiles(s1, c);
    if d == c {
      EnsureSucceeds(cfg, s, c, v);
      EnsureObject(cfg, s, c, v);
    } else {
      EnsureElsewhere(cfg, s, c, d, v);
      KeptWhole(cfg, s, s1, d);
    }
    SameFetch(cfg, s, Run(s1, Touch(s1, c)), d);
  }

  lemma EnsureObject(cfg: Config, s: State, c: nat, v: Cells)
    requires Represents(cfg, s, v) && Ensure(cfg, s, c).Ok?
    ensures ObjectOf(Run(s, Ensure(cfg, s, c).value), c) == ObjectOf(s, c)
  {
    hide Represents, Run, Evict, Fetch;
    var s1 := Run(s, Ensure(cfg, s, c).value);
    EnsureLook(cfg, s, c, v);
    assert Look(s1, c).remote == ObjectOf(s1, c) && Look(s, c).remote == ObjectOf(s, c);
  }

  /** Serving one chunk keeps every other servable chunk servable. */
  lemma StillServable(cfg: Config, s: State, c: nat, d: nat, v: Cells)
    requires Represents(cfg, s, v) && ClockAhead(s) && Servable(cfg, s, c) && Servable(cfg, s, d)
    requires Ensure(cfg, s, c).Ok?
    ensures var t := Ensure(cfg, s, c).value;
            var s2 := Run(s, t + Touch(Run(s, t), c));
            Servable(cfg, s2, d) && ClockAhead(s2)
  {
    hide HeldBytes, WholeFile, Fetch, Run, Represents, Touch, Ensure;
    var t := Ensure(cfg, s, c).value;
    var t' := t + Touch(Run(s, t), c);
    EnsureHeld(cfg, s, c, v);
    TouchHeld(Run(s, t), c);
    RunConcat(s, t, Touch(Run(s, t), c));
    ClockAheadRun(s, t');
    EnsureErrorFree(cfg, s, c);
    EnsureSucceeds(cfg, s, c, v);
    TouchErrorFree(cfg, s, c, v);
    ErrorFreeRun(s, t');
    StillWhole(cfg, s, c, d, v);
  }

  lemma {:induction false} ReadSpansSucceed(cfg: Config, s: State, spans: seq<Span>, start: nat, len: nat,
        requestOffset: nat, v: Cells)
    requires Represents(cfg, s, v) && ClockAhead(s) && Covers(spans, start, len, cfg.geo, requestOffset)
    requires forall i :: 0 <= i < |spans| ==> Servable(cfg, s, spans[i].chunkId)
    ensures ReadSpans(cfg, s, spans).result.Ok? && |ReadSpans(cfg, s, spans).result.value| == len
    decreases |spans|
  {
    hide Represents, Ensure, Touch, Run, Servable, ClockAhead;
    if spans != [] {
      var c := spans[0].chunkId;
      EnsureSucceeds(cfg, s, c, v);
      TouchErrorFree(cfg, s, c, v);
      StillServable(cfg, s, c, c, v);
      var t := Ensure(cfg, s, c).value;
      forall i | 0 <= i < |spans[1..]|
        ensures Servable(cfg, Run(s, t + Touch(Run(s, t), c)), spans[1..][i].chunkId)
      {
        assert spans[1..][i] == spans[i + 1];
        StillServable(cfg, s, c, spans[i + 1].chunkId, v);
      }
      ReadSpansSucceed(cfg, Run(s, t + Touch(Run(s, t), c)), spans[1..], start + spans[0].len, len - spans[0].len,
                       requestOffset + spans[0].len, v);
    }
  }

  /** `read_at` returns exactly `len` bytes whenever it can serve each chunk it touches. */
  lemma ReadSucceeds(cfg: Config, s: State, offset: nat, len: nat, v: Cells)
    requires Represents(cfg, s, v) && ClockAhead(s) && offset + len <= |v|
    requires Spans(offset, len, cfg.geo).Ok? ==>
               forall i :: 0 <= i < |Spans(offset, len, cfg.geo).value| ==>
                 Servable(cfg, s, Spans(offset, len, cfg.geo).value[i].chunkId)
    ensures Read(cfg, s, offset, len).result.Ok? && |Read(cfg, s, offset, len).result.value| == len
  {
    SpansCover(offset, len, cfg.geo);
    ReadSpansSucceed(cfg, s, Spans(offset, len, cfg.geo).value, offset, len, 0, v);
  }

  /**
   * The span can be read as things are: its chunk is not in Error, and it is resident with a file long
   * enough, or can be fetched into a cache with room for it.
   */
  ghost predicate Served(cfg: Config, s: State, sp: Span) {
    && !InError(s, sp.chunkId)
    && if Resident(s, sp.chunkId) then sp.offsetInChunk + sp.len <= |s.files[sp.chunkId]|
       else Fetch(cfg, s, sp.chunkId).Ok? && RoomFor(cfg, s, sp.chunkId)
  }

  /** The state in which a read goes on after chunk c. */
  ghost function Passed(cfg: Config, s: State, c: nat): State
    requires Ensure(cfg, s, c).Ok?
  {
    Run(s, Ensure(cfg, s, c).value + Touch(Run(s, Ensure(cfg, s, c).value), c))
  }

  /** A served span, and no other, is read: its file is there, and long enough. */
  lemma ServedExactly(cfg: Config, s: State, sp: Span, v: Cells)
    requires Represents(cfg, s, v) && ClockAhead(s) && sp.offsetInChunk + sp.len <= cfg.geo.ChunkLen(sp.chunkId)
    ensures Served(cfg, s, sp) <==>
              && Ensure(cfg, s, sp.chunkId).Ok?
              && var s1 := Run(s, Ensure(cfg, s, sp.chunkId).value);
              sp.chunkId in s1.files && |s1.files[sp.chunkId]| >= sp.offsetInChunk + sp.len
  {
    hide Represents, Run, RoomFor, Evict, Fetch;
    var c := sp.chunkId;
    if Ensure(cfg, s, c).Ok? {
      EnsuredFile(cfg, s, c, v);
      if Resident(s, c) {
        RunNothing(s);
      } else {
        FetchedWhole(cfg, s, c);
        FetchedSurvivesExactly(cfg, s, c, v);
      }
    }
  }

  /** Each span is served when its turn comes. */
  ghost predicate AllServed(cfg: Config, s: State, spans: seq<Span>)
    decreases spans
  {
    spans != [] ==>
      Served(cfg, s, spans[0])
      && Ensure(cfg, s, spans[0].chunkId).Ok?
      && AllServed(cfg, Passed(cfg, s, spans[0].chunkId), spans[1..])
  }

  lemma PassedGoesOn(cfg: Config, s: State, c: nat, v: Cells)
    requires Represents(cfg, s, v) && ClockAhead(s) && Ensure(cfg, s, c).Ok?
    ensures Represents(cfg, Passed(cfg, s, c), v) && ClockAhead(Passed(cfg, s, c))
  {
    hide Represents, Run, Ensure, Touch, ClockAhead;
    TouchErrorFree(cfg, s, c, v);
    ClockAheadRun(s, Ensure(cfg, s, c).value + Touch(Run(s, Ensure(cfg, s, c).value), c));
  }

  lemma ReadSpansUnfold(cfg: Config, s: State, spans: seq<Span>)
    requires spans != []
    ensures ReadSpans(cfg, s, spans).result.Ok? <==>
              && Ensure(cfg, s, spans[0].chunkId).Ok?
              && var s1 := Run(s, Ensure(cfg, s, spans[0].chunkId).value);
              && spans[0].chunkId in s1.files && |s1.files[spans[0].chunkId]| >= spans[0].offsetInChunk + spans[0].len
              && ReadSpans(cfg, Passed(cfg, s, spans[0].chunkId), spans[1..]).result.Ok?
  {
    hide Ensure, Run, Touch;
  }

  lemma {:induction false} ReadSpansExactly(cfg: Config, s: State, spans: seq<Span>, start: nat, len: nat,
        requestOffset: nat, v: Cells)
    requires Represents(cfg, s, v) && ClockAhead(s) && Covers(spans, start, len, cfg.geo, requestOffset)
    ensures ReadSpans(cfg, s, spans).result.Ok? <==> AllServed(cfg, s, spans)
    decreases |spans|
  {
    hide Represents, Ensure, Run, Served, ClockAhead, Passed, ReadSpans;
    if spans == [] {
      ReadNothing(cfg, s);
    } else {
      var c := spans[0].chunkId;
      ReadSpansUnfold(cfg, s, spans);
      ServedExactly(cfg, s, spans[0], v);
      if Ensure(cfg, s, c).Ok? {
        PassedGoesOn(cfg, s, c, v);
        ReadSpansExactly(cfg, Passed(cfg, s, c), spans[1..], start + spans[0].len, len - spans[0].len,
                         requestOffset + spans[0].len, v);
      }
    }
  }

  lemma ReadNothing(cfg: Config, s: State)
    ensures ReadSpans(cfg, s, []).result.Ok?
  {
  }

  /**
   * `read_at`, exactly: it succeeds if and only if the range is in the volume and the chunk of each span,
   * when its turn comes, is not in Error and is resident with a file long enough, or can be fetched into
   * a cache with room for it.
   */
  lemma ReadExactly(cfg: Config, s: State, offset: nat, len: nat, v: Cells)
    requires Represents(cfg, s, v) && ClockAhead(s)
    ensures Spans(offset, len, cfg.geo).Ok? <==> offset + len <= |v|
    ensures Read(cfg, s, offset, len).result.Ok? <==>
              offset + len <= |v| && AllServed(cfg, s, Spans(offset, len, cfg.geo).value)
  {
    hide Represents, ReadSpans, AllServed, Covers, ClockAhead;
    RepresentsSize(cfg, s, v);
    if offset + len <= |v| {
      SpansCover(offset, len, cfg.geo);
      ReadSpansExactly(cfg, s, Spans(offset, len, cfg.geo).value, offset, len, 0, v);
    }
  }

  // ---------------------------------------------------------------- runs without crashes

  /** A byte array after a write. */
  function Spliced(b: seq<byte>, offset: nat, data: seq<byte>): seq<byte> {
    if offset + |data| <= |b| then b[..offset] + data + b[offset + |data|..] else b
  }

  lemma PutKnown(b: seq<byte>, offset: nat, data: seq<byte>)
    requires offset + |data| <= |b|
    ensures Put(Known(b), offset, data) == Known(Spliced(b, offset, data))
  {
  }

  ghost predicate CrashFree(steps: seq<Step>) {
    forall i :: 0 <= i < |steps| ==> steps[i].Completes? || steps[i].Outage?
  }

  /** What a plain byte array would hold after the step. */
  ghost function Flat(cfg: Config, s: State, b: seq<byte>, step: Step): seq<byte> {
    if step.Completes? && step.op.WriteOp? then
      var n := Acknowledged(cfg, s, step.op.offset, step.op.data);
      if n <= |step.op.data| then Spliced(b, step.op.offset, step.op.data[..n]) else b
    else b
  }

  lemma ExpectedIsFlat(cfg: Config, s: State, b: seq<byte>, step: Step)
    requires Represents(cfg, s, Known(b)) && Possible(cfg, s, step) && Safe(cfg, s, Known(b), step)
    requires step.Completes? || step.Outage?
    ensures Expected(cfg, s, Known(b), step) == Known(Flat(cfg, s, b, step))
  {
    hide Represents, Possible, WriteGuard, Acknowledged, Write, Run, Known, Put;
    KnownSize(b);
    if step.Completes? && step.op.WriteOp? {
      var offset, data := step.op.offset, step.op.data;
      var n := Acknowledged(cfg, s, offset, data);
      WriteCorrect(cfg, s, offset, data, Known(b));
      if n == 0 {
        assert data[..0] == [];
        assert offset <= |b| ==> b[..offset] + [] + b[offset..] == b;
      } else {
        ReachedIsAdvanced(Known(b), offset, data, Progress(n, 0));
        AdvanceNothing(Put(Known(b), offset, data[0..n]), offset + n, data, 0, 0);
        assert data[0..n] == data[..n];
        PutKnown(b, offset, data[..n]);
      }
    }
  }

  lemma KnownSize(b: seq<byte>)
    ensures |Known(b)| == |b|
  {
  }

  ghost function FlatAll(cfg: Config, s: State, b: seq<byte>, steps: seq<Step>): seq<byte>
    requires PossibleRun(cfg, s, steps)
    decreases steps
  {
    if steps == [] then b else FlatAll(cfg, After(cfg, s, steps[0]), Flat(cfg, s, b, steps[0]), steps[1..])
  }

  /** A completed read that succeeds returns the array's bytes. */
  ghost predicate ReadExact(cfg: Config, s: State, b: seq<byte>, step: Step) {
    step.Completes? && step.op.ReadOp? ==>
      var o := Read(cfg, s, step.op.offset, step.op.len);
      o.result.Ok? ==>
        step.op.offset + step.op.len <= |b| && o.result.value == b[step.op.offset..step.op.offset + step.op.len]
  }

  ghost predicate ReadsExact(cfg: Config, s: State, b: seq<byte>, steps: seq<Step>)
    requires PossibleRun(cfg, s, steps)
    decreases steps
  {
    steps != [] ==>
      ReadExact(cfg, s, b, steps[0]) && ReadsExact(cfg, After(cfg, s, steps[0]), Flat(cfg, s, b, steps[0]), steps[1..])
  }

  lemma KnownSlice(b: seq<byte>, offset: nat, len: nat)
    requires offset + len <= |Known(b)|
    ensures |Known(b)| == |b| && Known(b)[offset..offset + len] == Known(b[offset..offset + len])
  {
  }

  lemma ReadIsExact(cfg: Config, s: State, b: seq<byte>, step: Step)
    requires Represents(cfg, s, Known(b))
    ensures ReadExact(cfg, s, b, step)
  {
    hide Represents, Read, Known;
    if step.Completes? && step.op.ReadOp? {
      var offset, len := step.op.offset, step.op.len;
      var o := Read(cfg, s, offset, len);
      ReadCorrect(cfg, s, offset, len, Known(b));
      if o.result.Ok? {
        KnownSlice(b, offset, len);
        AgreesKnown(o.result.value, b[offset..offset + len]);
      }
    }
  }

  /** Without crashes and losses the engine is exactly a byte array: every read returns its bytes or fails. */
  lemma {:induction false} CrashFreeRunIsArray(cfg: Config, s: State, b: seq<byte>, steps: seq<Step>)
    requires Represents(cfg, s, Known(b)) && PossibleRun(cfg, s, steps) && CrashFree(steps)
    requires GuardedRun(cfg, s, Known(b), steps)
    ensures Represents(cfg, RunAll(cfg, s, steps), Known(FlatAll(cfg, s, b, steps)))
    ensures ReadsExact(cfg, s, b, steps)
    decreases steps
  {
    hide Represents, Possible, Safe, Expected, After, Flat, ReadExact;
    if steps != [] {
      assert steps[0].Completes? || steps[0].Outage?;
      StepRepresents(cfg, s, Known(b), steps[0]);
      ExpectedIsFlat(cfg, s, b, steps[0]);
      ReadIsExact(cfg, s, b, steps[0]);
      assert forall i :: 0 <= i < |steps[1..]| ==> steps[1..][i] == steps[i + 1];
      CrashFreeRunIsArray(cfg, After(cfg, s, steps[0]), Flat(cfg, s, b, steps[0]), steps[1..]);
    }
  }
}
