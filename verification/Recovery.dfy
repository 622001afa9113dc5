/**
 * What `recover` leaves behind, chunk by chunk, as a function of the chunk's file, its row and a
 * two-field summary of the journal; and what that means for the volume.
 */
module Recovery {
  import opened Wrappers
  import opened Metadata
  import opened Wal
  import opened Store
  import opened Volume
  import opened Operations
  import opened Safety

  /** A row without its time stamps; only whether it is dirty since some time is kept. */
  function Timeless(row: Option<Meta>): Option<Meta> {
    if row.None? then None
    else
      var m := row.value;
      Some(m.(lastAccess := 0, dirtySince := if m.dirtySince.Some? then Some(0) else None))
  }

  predicate LostAt(file: Option<seq<byte>>, row: Option<Meta>) {
    row.Some? && Cached(row.value.state) && !(row.value.hasPath && file.Some?)
  }

  /** The row that recovery leaves, from the old row, the file and the summary, given the time. */
  function RecoveredRow(cfg: Config, file: Option<seq<byte>>, row: Option<Meta>, sum: Summary, now: nat): Option<Meta> {
    if file.Some? && sum.latest.Some? then Some(RebuiltRow(cfg, file.value, sum, now))
    else if LostAt(file, row) then Some(LostRow(row.value))
    else row
  }

  // ---------------------------------------------------------------- what each pass does

  lemma ValidateOneLook(s: State, c: nat, d: nat)
    requires c in s.rows
    ensures Look(Run(s, ValidateOne(s, c)), d)
         == if d == c && Lost(s, c) then Look(s, d).(row := Some(LostRow(s.rows[c]))) else Look(s, d)
  {
    if Lost(s, c) {
      RunOne(s, Upsert(c, LostRow(s.rows[c])));
      LookAfter(s, Upsert(c, LostRow(s.rows[c])), d);
    }
  }

  lemma {:induction false} ValidateListLook(s: State, list: seq<nat>, d: nat)
    requires forall c :: c in list ==> c in s.rows
    ensures Look(Run(s, ValidateList(s, list)), d)
         == if d in list && Lost(s, d) then Look(s, d).(row := Some(LostRow(s.rows[d]))) else Look(s, d)
    decreases list
  {
    if list != [] {
      var c := list[0];
      var one := ValidateOne(s, c);
      var s1 := Run(s, one);
      ValidateOneLook(s, c, d);
      ValidateListLook(s1, list[1..], d);
      RunConcat(s, one, ValidateList(s1, list[1..]));
      assert d in list <==> d == c || d in list[1..];
      LookRow(s, d);
      LookRow(s1, d);
    }
  }

  lemma LookRow(s: State, d: nat)
    ensures Look(s, d).row == RowOf(s, d) && Look(s, d).file == FileOf(s, d)
    ensures d in s.rows <==> Look(s, d).row.Some?
    ensures d in s.rows ==> s.rows[d] == Look(s, d).row.value
    ensures d in s.files <==> Look(s, d).file.Some?
  {
  }

  /** After validation no row claims a file that is not there. */
  lemma ValidateLook(s: State, d: nat)
    ensures Look(Run(s, Validate(s)), d)
         == if LostAt(FileOf(s, d), RowOf(s, d)) then Look(s, d).(row := Some(LostRow(s.rows[d]))) else Look(s, d)
  {
    ValidateListLook(s, AllChunks(s.rows), d);
  }

  lemma RebuildOneLook(cfg: Config, s: State, c: nat, d: nat)
    ensures Look(Run(s, RebuildOne(cfg, s, c)), d)
         == if d == c && c in s.files && LatestLocal(s.journal, c).Some?
            then Look(s, d).(row := Some(RebuiltRow(cfg, s.files[c], Summarize(s.journal, c), s.clock)))
            else Look(s, d)
  {
    var one := RebuildOne(cfg, s, c);
    if one != [] {
      RunOne(s, one[0]);
      LookAfter(s, one[0], d);
    }
  }

  /** Same slot, the row's time stamps aside. */
  predicate SameButTimes(a: Slot, b: Slot) {
    a.(row := None) == b.(row := None) && Timeless(a.row) == Timeless(b.row)
  }

  function RebuiltSlot(cfg: Config, sl: Slot, sum: Summary): Slot {
    if sl.file.Some? && sum.latest.Some? then sl.(row := Some(RebuiltRow(cfg, sl.file.value, sum, 0))) else sl
  }

  lemma SummaryOfLook(s: State, s': State, d: nat)
    requires Look(s, d).(row := None) == Look(s', d).(row := None)
    ensures Summarize(s.journal, d) == Summarize(s'.journal, d)
  {
    var a, b := Look(s, d).(row := None), Look(s', d).(row := None);
    assert a.latest == b.latest && a.synced == b.synced;
  }

  lemma {:induction false} RebuildListLook(cfg: Config, s: State, order: seq<nat>, d: nat)
    requires forall i, j :: 0 <= i < j < |order| ==> order[i] != order[j]
    ensures SameButTimes(Look(Run(s, RebuildList(cfg, s, order)), d),
                         if d in order then RebuiltSlot(cfg, Look(s, d), Summarize(s.journal, d)) else Look(s, d))
    decreases order
  {
    if order != [] {
      var c := order[0];
      var one := RebuildOne(cfg, s, c);
      var s1 := Run(s, one);
      RebuildOneLook(cfg, s, c, d);
      RebuildListLook(cfg, s1, order[1..], d);
      RunConcat(s, one, RebuildList(cfg, s1, order[1..]));
      SummaryOfLook(s, s1, d);
      assert d in order <==> d == c || d in order[1..];
      LookRow(s, d);
    }
  }

  /**
   * Recovery, time stamps aside, only depends on each chunk's file, row and journal summary; in
   * particular not on the order in which the journaled chunks are visited.
   */
  lemma RecoverLook(cfg: Config, s: State, order: seq<nat>, d: nat)
    requires IsOrder(order, s.journal)
    ensures SameButTimes(
              Look(Run(s, Recover(cfg, s, order)), d),
              Look(s, d).(row := RecoveredRow(cfg, FileOf(s, d), RowOf(s, d), Summarize(s.journal, d), 0)))
  {
    var v := Validate(s);
    var s1 := Run(s, v);
    ValidateLook(s, d);
    RebuildListLook(cfg, s1, order, d);
    RunConcat(s, v, RebuildList(cfg, s1, order));
    SummaryOfLook(s, s1, d);
    LatestLocalIsMax(s.journal, d);
    LookRow(s, d);
    LookRow(s1, d);
  }

  lemma LostOnce(file: Option<seq<byte>>, row: Option<Meta>)
    requires LostAt(file, row)
    ensures !LostAt(file, Some(LostRow(row.value)))
  {
  }

  /** `fsck` validates twice, which is validating once: it leaves a chunk exactly as `recover` does. */
  lemma FsckLook(cfg: Config, s: State, order: seq<nat>, d: nat)
    requires IsOrder(order, s.journal)
    ensures Run(s, Validate(s)).journal == s.journal
    ensures SameButTimes(
              Look(Run(s, Fsck(cfg, s, order)), d),
              Look(s, d).(row := RecoveredRow(cfg, FileOf(s, d), RowOf(s, d), Summarize(s.journal, d), 0)))
  {
    hide Recover, LatestLocal, Synced, RebuiltRow, LostRow, Timeless;
    var s1 := Run(s, Validate(s));
    ValidateJournal(s, AllChunks(s.rows));
    ValidateLook(s, d);
    RecoverLook(cfg, s1, order, d);
    RunConcat(s, Validate(s), Recover(cfg, s1, order));
    LookRow(s, d);
    LookRow(s1, d);
    if LostAt(FileOf(s, d), RowOf(s, d)) {
      LostOnce(FileOf(s, d), RowOf(s, d));
    }
  }

  lemma {:induction false} ValidateJournal(s: State, list: seq<nat>)
    requires forall c :: c in list ==> c in s.rows
    ensures Run(s, ValidateList(s, list)).journal == s.journal
    decreases list
  {
    if list != [] {
      var one := ValidateOne(s, list[0]);
      ValidateJournal(Run(s, one), list[1..]);
      RunConcat(s, one, ValidateList(Run(s, one), list[1..]));
      if Lost(s, list[0]) {
        RunOne(s, one[0]);
      }
    }
  }

  // ---------------------------------------------------------------- recovery and the volume

  /** The invariant does not look at time stamps. */
  lemma SettledIgnoresTimes(a: Slot, b: Slot, p: Cells)
    requires SameButTimes(a, b) && SlotSettled(b, p)
    ensures SlotSettled(a, p)
  {
    var x, y := a.(row := None), b.(row := None);
    assert x.file == y.file && x.remote == y.remote && x.latest == y.latest && x.synced == y.synced;
    if a.row.Some? {
      var m, n := Timeless(a.row).value, Timeless(b.row).value;
      assert m.state == n.state && m.hasPath == n.hasPath && m.size == n.size;
    }
    assert a.State() == b.State();
  }

  lemma RecoveredSettles(cfg: Config, sl: Slot, p: Cells, now: nat)
    requires SlotSalvageable(sl, p)
    ensures SlotSettled(sl.(row := RecoveredRow(cfg, sl.file, sl.row, Summary(sl.latest, sl.Committed()), now)), p)
  {
  }

  /** Every chunk is, time stamps aside, as recovery leaves it. */
  ghost predicate IsRecovered(cfg: Config, s: State, s': State) {
    forall d: nat :: ChunkRecovered(cfg, s, s', d)
  }

  predicate ChunkRecovered(cfg: Config, s: State, s': State, d: nat) {
    SameButTimes(Look(s', d),
                 Look(s, d).(row := RecoveredRow(cfg, FileOf(s, d), RowOf(s, d), Summarize(s.journal, d), 0)))
  }

  lemma RecoveredRepresents(cfg: Config, s: State, s': State, v: Cells)
    requires Salvageable(cfg, s, v) && IsRecovered(cfg, s, s')
    ensures Represents(cfg, s', v)
  {
    forall d: nat
      ensures ChunkSettled(cfg, s', v, d)
    {
      assert ChunkSalvageable(cfg, s, v, d);
      assert ChunkRecovered(cfg, s, s', d);
      var sl := Look(s, d);
      LookRow(s, d);
      RecoveredSettles(cfg, sl, Part(v, cfg.geo, d), 0);
      SettledIgnoresTimes(Look(s', d),
                          sl.(row := RecoveredRow(cfg, sl.file, sl.row, Summary(sl.latest, sl.Committed()), 0)),
                          Part(v, cfg.geo, d));
    }
  }

  lemma RecoverIsRecovered(cfg: Config, s: State, order: seq<nat>)
    requires IsOrder(order, s.journal)
    ensures IsRecovered(cfg, s, Run(s, Recover(cfg, s, order)))
  {
    hide Recover, Run, RecoveredRow, SameButTimes, Look, Summarize;
    forall d: nat
      ensures ChunkRecovered(cfg, s, Run(s, Recover(cfg, s, order)), d)
    {
      RecoverLook(cfg, s, order, d);
    }
  }

  lemma FsckIsRecovered(cfg: Config, s: State, order: seq<nat>)
    requires IsOrder(order, s.journal)
    ensures IsRecovered(cfg, s, Run(s, Fsck(cfg, s, order)))
  {
    hide Fsck, Run, RecoveredRow, SameButTimes, Look, Summarize;
    forall d: nat
      ensures ChunkRecovered(cfg, s, Run(s, Fsck(cfg, s, order)), d)
    {
      FsckLook(cfg, s, order, d);
    }
  }

  /** Recovery from any salvageable state gives a state that represents the same volume. */
  lemma RecoverRepresents(cfg: Config, s: State, order: seq<nat>, v: Cells)
    requires Salvageable(cfg, s, v) && IsOrder(order, s.journal)
    ensures Represents(cfg, Run(s, Recover(cfg, s, order)), v)
  {
    hide Salvageable, Represents, IsRecovered, Recover, Run;
    RecoverIsRecovered(cfg, s, order);
    RecoveredRepresents(cfg, s, Run(s, Recover(cfg, s, order)), v);
  }

  /** And so does `fsck`. */
  lemma FsckRepresents(cfg: Config, s: State, order: seq<nat>, v: Cells)
    requires Salvageable(cfg, s, v) && IsOrder(order, s.journal)
    ensures Represents(cfg, Run(s, Fsck(cfg, s, order)), v)
  {
    hide Salvageable, Represents, IsRecovered, Fsck, Run;
    FsckIsRecovered(cfg, s, order);
    RecoveredRepresents(cfg, s, Run(s, Fsck(cfg, s, order)), v);
  }

  predicate InError(s: State, c: nat) {
    c in s.rows && s.rows[c].state == ChunkState.Error
  }

  /**
   * Recovery, and `fsck`, puts a chunk in Error exactly when its file is gone and its row was Dirty,
   * Uploading or already in Error, or when it was in Error and no record of it was journaled.
   */
  lemma RecoveredErrors(cfg: Config, s: State, s': State, c: nat)
    requires ChunkRecovered(cfg, s, s', c)
    ensures InError(s', c) <==>
              && c in s.rows
              && (|| (s.rows[c].state == ChunkState.Error && !(c in s.files && LatestLocal(s.journal, c).Some?))
                  || ((s.rows[c].state == Dirty || s.rows[c].state == Uploading)
                      && LostAt(FileOf(s, c), RowOf(s, c)) && !(c in s.files && LatestLocal(s.journal, c).Some?)))
  {
    hide Summarize, RebuiltRow, LatestLocal, Synced;
    var sum := Summarize(s.journal, c);
    SummaryLatest(s.journal, c);
    LookRow(s', c);
    StateOfTimeless(RowOf(s', c), RecoveredRow(cfg, FileOf(s, c), RowOf(s, c), sum, 0));
    RecoveredState(cfg, FileOf(s, c), RowOf(s, c), sum);
  }

  lemma RecoverErrors(cfg: Config, s: State, order: seq<nat>, c: nat)
    requires IsOrder(order, s.journal)
    ensures InError(Run(s, Recover(cfg, s, order)), c) <==>
              && c in s.rows
              && (|| (s.rows[c].state == ChunkState.Error && !(c in s.files && LatestLocal(s.journal, c).Some?))
                  || ((s.rows[c].state == Dirty || s.rows[c].state == Uploading)
                      && LostAt(FileOf(s, c), RowOf(s, c)) && !(c in s.files && LatestLocal(s.journal, c).Some?)))
  {
    hide Recover, Run, ChunkRecovered;
    RecoverIsRecovered(cfg, s, order);
    RecoveredErrors(cfg, s, Run(s, Recover(cfg, s, order)), c);
  }

  lemma SummaryLatest(journal: seq<Event>, c: nat)
    ensures Summarize(journal, c).latest == LatestLocal(journal, c)
  {
  }

  lemma StateOfTimeless(a: Option<Meta>, b: Option<Meta>)
    requires Timeless(a) == Timeless(b)
    ensures a.Some? <==> b.Some?
    ensures a.Some? ==> a.value.state == b.value.state
  {
    if a.Some? {
      assert Timeless(a).value.state == Timeless(b).value.state;
    }
  }

  lemma RecoveredState(cfg: Config, file: Option<seq<byte>>, row: Option<Meta>, sum: Summary)
    ensures var r := RecoveredRow(cfg, file, row, sum, 0);
            r.Some? && r.value.state == ChunkState.Error <==>
              && row.Some? && !(file.Some? && sum.latest.Some?)
              && (row.value.state == ChunkState.Error
                  || ((row.value.state == Dirty || row.value.state == Uploading) && LostAt(file, row)))
  {
  }

  // ---------------------------------------------------------------- crashes during recovery

  /** One effect of recovery: give up on a lost file, or trust a file that is journaled. */
  predicate RecoveryStep(cfg: Config, s: State, e: Effect) {
    && e.Upsert?
    && (|| (e.c in s.rows && Lost(s, e.c) && e.row == LostRow(s.rows[e.c]))
        || (&& e.c in s.files && LatestLocal(s.journal, e.c).Some?
            && e.row == RebuiltRow(cfg, s.files[e.c], Summarize(s.journal, e.c), s.clock)))
  }

  predicate RecoverySteps(cfg: Config, s: State, t: seq<Effect>)
    decreases t
  {
    t != [] ==> RecoveryStep(cfg, s, t[0]) && RecoverySteps(cfg, Apply(s, t[0]), t[1..])
  }

  lemma {:induction false} StepsConcat(cfg: Config, s: State, a: seq<Effect>, b: seq<Effect>)
    requires RecoverySteps(cfg, s, a) && RecoverySteps(cfg, Run(s, a), b)
    ensures RecoverySteps(cfg, s, a + b)
    decreases a
  {
    hide RecoveryStep, Apply;
    if a == [] {
      assert a + b == b;
    } else {
      StepsConcat(cfg, Apply(s, a[0]), a[1..], b);
      assert (a + b)[0] == a[0] && (a + b)[1..] == a[1..] + b;
    }
  }

  lemma {:induction false} ValidateSteps(cfg: Config, s: State, list: seq<nat>)
    requires forall c :: c in list ==> c in s.rows
    ensures RecoverySteps(cfg, s, ValidateList(s, list))
    decreases list
  {
    if list != [] {
      var one := ValidateOne(s, list[0]);
      ValidateSteps(cfg, Run(s, one), list[1..]);
      assert RecoverySteps(cfg, s, one);
      StepsConcat(cfg, s, one, ValidateList(Run(s, one), list[1..]));
    }
  }

  lemma {:induction false} RebuildSteps(cfg: Config, s: State, order: seq<nat>)
    ensures RecoverySteps(cfg, s, RebuildList(cfg, s, order))
    decreases order
  {
    if order != [] {
      var one := RebuildOne(cfg, s, order[0]);
      RebuildSteps(cfg, Run(s, one), order[1..]);
      assert RecoverySteps(cfg, s, one);
      StepsConcat(cfg, s, one, RebuildList(cfg, Run(s, one), order[1..]));
    }
  }

  lemma RecoveryStepSafe(cfg: Config, s: State, e: Effect, v: Cells)
    requires RecoveryStep(cfg, s, e)
    ensures Salvageable(cfg, s, v) ==> Salvageable(cfg, Apply(s, e), v)
    ensures Recoverable(cfg, s, v) ==> Recoverable(cfg, Apply(s, e), v)
  {
    var s' := Apply(s, e);
    if Salvageable(cfg, s, v) {
      forall d: nat
        ensures ChunkSalvageable(cfg, s', v, d)
      {
        assert ChunkSalvageable(cfg, s, v, d);
        LookAfter(s, e, d);
      }
    }
    if Recoverable(cfg, s, v) {
      forall d: nat
        ensures ChunkSafe(cfg, s', v, d)
      {
        assert ChunkSafe(cfg, s, v, d);
        LookAfter(s, e, d);
      }
    }
  }

  lemma {:induction false} RecoveryStepsSafe(cfg: Config, s: State, t: seq<Effect>, v: Cells, k: nat)
    requires RecoverySteps(cfg, s, t) && k <= |t|
    ensures Salvageable(cfg, s, v) ==> Salvageable(cfg, Run(s, t[..k]), v)
    ensures Recoverable(cfg, s, v) ==> Recoverable(cfg, Run(s, t[..k]), v)
    ensures Run(s, t[..k]).journal == s.journal
    decreases k
  {
    if k > 0 {
      RecoveryStepSafe(cfg, s, t[0], v);
      RecoveryStepsSafe(cfg, Apply(s, t[0]), t[1..], v, k - 1);
      assert t[..k][0] == t[0] && t[..k][1..] == t[1..][..k - 1];
    }
  }

  /**
   * A crash in the middle of recovery, at any effect, loses nothing: the next recovery, in any
   * order, still gives a state that represents the volume.
   */
  lemma CrashDuringRecovery(cfg: Config, s: State, order: seq<nat>, k: nat, order': seq<nat>, v: Cells)
    requires Salvageable(cfg, s, v) && IsOrder(order, s.journal) && IsOrder(order', s.journal)
    requires k <= |Recover(cfg, s, order)|
    ensures var s1 := Run(s, Recover(cfg, s, order)[..k]);
            && (Recoverable(cfg, s, v) ==> Recoverable(cfg, s1, v))
            && Represents(cfg, Run(s1, Recover(cfg, s1, order')), v)
  {
    RecoverIsSteps(cfg, s, order);
    RecoveryStepsSafe(cfg, s, Recover(cfg, s, order), v, k);
    RecoverRepresents(cfg, Run(s, Recover(cfg, s, order)[..k]), order', v);
  }

  lemma RecoverIsSteps(cfg: Config, s: State, order: seq<nat>)
    ensures RecoverySteps(cfg, s, Recover(cfg, s, order))
  {
    ValidateSteps(cfg, s, AllChunks(s.rows));
    RebuildSteps(cfg, Run(s, Validate(s)), order);
    StepsConcat(cfg, s, Validate(s), RebuildList(cfg, Run(s, Validate(s)), order));
  }

  // ---------------------------------------------------------------- recovery is a function of a summary

  /** Everything but time stamps, transaction ids and the journal text itself. */
  ghost predicate SameForRecovery(s: State, t: State) {
    forall d: nat ::
      && FileOf(s, d) == FileOf(t, d)
      && Timeless(RowOf(s, d)) == Timeless(RowOf(t, d))
      && Summarize(s.journal, d) == Summarize(t.journal, d)
  }

  /**
   * Two states with the same files, rows and journal summaries recover to the same rows, whatever
   * else their journals hold and in whatever order the chunks are visited.
   */
  lemma RecoveryDependsOnSummary(cfg: Config, s: State, t: State, order: seq<nat>, order': seq<nat>, d: nat)
    requires IsOrder(order, s.journal) && IsOrder(order', t.journal) && SameForRecovery(s, t)
    ensures var s', t' := Run(s, Recover(cfg, s, order)), Run(t, Recover(cfg, t, order'));
            Timeless(RowOf(s', d)) == Timeless(RowOf(t', d)) && FileOf(s', d) == FileOf(t', d)
  {
    RecoverLook(cfg, s, order, d);
    RecoverLook(cfg, t, order', d);
    var s', t' := Run(s, Recover(cfg, s, order)), Run(t, Recover(cfg, t, order'));
    LookRow(s', d);
    LookRow(t', d);
    var sum := Summarize(s.journal, d);
    assert FileOf(s, d) == FileOf(t, d) && Timeless(RowOf(s, d)) == Timeless(RowOf(t, d))
        && sum == Summarize(t.journal, d);
    var x, y := Look(s', d).(row := None), Look(s, d).(row := None);
    assert x.file == y.file;
    var z, w := Look(t', d).(row := None), Look(t, d).(row := None);
    assert z.file == w.file;
    TimelessRecovered(cfg, FileOf(s, d), RowOf(s, d), RowOf(t, d), sum);
  }

  /**
   * `compact` is harmless to recovery as long as it keeps, of each chunk, the records of its latest
   * local generation.
   */
  lemma CompactionHarmless(cfg: Config, s: State, kept: seq<Event>, order: seq<nat>, order': seq<nat>, d: nat)
    requires forall e :: e in kept ==> e in s.journal
    requires forall c: nat :: LatestLocal(s.journal, c).Some? ==>
               Keeps(s.journal, kept, c, LatestLocal(s.journal, c).value)
    requires IsOrder(order, s.journal) && IsOrder(order', kept)
    ensures var t := s.(journal := kept);
            var s', t' := Run(s, Recover(cfg, s, order)), Run(t, Recover(cfg, t, order'));
            Timeless(RowOf(s', d)) == Timeless(RowOf(t', d)) && FileOf(s', d) == FileOf(t', d)
  {
    hide LatestLocal, Synced, Keeps, Summarize, Recover, Run;
    var t := s.(journal := kept);
    forall c: nat
      ensures Summarize(s.journal, c) == Summarize(t.journal, c)
    {
      CompactionKeepsSummary(s.journal, kept, c);
    }
    assert SameForRecovery(s, t);
    RecoveryDependsOnSummary(cfg, s, t, order, order', d);
  }

  lemma TimelessRecovered(cfg: Config, file: Option<seq<byte>>, r1: Option<Meta>, r2: Option<Meta>, sum: Summary)
    requires Timeless(r1) == Timeless(r2)
    ensures Timeless(RecoveredRow(cfg, file, r1, sum, 0)) == Timeless(RecoveredRow(cfg, file, r2, sum, 0))
  {
    if r1.Some? {
      var a, b := Timeless(r1).value, Timeless(r2).value;
      assert a.state == b.state && a.hasPath == b.hasPath && a.size == b.size && a.remoteGen == b.remoteGen
          && a.localGen == b.localGen && a.checksum == b.checksum && a.pins == b.pins;
    }
  }

  lemma RecoveredTwice(cfg: Config, file: Option<seq<byte>>, row: Option<Meta>, sum: Summary)
    ensures Timeless(RecoveredRow(cfg, file, RecoveredRow(cfg, file, row, sum, 0), sum, 0))
         == Timeless(RecoveredRow(cfg, file, row, sum, 0))
  {
  }

  lemma RecoveryKeepsRest(cfg: Config, s: State, order: seq<nat>, d: nat)
    requires IsOrder(order, s.journal)
    ensures var s1 := Run(s, Recover(cfg, s, order));
            && s1.journal == s.journal
            && FileOf(s1, d) == FileOf(s, d)
            && Timeless(RowOf(s1, d))
                == Timeless(RecoveredRow(cfg, FileOf(s, d), RowOf(s, d), Summarize(s.journal, d), 0))
  {
    var t := Recover(cfg, s, order);
    RecoverIsSteps(cfg, s, order);
    RecoveryStepsSafe(cfg, s, t, [], |t|);
    assert t[..|t|] == t;
    RecoverLook(cfg, s, order, d);
    LookRow(s, d);
    LookRow(Run(s, t), d);
    var x, y := Look(Run(s, t), d).(row := None), Look(s, d).(row := None);
    assert x.file == y.file;
  }

  /** Recovering twice, in whatever orders, is recovering once. */
  lemma RecoveryIdempotent(cfg: Config, s: State, order: seq<nat>, order': seq<nat>, d: nat)
    requires IsOrder(order, s.journal) && IsOrder(order', s.journal)
    ensures var s1 := Run(s, Recover(cfg, s, order));
            var s2 := Run(s1, Recover(cfg, s1, order'));
            && s1.journal == s.journal
            && FileOf(s2, d) == FileOf(s1, d) && Timeless(RowOf(s2, d)) == Timeless(RowOf(s1, d))
  {
    var s1 := Run(s, Recover(cfg, s, order));
    RecoveryKeepsRest(cfg, s, order, d);
    RecoveryKeepsRest(cfg, s1, order', d);
    hide Recover, Run, Timeless, RecoveredRow, Summarize;
    var sum := Summarize(s.journal, d);
    var r1 := RecoveredRow(cfg, FileOf(s, d), RowOf(s, d), sum, 0);
    TimelessRecovered(cfg, FileOf(s, d), RowOf(s1, d), r1, sum);
    RecoveredTwice(cfg, FileOf(s, d), RowOf(s, d), sum);
  }

  // ---------------------------------------------------------------- losing local files

  /** The environment removes the local files of the chunks in `gone`. */
  function LoseFiles(s: State, gone: set<nat>): State { s.(files := s.files - gone) }

  lemma LossIsSalvageable(cfg: Config, s: State, gone: set<nat>, v: Cells)
    requires Salvageable(cfg, s, v)
    ensures Salvageable(cfg, LoseFiles(s, gone), v)
  {
    var s' := LoseFiles(s, gone);
    forall d: nat
      ensures ChunkSalvageable(cfg, s', v, d)
    {
      assert ChunkSalvageable(cfg, s, v, d);
      assert Look(s', d) == if d in gone then Look(s, d).(file := None) else Look(s, d);
    }
  }

  predicate OnlyLocal(s: State, c: nat) {
    c in s.rows && (s.rows[c].state == Dirty || s.rows[c].state == Uploading)
  }

  lemma LossErrors(cfg: Config, s: State, gone: set<nat>, s': State, v: Cells, c: nat)
    requires Represents(cfg, s, v) && IsRecovered(cfg, LoseFiles(s, gone), s')
    ensures InError(s', c) && !InError(s, c) ==> c in gone && OnlyLocal(s, c)
    ensures c in gone && OnlyLocal(s, c) ==> InError(s', c)
  {
    hide LatestLocal, Synced, Agrees, Part, ChunkRecovered;
    assert ChunkRecovered(cfg, LoseFiles(s, gone), s', c);
    RecoveredErrors(cfg, LoseFiles(s, gone), s', c);
    assert ChunkSettled(cfg, s, v, c);
    LookRow(s, c);
  }

  /**
   * No silent loss: lose any local files, then recover. The state still represents the volume from
   * before the loss, so every read returns the old bytes or fails; and it fails for lost Dirty
   * chunks only: the chunks newly in Error are the Dirty or Uploading ones that lost their file.
   */
  lemma NoSilentLoss(cfg: Config, s: State, gone: set<nat>, s': State, v: Cells)
    requires Represents(cfg, s, v) && IsRecovered(cfg, LoseFiles(s, gone), s')
    ensures Represents(cfg, s', v)
    ensures forall c: nat :: InError(s', c) && !InError(s, c) ==> c in gone && OnlyLocal(s, c)
    ensures forall c: nat :: c in gone && OnlyLocal(s, c) ==> InError(s', c)
  {
    hide Represents, Recoverable, Salvageable, IsRecovered, OnlyLocal, InError;
    SettledIsSafe(cfg, s, v);
    SafeIsSalvageable(cfg, s, v);
    LossIsSalvageable(cfg, s, gone, v);
    RecoveredRepresents(cfg, LoseFiles(s, gone), s', v);
    forall c: nat {
      LossErrors(cfg, s, gone, s', v, c);
    }
  }

  /** So it is whether the loss is found by a stopped engine that reopens, or by a live one that runs `fsck`. */
  lemma LossFound(cfg: Config, s: State, gone: set<nat>, order: seq<nat>)
    requires IsOrder(order, s.journal)
    ensures var lost := LoseFiles(s, gone);
            && IsRecovered(cfg, lost, Reopened(cfg, lost, order))
            && IsRecovered(cfg, lost, Run(lost, Recover(cfg, lost, order)))
            && IsRecovered(cfg, lost, Run(lost, Fsck(cfg, lost, order)))
  {
    hide Recover, Fsck, Run, ChunkRecovered;
    var lost := LoseFiles(s, gone);
    RecoverIsRecovered(cfg, lost, order);
    FsckIsRecovered(cfg, lost, order);
    RecoverIsRecovered(cfg, Loaded(lost), order);
    LoadedRecovered(cfg, lost, Reopened(cfg, lost, order));
  }

  lemma LoadedRecovered(cfg: Config, s: State, s': State)
    requires IsRecovered(cfg, Loaded(s), s')
    ensures IsRecovered(cfg, s, s')
  {
    hide SameButTimes, RecoveredRow, LatestLocal, Synced;
    forall d: nat
      ensures ChunkRecovered(cfg, s, s', d)
    {
      assert ChunkRecovered(cfg, Loaded(s), s', d);
      assert Look(Loaded(s), d) == Look(s, d);
    }
  }
}
