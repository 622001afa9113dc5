/**
 * The lost newline, played from the creation of a volume to the wrong read: an upload record loses its
 * newline in a crash, the next write completes that line, and so looks uploaded when it is recovered.
 */
module MergedRun {
  import opened Wrappers
  import opened Mapper
  import opened Metadata
  import opened Wal
  import opened WalText
  import opened WalCodec
  import opened WalFile
  import opened WalMerge
  import opened Store
  import opened Operations
  import opened Recovery
  import opened Writing
  import opened Runs
  import opened Loops
  import opened SmallVolume
  import opened Witnesses

  // ---------------------------------------------------------------- the journal, event by event

  lemma {:induction false} StepsKeepTxid(cfg: Config, s: State, t: seq<Effect>)
    requires RecoverySteps(cfg, s, t)
    ensures Run(s, t).nextTxid == s.nextTxid && Run(s, t).journal == s.journal
    decreases t
  {
    if t != [] {
      StepsKeepTxid(cfg, Apply(s, t[0]), t[1..]);
    }
  }

  lemma ReopenKeepsJournal(cfg: Config, s: State, order: seq<nat>)
    ensures Reopened(cfg, s, order).journal == s.journal && Reopened(cfg, s, order).nextTxid == ReopenedTxid(s.journal)
  {
    hide Recover, Run, RecoverySteps;
    RecoverIsSteps(cfg, Loaded(s), order);
    StepsKeepTxid(cfg, Loaded(s), Recover(cfg, Loaded(s), order));
  }

  /** The two records of the first write of chunk c, as a whole. */
  function WriteRecords(txid: nat, c: nat): seq<Event> { [WriteBegin(txid, c, 0, 2, 0, 1), LocalCommitted(txid, c, 1)] }

  lemma WriteLogs(cfg: Config, s: State, n: nat, c: nat, sl: Slot, data: seq<byte>)
    requires Roomy(cfg, n) && Small(s, n) && c < n && At(s, c, sl) && sl.row.None? && |data| == 2
    ensures var s' := Run(s, Write(cfg, s, 2 * c, data).trace);
            s'.journal == s.journal + WriteRecords(s.nextTxid, c) && s'.nextTxid == s.nextTxid + 1
  {
    hide Run, Write, Look, Small, SameButTimes, Overwrite, WrittenSlot, Apply;
    WholeWrite(cfg, s, n, c, sl, data);
    PrepareWhole(cfg, s, n, c);
    Alike(Look(s, c), sl);
    var s1 := Run(s, EmptyChunk(cfg, c));
    CommitLogs(cfg, s1, Span(c, 0, 0, 2), data);
    RunConcat(s, EmptyChunk(cfg, c), Commit(cfg, s1, Span(c, 0, 0, 2), data));
  }

  lemma CommitLogs(cfg: Config, s: State, sp: Span, data: seq<byte>)
    requires sp.len == |data| == 2 && sp.offsetInChunk == 0 && Look(s, sp.chunkId).Gen() == 0
    ensures var s' := Run(s, Commit(cfg, s, sp, data));
            s'.journal == s.journal + WriteRecords(s.nextTxid, sp.chunkId) && s'.nextTxid == s.nextTxid + 1
  {
    hide Overwrite, Run;
    var t := Commit(cfg, s, sp, data);
    RunFour(s, t[0], t[1], t[2], t[3]);
    assert t == [t[0], t[1], t[2], t[3]];
    assert s.journal + [t[0].event] + [t[3].event] == s.journal + WriteRecords(s.nextTxid, sp.chunkId);
  }

  lemma UploadLogs(cfg: Config, s: State, n: nat, c: nat)
    requires (forall data: seq<byte> :: cfg.digest(data) == NoDigest()) && Small(s, n) && c < n
    requires c in s.rows && s.rows[c].state == Dirty && s.rows[c].hasPath && c in s.files
    ensures Run(s, SyncOne(cfg, s, c).trace).journal
         == s.journal + [CloudCommitted(c, s.rows[c].localGen.GetOr(0), NoDigest())]
  {
    hide Run, SyncOne, Small;
    UploadOne(cfg, s, n, c);
    var t := SyncOne(cfg, s, c).trace;
    RunFour(s, t[0], t[1], t[2], t[3]);
    assert t == [t[0], t[1], t[2], t[3]];
    ApplyQuietly(s, t[0]);
    ApplyQuietly(Apply(s, t[0]), t[1]);
    ApplyQuietly(Apply(Apply(s, t[0]), t[1]), t[2]);
  }

  lemma ApplyQuietly(s: State, e: Effect)
    requires !e.Append?
    ensures Apply(s, e).journal == s.journal
  {
  }

  // ---------------------------------------------------------------- the run, up to the second write

  /** The first three steps: write chunk 0; a crash while its upload is recorded; write chunk 1. */
  function MergedSteps(): seq<Step> {
    [Completes(WriteOp(0, [7, 8])), Crashes(SyncOp, 4, [], [], [0]), Completes(WriteOp(2, [9, 9]))]
  }

  /** What the engine has logged by then. */
  function MergedLog(): seq<Event> {
    WriteRecords(1, 0) + [CloudCommitted(0, 1, NoDigest())] + WriteRecords(2, 1)
  }

  function FirstSlot(): Slot { Slot(Some([7, 8]), Some(DirtyRow(2, 1, 0)), None, Some(1), {}) }

  function SecondSlot(): Slot { Slot(Some([9, 9]), Some(DirtyRow(2, 1, 0)), None, Some(1), {}) }

  function NoSlot(): Slot { Slot(None, None, None, None, {}) }

  lemma WrittenFirst(data: seq<byte>)
    requires |data| == 2
    ensures WrittenSlot(NoSlot().(file := Some(Zeroes(2))), 0, data)
         == Slot(Some(data), Some(DirtyRow(2, 1, 0)), None, Some(1), {})
  {
    assert Overwrite(Zeroes(2), 0, data, 2) == data;
  }

  lemma NoSlotRecovered(cfg: Config)
    ensures RecoveredSlot(cfg, NoSlot()) == NoSlot()
  {
  }

  lemma Kept(s: State, s': State, c: nat, d: nat, sl: Slot)
    requires At(s, d, sl) && Others(s, s', c) && d != c
    ensures At(s', d, sl)
  {
  }

  lemma FirstStep(cfg: Config, s: State)
    requires cfg == Tiny(2, 4, 4) && s == Created(map[])
    ensures var step := MergedSteps()[0];
            && Possible(cfg, s, step) && Succeeds(cfg, s, step)
            && var s1 := Runs.After(cfg, s, step);
            && Tame(cfg, s1, 2) && At(s1, 0, FirstSlot()) && At(s1, 1, NoSlot())
            && s1.journal == WriteRecords(1, 0) && s1.nextTxid == 2
  {
    hide Write, At, Small, ShortFiles, Others, WrittenSlot;
    CreatedTame(cfg, 2, 0);
    CreatedTame(cfg, 2, 1);
    WrittenFirst([7, 8]);
    PlayWhole(cfg, s, 2, 0, NoSlot(), [7, 8]);
    WriteLogs(cfg, s, 2, 0, NoSlot(), [7, 8]);
    Kept(s, Runs.After(cfg, s, MergedSteps()[0]), 0, 1, NoSlot());
    assert [] + WriteRecords(1, 0) == WriteRecords(1, 0);
  }

  lemma OnlyFirstDirty(s: State)
    requires Small(s, 2) && At(s, 0, FirstSlot()) && At(s, 1, NoSlot())
    ensures OnlyDirty(s, 0) && 0 in s.rows && s.rows[0].state == Dirty
    ensures 0 in s.files && s.rows[0].hasPath && s.rows[0].localGen == Some(1)
  {
    hide Timeless, Unused;
    Alike(Look(s, 0), FirstSlot());
    Alike(Look(s, 1), NoSlot());
    LookRow(s, 0);
    LookRow(s, 1);
    RowsOfSmall(s, 2);
  }

  lemma WholeTorn(s: State, t: seq<Effect>)
    ensures Torn(s, t, |t|, []) == Run(s, t)
  {
    assert t[..|t|] == t;
  }

  lemma TxidAfterUpload()
    ensures ReopenedTxid(WriteRecords(1, 0) + [CloudCommitted(0, 1, NoDigest())]) == 2
  {
    var j := WriteRecords(1, 0) + [CloudCommitted(0, 1, NoDigest())];
    assert j[..2] == WriteRecords(1, 0) && j[..2][..1] == [j[0]] && j[..2][..1][..0] == [];
    assert ReopenedTxid([j[0]]) == 2;
    assert ReopenedTxid(j[..2]) == 2;
  }

  lemma ListsFirst(s: State)
    requires At(s, 0, SyncedSlot(FirstSlot())) && At(s, 1, NoSlot())
    ensures Lists([0], s, 2)
  {
    hide Timeless;
    Alike(Look(s, 0), SyncedSlot(FirstSlot()));
    Alike(Look(s, 1), NoSlot());
  }

  /** The state in which the upload record has lost only its newline. */
  lemma UploadRecorded(cfg: Config, s: State)
    requires cfg == Tiny(2, 4, 4) && Tame(cfg, s, 2) && At(s, 0, FirstSlot()) && At(s, 1, NoSlot())
    requires s.journal == WriteRecords(1, 0)
    ensures |Sync(cfg, s).trace| == 4
    ensures var c1 := Run(s, Sync(cfg, s).trace);
            && Tame(cfg, c1, 2) && At(c1, 1, NoSlot()) && Lists([0], c1, 2)
            && c1.journal == WriteRecords(1, 0) + [CloudCommitted(0, 1, NoDigest())]
  {
    hide Run, Sync, SyncOne, At, Small, ShortFiles, Others, OnlyDirty, Lists;
    OnlyFirstDirty(s);
    SyncStep(cfg, s, 2, 0, FirstSlot());
    UploadOne(cfg, s, 2, 0);
    UploadLogs(cfg, s, 2, 0);
    var c1 := Run(s, Sync(cfg, s).trace);
    ShortAfter(s, c1, 0, SyncedSlot(FirstSlot()));
    Kept(s, c1, 0, 1, NoSlot());
    ListsFirst(c1);
  }

  lemma SyncCrashIs(cfg: Config, s: State)
    requires |Sync(cfg, s).trace| == 4 && IsOrder([0], Run(s, Sync(cfg, s).trace).journal)
    ensures var step := Crashes(SyncOp, 4, [], [], [0]);
            && Possible(cfg, s, step) && Succeeds(cfg, s, step)
            && Runs.After(cfg, s, step) == Reopened(cfg, Run(s, Sync(cfg, s).trace), [0])
  {
    hide Run, Sync, Reopened, IsOrder, Torn;
    WholeTorn(s, Sync(cfg, s).trace);
  }

  lemma SecondStep(cfg: Config, s: State)
    requires cfg == Tiny(2, 4, 4) && Tame(cfg, s, 2) && At(s, 0, FirstSlot()) && At(s, 1, NoSlot())
    requires s.journal == WriteRecords(1, 0)
    ensures var step := MergedSteps()[1];
            && Possible(cfg, s, step) && Succeeds(cfg, s, step)
            && var s1 := Runs.After(cfg, s, step);
            && Tame(cfg, s1, 2) && At(s1, 1, NoSlot())
            && s1.journal == WriteRecords(1, 0) + [CloudCommitted(0, 1, NoDigest())] && s1.nextTxid == 2
  {
    hide Run, Sync, At, Small, ShortFiles, Reopened, Lists, IsOrder, Possible, Runs.After, Succeeds;
    UploadRecorded(cfg, s);
    var c1 := Run(s, Sync(cfg, s).trace);
    NoSlotRecovered(cfg);
    OpenStep(cfg, c1, 2, [0], 1, NoSlot());
    LossShort(cfg, c1, {}, [0]);
    ReopenKeepsJournal(cfg, c1, [0]);
    TxidAfterUpload();
    SyncCrashIs(cfg, s);
  }

  lemma ThirdStep(cfg: Config, s: State)
    requires cfg == Tiny(2, 4, 4) && Tame(cfg, s, 2) && At(s, 1, NoSlot())
    requires s.journal == WriteRecords(1, 0) + [CloudCommitted(0, 1, NoDigest())] && s.nextTxid == 2
    ensures var step := MergedSteps()[2];
            && Possible(cfg, s, step) && Succeeds(cfg, s, step)
            && var s1 := Runs.After(cfg, s, step);
            Tame(cfg, s1, 2) && At(s1, 1, SecondSlot()) && s1.journal == MergedLog()
  {
    hide Write, At, Small, ShortFiles, Others, WrittenSlot;
    WrittenFirst([9, 9]);
    PlayWhole(cfg, s, 2, 1, NoSlot(), [9, 9]);
    WriteLogs(cfg, s, 2, 1, NoSlot(), [9, 9]);
  }

  lemma MergedPlays(cfg: Config, s: State)
    requires cfg == Tiny(2, 4, 4) && s == Created(map[])
    ensures exists s' ::
              Plays(cfg, s, MergedSteps(), s') && Tame(cfg, s', 2) && At(s', 1, SecondSlot())
                  && s'.journal == MergedLog()
  {
    hide At, Plays, Possible, Succeeds, Runs.After, Tame;
    var t := MergedSteps();
    FirstStep(cfg, s);
    var s1 := Runs.After(cfg, s, t[0]);
    SecondStep(cfg, s1);
    var s2 := Runs.After(cfg, s1, t[1]);
    ThirdStep(cfg, s2);
    var s3 := Runs.After(cfg, s2, t[2]);
    PlayNothing(cfg, s3);
    PlayFirst(cfg, s2, t[2], [], s3);
    assert [t[2]] + [] == t[2..];
    PlayFirst(cfg, s1, t[1], t[2..], s3);
    assert [t[1]] + t[2..] == t[1..];
    PlayFirst(cfg, s, t[0], t[1..], s3);
    assert [t[0]] + t[1..] == t;
  }

  // ---------------------------------------------------------------- what the file reads as

  /** The file: the first three records, without the newline that the crash took, and then the last two. */
  function MergedText(): string
    requires TextOf(MergedLog()[..3]) != ""
  {
    var three := TextOf(MergedLog()[..3]);
    three[..|three| - 1] + TextOf(MergedLog()[3..])
  }

  /** And what it reads as. */
  function MergedReading(): seq<Event> {
    WriteRecords(1, 0) + [MergedEvent(CloudCommitted(0, 1, NoDigest()), WriteBegin(2, 1, 0, 2, 0, 1))]
    + [LocalCommitted(2, 1, 1)]
  }

  lemma NoDigestFits()
    ensures Carriable(NoDigest())
  {
    assert NoDigest()[..7] == "sha256:";
    DigestIsCarriable(NoDigest());
  }

  lemma MergedReads()
    ensures TextOf(MergedLog()[..3]) != "" && ReadText(MergedText()) == Ok(MergedReading())
  {
    hide ReadText, Encode, Complete, TextOf, MergedEvent;
    NoDigestFits();
    var j := MergedLog();
    var up, begin, done := j[2], j[3], j[4];
    assert j[..3] == j[..2] + [up] && j[3..] == [begin] + [done] && j[..2] == WriteRecords(1, 0);
    JournalRoundTrip(j[..2]);
    TextOfConcat(j[..2], [up]);
    OneText(up);
    TextOfConcat([begin], [done]);
    OneText(begin);
    OneText(done);
    var before := TextOf(j[..2]);
    var text := before + Encode(up);
    assert TextOf(j[..3]) == text + "\n";
    assert TextOf(j[..3])[..|TextOf(j[..3])| - 1] == text;
    MergedWrite(before, j[..2], up, begin, done);
    assert text + (Encode(begin) + "\n" + (Encode(done) + "\n"))
        == before + Encode(up) + Encode(begin) + "\n" + Encode(done) + "\n";
  }

  lemma ReadingSummary(c: nat)
    ensures LatestLocal(MergedReading(), c) == if c <= 1 then Some(1) else None
    ensures Synced(MergedReading(), c) == if c == 1 then {1} else {}
  {
    hide Unescape;
    var j := MergedReading();
    var a := [j[0]];
    var b := a + [j[1]];
    var d := b + [j[2]];
    assert j == d + [j[3]] && b == WriteRecords(1, 0);
    assert LatestLocal([], c).None? && Synced([], c) == {};
    Snoc([], j[0], c);
    assert [] + [j[0]] == a;
    Snoc(a, j[1], c);
    Snoc(b, j[2], c);
    Snoc(d, j[3], c);
  }

  // ---------------------------------------------------------------- the wrong read

  /** Chunk 1 as the next engine finds it. */
  function FoundSlot(): Slot { SecondSlot().(synced := {1}) }

  lemma FoundState(cfg: Config, s: State, f: State)
    requires Tame(cfg, s, 2) && At(s, 1, SecondSlot()) && f == s.(journal := MergedReading())
    ensures Tame(cfg, f, 2) && At(f, 1, FoundSlot()) && Lists([0, 1], f, 2)
  {
    hide Timeless, MergedReading, LatestLocal, Synced;
    ReadingSummary(0);
    ReadingSummary(1);
    Alike(Look(s, 1), SecondSlot());
    forall c: nat | c >= 2
      ensures Unused(f, c)
    {
      assert Unused(s, c);
      ReadingSummary(c);
    }
    assert Look(f, 1) == Look(s, 1).(latest := Some(1), synced := {1});
  }

  lemma FoundRecovered(cfg: Config)
    ensures RecoveredSlot(cfg, FoundSlot()).State() == Clean && RecoveredSlot(cfg, FoundSlot()).remote == None
    ensures var lost := RecoveredSlot(cfg, RecoveredSlot(cfg, FoundSlot()).(file := None));
            lost.State() == Missing && lost.file == None && lost.remote == None
  {
  }

  lemma ListsSame(s: State, s': State, order: seq<nat>)
    requires Lists(order, s, 2) && s'.journal == s.journal
    ensures Lists(order, s', 2)
  {
  }

  /** The next open, and then a loss of the file of chunk 1. */
  lemma ReadWrong(cfg: Config, f: State)
    requires cfg == Tiny(2, 4, 4) && Tame(cfg, f, 2) && At(f, 1, FoundSlot()) && Lists([0, 1], f, 2)
    ensures IsOrder([0, 1], f.journal)
    ensures var s1, step := Reopened(cfg, f, [0, 1]), Loses({1}, true, [0, 1]);
            && Possible(cfg, s1, step)
            && Read(cfg, Runs.After(cfg, s1, step), 2, 2).result == Ok([0, 0])
  {
    hide At, Small, ShortFiles, Lists, Reopened, Read, Runs.After, IsOrder, RecoveredSlot;
    var s1 := Reopened(cfg, f, [0, 1]);
    FoundRecovered(cfg);
    OpenStep(cfg, f, 2, [0, 1], 1, FoundSlot());
    LossShort(cfg, f, {}, [0, 1]);
    ReopenKeepsJournal(cfg, f, [0, 1]);
    ListsSame(f, s1, [0, 1]);
    PlayLoss(cfg, s1, 2, {1}, [0, 1], 1, RecoveredSlot(cfg, FoundSlot()));
    var s2 := Runs.After(cfg, s1, Loses({1}, true, [0, 1]));
    ReadFetched(cfg, s2, 2, 1, RecoveredSlot(cfg, RecoveredSlot(cfg, FoundSlot()).(file := None)));
    assert Zeroes(2) == [0, 0];
  }

  /**
   * On a new volume of two chunks with room for both: after those three steps, both writes acknowledged,
   * the journal file reads well, as something else than was logged; an engine that opens the volume
   * then takes chunk 1 for uploaded; and once its file is lost, a read of 9, 9 returns zeroes.
   */
  lemma LostNewlineLosesWrite()
    ensures TextOf(MergedLog()[..3]) != "" && ReadText(MergedText()) == Ok(MergedReading())
    ensures var cfg, s := Tiny(2, 4, 4), Created(map[]);
            && cfg.Valid() && GoodDigest(cfg)
            && PossibleRun(cfg, s, MergedSteps()) && AllSucceed(cfg, s, MergedSteps())
            && var s3 := RunAll(cfg, s, MergedSteps());
            && s3.journal == MergedLog()
            && IsOrder([0, 1], MergedReading())
            && var s4, step := Reopened(cfg, s3.(journal := MergedReading()), [0, 1]), Loses({1}, true, [0, 1]);
            && Possible(cfg, s4, step)
            && Read(cfg, Runs.After(cfg, s4, step), 2, 2).result == Ok([0, 0])
  {
    hide PossibleRun, AllSucceed, RunAll, Read, At, MergedSteps, GoodDigest, MergedReading, MergedText, MergedLog, Tame,
         Possible, Runs.After, Reopened, IsOrder, Lists, ReadText, TextOf;
    var cfg, s := Tiny(2, 4, 4), Created(map[]);
    TinyGood(2, 4, 4);
    MergedReads();
    MergedPlays(cfg, s);
    var s3 :| Plays(cfg, s, MergedSteps(), s3) && Tame(cfg, s3, 2) && At(s3, 1, SecondSlot())
        && s3.journal == MergedLog();
    FoundState(cfg, s3, s3.(journal := MergedReading()));
    ReadWrong(cfg, s3.(journal := MergedReading()));
  }
}
