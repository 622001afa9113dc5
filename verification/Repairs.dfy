/**
 * What recovery and `fsck` do to each row and what `fsck` reports, told on the rows, files and records as
 * they were found.
 */
module Repairs {
  import opened Wrappers
  import opened Metadata
  import opened Wal
  import opened Store
  import opened Operations
  import opened Recovery
  import opened Loops

  // ---------------------------------------------------------------- rows

  /** The row says that there is a file, and there is none. */
  predicate Dangling(s: State, c: nat) {
    && c in s.rows
    && (s.rows[c].state == Clean || s.rows[c].state == Dirty || s.rows[c].state == Uploading
        || s.rows[c].state == Fetching)
    && (!s.rows[c].hasPath || c !in s.files)
  }

  /** What becomes of such a row: the only copy is lost, or it can be fetched again. */
  function AfterLoss(was: ChunkState): ChunkState {
    if was == Dirty || was == Uploading then ChunkState.Error else Missing
  }

  /**
   * The row of a journaled chunk that has a file is made of that file and the journal: its size is the
   * file's, its generation the latest journaled, and it is Clean if that one was uploaded, else Dirty.
   */
  predicate IsRebuilt(cfg: Config, s: State, s': State, c: nat) {
    && c in s.files && LatestLocal(s.journal, c).Some? && c in s'.rows
    && var m, g := s'.rows[c], LatestLocal(s.journal, c).value;
    && m.hasPath && m.size == |s.files[c]| && m.localGen == Some(g) && m.checksum == Some(cfg.digest(s.files[c]))
    && m.pins == 0
    && (if g in Synced(s.journal, c) then m.state == Clean && m.remoteGen == Some(g) && m.dirtySince == None
        else m.state == Dirty && m.remoteGen == None && m.dirtySince.Some?)
    && IsStamped(m, s.clock)
  }

  /** Used, and dirty if it is, since a time that is no earlier than `now`. */
  predicate IsStamped(m: Meta, now: nat) {
    now <= m.lastAccess && (m.dirtySince.Some? ==> m.lastAccess < m.dirtySince.value)
  }

  predicate IsGivenUp(s: State, s': State, c: nat) {
    && c in s.rows && c in s'.rows
    && var m := s.rows[c];
    s'.rows[c] == Meta(false, AfterLoss(m.state), 0, m.remoteGen, m.localGen, m.checksum, m.lastAccess, None, m.pins)
  }

  /** How the row of chunk c was repaired, from s to s'. */
  predicate IsRepaired(cfg: Config, s: State, s': State, c: nat) {
    && FileOf(s', c) == FileOf(s, c)
    && if c in s.files && LatestLocal(s.journal, c).Some? then IsRebuilt(cfg, s, s', c)
       else if Dangling(s, c) then IsGivenUp(s, s', c)
       else RowOf(s', c) == RowOf(s, c)
  }

  ghost predicate AllRepaired(cfg: Config, s: State, s': State) { forall c: nat :: IsRepaired(cfg, s, s', c) }

  /** The row of every journaled chunk with a file has that file's size. */
  ghost predicate SizesRepaired(s: State, s': State) {
    forall c :: c in s'.files && LatestLocal(s.journal, c).Some? ==> c in s'.rows && s'.rows[c].size == |s'.files[c]|
  }

  lemma RepairedSizes(cfg: Config, s: State, s': State)
    requires AllRepaired(cfg, s, s')
    ensures SizesRepaired(s, s')
  {
    hide LatestLocal, Synced, Dangling;
    forall c | c in s'.files && LatestLocal(s.journal, c).Some?
      ensures c in s'.rows && s'.rows[c].size == |s'.files[c]|
    {
      assert IsRepaired(cfg, s, s', c);
      assert FileOf(s', c) == FileOf(s, c);
    }
  }

  /** Unless it is rebuilt, a row keeps its time stamps too. */
  lemma {:induction false} ValidateRowOf(s: State, list: seq<nat>, d: nat)
    requires forall c :: c in list ==> c in s.rows
    ensures RowOf(Run(s, ValidateList(s, list)), d)
         == if d in list && Dangling(s, d) then Some(LostRow(s.rows[d])) else RowOf(s, d)
    ensures Run(s, ValidateList(s, list)).files == s.files && Run(s, ValidateList(s, list)).journal == s.journal
    decreases list
  {
    if list == [] {
      RunNothing(s);
    } else {
      var c, one := list[0], ValidateOne(s, list[0]);
      var s1 := Run(s, one);
      ValidatedRow(s, c);
      ValidateRowOf(s1, list[1..], d);
      RunConcat(s, one, ValidateList(s1, list[1..]));
      assert d in list <==> d == c || d in list[1..];
      if d in s.rows && d in s1.rows {
        assert RowOf(s1, d) == RowOf(s, d) ==> s1.rows[d] == s.rows[d];
      }
    }
  }

  lemma ValidatedRow(s: State, c: nat)
    requires c in s.rows
    ensures var s1 := Run(s, ValidateOne(s, c));
            && s1.files == s.files && s1.journal == s.journal && s1.rows.Keys == s.rows.Keys
            && s1.rows[c] == (if Dangling(s, c) then LostRow(s.rows[c]) else s.rows[c])
            && !Dangling(s1, c)
            && forall d: nat :: d != c ==> RowOf(s1, d) == RowOf(s, d)
  {
    RunNothing(s);
    if Lost(s, c) {
      RunOne(s, Upsert(c, LostRow(s.rows[c])));
    }
  }

  lemma {:induction false} RebuildRowOf(cfg: Config, s: State, order: seq<nat>, d: nat)
    requires d !in order || d !in s.files || LatestLocal(s.journal, d).None?
    ensures RowOf(Run(s, RebuildList(cfg, s, order)), d) == RowOf(s, d)
    decreases order
  {
    hide LatestLocal, Synced;
    RunNothing(s);
    if order != [] {
      var one := RebuildOne(cfg, s, order[0]);
      var s1 := Run(s, one);
      RebuiltOnly(cfg, s, order[0]);
      RebuildRowOf(cfg, s1, order[1..], d);
      RunConcat(s, one, RebuildList(cfg, s1, order[1..]));
    }
  }

  lemma RebuiltOnly(cfg: Config, s: State, c: nat)
    ensures var s1 := Run(s, RebuildOne(cfg, s, c));
            && s1.files == s.files && s1.journal == s.journal
            && forall d: nat :: d != c || c !in s.files || LatestLocal(s.journal, c).None? ==>
                 RowOf(s1, d) == RowOf(s, d)
  {
    hide LatestLocal, Synced;
    RunNothing(s);
    var one := RebuildOne(cfg, s, c);
    if one != [] {
      RunOne(s, one[0]);
    }
  }

  /** A row that is rebuilt is stamped with the time of that. */
  lemma {:induction false} RebuildStamps(cfg: Config, s: State, order: seq<nat>, d: nat)
    requires d in order && d in s.files && LatestLocal(s.journal, d).Some?
    ensures var s' := Run(s, RebuildList(cfg, s, order)); d in s'.rows && IsStamped(s'.rows[d], s.clock)
    decreases order
  {
    hide LatestLocal, Synced, Run;
    var c, one := order[0], RebuildOne(cfg, s, order[0]);
    var s1 := Run(s, one);
    RebuiltOnly(cfg, s, c);
    RunConcat(s, one, RebuildList(cfg, s1, order[1..]));
    assert s.clock <= s1.clock;
    if d in order[1..] {
      RebuildStamps(cfg, s1, order[1..], d);
    } else {
      assert d == c;
      RunOne(s, one[0]);
      RebuildRowOf(cfg, s1, order[1..], d);
      assert RowOf(Run(s1, RebuildList(cfg, s1, order[1..])), d) == RowOf(s1, d);
    }
  }

  lemma RebuiltLiterally(cfg: Config, s: State, s': State, c: nat)
    requires ChunkRecovered(cfg, s, s', c) && c in s.files && LatestLocal(s.journal, c).Some?
    requires c in s'.rows && IsStamped(s'.rows[c], s.clock)
    ensures IsRebuilt(cfg, s, s', c)
  {
    hide LatestLocal, Synced;
    LookRow(s', c);
    var m := RebuiltRow(cfg, s.files[c], Summarize(s.journal, c), 0);
    assert Timeless(RowOf(s', c)) == Timeless(Some(m));
    var a, b := Timeless(RowOf(s', c)).value, Timeless(Some(m)).value;
    assert a.hasPath == b.hasPath && a.state == b.state && a.size == b.size && a.remoteGen == b.remoteGen
        && a.localGen == b.localGen && a.checksum == b.checksum && a.dirtySince == b.dirtySince && a.pins == b.pins;
  }

  lemma RecoveredFile(cfg: Config, s: State, s': State, c: nat)
    requires ChunkRecovered(cfg, s, s', c)
    ensures FileOf(s', c) == FileOf(s, c)
  {
    hide LatestLocal, Synced, RecoveredRow;
    var x, y := Look(s', c).(row := None), Look(s, c).(row := None);
    assert x.file == y.file;
  }

  /** `recover` repairs every row. */
  lemma RecoverRepairs(cfg: Config, s: State, order: seq<nat>)
    requires IsOrder(order, s.journal)
    ensures AllRepaired(cfg, s, Run(s, Recover(cfg, s, order)))
  {
    hide LatestLocal, Synced, Run, ChunkRecovered, IsRebuilt, RebuildList, ValidateList, AllChunks;
    var s' := Run(s, Recover(cfg, s, order));
    RecoverIsRecovered(cfg, s, order);
    AllChunksAscend(s.rows);
    forall c: nat
      ensures IsRepaired(cfg, s, s', c)
    {
      assert ChunkRecovered(cfg, s, s', c);
      RecoveredFile(cfg, s, s', c);
      var s1 := Run(s, Validate(s));
      ValidateRowOf(s, AllChunks(s.rows), c);
      RunConcat(s, Validate(s), RebuildList(cfg, s1, order));
      if c in s.files && LatestLocal(s.journal, c).Some? {
        LatestLocalIsMax(s.journal, c);
        RebuildStamps(cfg, s1, order, c);
        StampedLater(s'.rows[c], s.clock, s1.clock);
        RebuiltLiterally(cfg, s, s', c);
      } else {
        RebuildRowOf(cfg, s1, order, c);
        RepairedRow(cfg, s, s', c);
      }
    }
  }

  lemma StampedLater(m: Meta, now: nat, later: nat)
    requires now <= later && IsStamped(m, later)
    ensures IsStamped(m, now)
  {
  }

  lemma RepairedRow(cfg: Config, s: State, s': State, c: nat)
    requires FileOf(s', c) == FileOf(s, c) && (c !in s.files || LatestLocal(s.journal, c).None?)
    requires RowOf(s', c) == if c in AllChunks(s.rows) && Dangling(s, c) then Some(LostRow(s.rows[c])) else RowOf(s, c)
    ensures IsRepaired(cfg, s, s', c)
  {
    hide LatestLocal, Synced;
  }

  lemma RepairedTwice(cfg: Config, s: State, s1: State, s': State, c: nat)
    requires s1.files == s.files && s1.journal == s.journal && s.clock <= s1.clock
    requires RowOf(s1, c) == if Dangling(s, c) then Some(LostRow(s.rows[c])) else RowOf(s, c)
    requires IsRepaired(cfg, s1, s', c)
    ensures IsRepaired(cfg, s, s', c)
  {
    hide LatestLocal, Synced;
  }

  /** And so does `fsck`, which looks for lost files twice. */
  lemma FsckRepairs(cfg: Config, s: State, order: seq<nat>)
    requires IsOrder(order, s.journal)
    ensures AllRepaired(cfg, s, Run(s, Fsck(cfg, s, order)))
  {
    hide LatestLocal, Synced, Run, IsRepaired, Recover, ValidateList, AllChunks, Dangling;
    var s1 := Run(s, Validate(s));
    AllChunksAscend(s.rows);
    ValidateRowOf(s, AllChunks(s.rows), 0);
    RecoverRepairs(cfg, s1, order);
    RunConcat(s, Validate(s), Recover(cfg, s1, order));
    forall c: nat
      ensures IsRepaired(cfg, s, Run(s1, Recover(cfg, s1, order)), c)
    {
      ValidateRowOf(s, AllChunks(s.rows), c);
      EveryChunk(s, c);
      RepairedTwice(cfg, s, s1, Run(s1, Recover(cfg, s1, order)), c);
    }
  }

  lemma EveryChunk(s: State, c: nat)
    ensures Dangling(s, c) ==> c in AllChunks(s.rows)
  {
  }

  lemma OpenRepairs(cfg: Config, s: State, order: seq<nat>)
    requires IsOrder(order, s.journal)
    ensures AllRepaired(cfg, s, Reopened(cfg, s, order))
  {
    hide LatestLocal, Synced, Run, Recover;
    RecoverRepairs(cfg, Loaded(s), order);
    forall c: nat
      ensures IsRepaired(cfg, s, Reopened(cfg, s, order), c)
    {
      assert IsRepaired(cfg, Loaded(s), Reopened(cfg, s, order), c);
    }
  }

  lemma SummaryIs(journal: seq<Event>, c: nat, generation: nat, committed: bool)
    requires Summarize(journal, c) == Summary(Some(generation), committed)
    ensures LatestLocal(journal, c) == Some(generation) && (generation in Synced(journal, c) <==> committed)
  {
  }

  // ---------------------------------------------------------------- findings

  /** The findings are exactly one for each dangling row, by chunk id, with its old state and its new one. */
  ghost predicate Reports(s: State, found: seq<Finding>) {
    && (forall f :: f in found <==> Dangling(s, f.c) && f.was == s.rows[f.c].state && f.becomes == AfterLoss(f.was))
    && (forall i, j :: 0 <= i < j < |found| ==> found[i].c < found[j].c)
  }

  predicate Ascending(list: seq<nat>) { forall i, j :: 0 <= i < j < |list| ==> list[i] < list[j] }

  /** The findings of the rows of a list. */
  ghost predicate ReportsOf(s: State, list: seq<nat>, found: seq<Finding>) {
    && (forall f :: f in found <==>
          f.c in list && Dangling(s, f.c) && f.was == s.rows[f.c].state && f.becomes == AfterLoss(f.was))
    && (forall i, j :: 0 <= i < j < |found| ==> found[i].c < found[j].c)
  }

  lemma DanglingElsewhere(s: State, s1: State, c: nat)
    requires s1.files == s.files && forall d: nat :: d != c ==> RowOf(s1, d) == RowOf(s, d)
    ensures forall d: nat :: d != c ==> (Dangling(s1, d) <==> Dangling(s, d))
    ensures forall d: nat :: d != c && d in s.rows ==> d in s1.rows && s1.rows[d] == s.rows[d]
  {
    forall d: nat | d != c
      ensures Dangling(s1, d) <==> Dangling(s, d)
      ensures d in s.rows ==> d in s1.rows && s1.rows[d] == s.rows[d]
    {
      assert RowOf(s1, d) == RowOf(s, d);
    }
  }

  lemma FindingOfIs(s: State, c: nat)
    requires c in s.rows
    ensures FindingOf(s, c)
         == if Dangling(s, c) then [Finding(c, s.rows[c].state, AfterLoss(s.rows[c].state))] else []
    ensures forall d: nat :: Dangling(s, d) ==> d in s.rows
  {
  }

  lemma ReportsMore(s: State, s1: State, list: seq<nat>, found: seq<Finding>)
    requires list != [] && Ascending(list) && list[0] in s.rows
    requires s1.files == s.files && forall d: nat :: d != list[0] ==> RowOf(s1, d) == RowOf(s, d)
    requires ReportsOf(s1, list[1..], found)
    ensures ReportsOf(s, list, FindingOf(s, list[0]) + found)
  {
    hide FindingOf, Dangling, AfterLoss;
    var c, all := list[0], FindingOf(s, list[0]) + found;
    assert forall d :: d in list[1..] ==> c < d;
    DanglingElsewhere(s, s1, c);
    FindingOfIs(s, c);
    forall f: Finding
      ensures f in all <==>
                f.c in list && Dangling(s, f.c) && f.was == s.rows[f.c].state && f.becomes == AfterLoss(f.was)
    {
      assert f in all <==> f in FindingOf(s, c) || f in found;
      assert f.c in list <==> f.c == c || f.c in list[1..];
    }
    OrderedMore(c, FindingOf(s, c), found);
  }

  lemma OrderedMore(c: nat, first: seq<Finding>, found: seq<Finding>)
    requires |first| <= 1 && (forall f :: f in first ==> f.c == c) && forall f :: f in found ==> c < f.c
    requires forall i, j :: 0 <= i < j < |found| ==> found[i].c < found[j].c
    ensures forall i, j :: 0 <= i < j < |first + found| ==> (first + found)[i].c < (first + found)[j].c
  {
    assert forall i :: 0 <= i < |found| ==> found[i] in found;
  }

  lemma {:induction false} FindingsReport(s: State, list: seq<nat>)
    requires (forall c :: c in list ==> c in s.rows) && Ascending(list)
    ensures ReportsOf(s, list, FindingsOf(s, list))
    decreases list
  {
    hide FindingOf, ValidateOne, Run, ReportsOf, Dangling;
    if list == [] {
      NothingReported(s);
    } else {
      var s1 := Run(s, ValidateOne(s, list[0]));
      ValidatedRow(s, list[0]);
      FindingsReport(s1, list[1..]);
      ReportsMore(s, s1, list, FindingsOf(s1, list[1..]));
    }
  }

  lemma NothingReported(s: State)
    ensures FindingsOf(s, []) == [] && ReportsOf(s, [], [])
  {
  }

  lemma AllChunksAscend(rows: Table)
    ensures Ascending(AllChunks(rows)) && forall c :: c in AllChunks(rows) <==> c in rows
  {
    var list := AllChunks(rows);
    forall i, j | 0 <= i < j < |list|
      ensures list[i] < list[j]
    {
      assert list[i] in list && list[j] in list;
      assert Before(ID_ORDER, rows, list[i], list[j]);
    }
  }

  /**
   * What `fsck` reports, exactly: a chunk is in it if and only if its row was in a state that has a file and
   * its path or its file was not there; with that state, and Error if it had the only copy, else Missing;
   * each chunk once, in the order of the chunks.
   */
  lemma FindingsExactly(s: State)
    ensures Reports(s, FindingsOf(s, AllChunks(s.rows)))
  {
    hide FindingsOf, AllChunks, Dangling, AfterLoss;
    AllChunksAscend(s.rows);
    FindingsReport(s, AllChunks(s.rows));
    DanglingHasRow(s);
  }

  lemma DanglingHasRow(s: State)
    ensures forall c: nat :: Dangling(s, c) ==> c in s.rows
  {
  }
}
