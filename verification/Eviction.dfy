/**
 * `evict_if_needed` evicts exactly as much as it must, in exactly the right order, and never the
 * chunk that was just fetched when the rest of the cache leaves room for it.
 */
module Eviction {
  import opened Wrappers
  import opened Metadata
  import opened Store
  import opened Volume
  import opened Operations
  import opened Safety
  import opened Transparency

  /** Bytes in the first n rows of the list. */
  function Freed(rows: Table, list: seq<nat>, n: nat): nat
    requires n <= |list| && forall c :: c in list ==> c in rows
  {
    if n == 0 then 0 else Freed(rows, list, n - 1) + rows[list[n - 1]].size
  }

  lemma {:induction false} FreedShift(r1: Table, r2: Table, list: seq<nat>, n: nat)
    requires 0 < n <= |list| && (forall c :: c in list ==> c in r1)
    requires forall c :: c in list[1..] ==> c in r2 && r2[c].size == r1[c].size
    ensures Freed(r1, list, n) == r1[list[0]].size + Freed(r2, list[1..], n - 1)
    decreases n
  {
    if n > 1 {
      FreedShift(r1, r2, list, n - 1);
      assert list[n - 1] == list[1..][n - 2] && list[n - 1] in list[1..];
    } else {
      assert Freed(r1, list, 1) == Freed(r1, list, 0) + r1[list[0]].size;
    }
  }

  lemma {:induction false} FreedMonotone(rows: Table, list: seq<nat>, m: nat, n: nat)
    requires m <= n <= |list| && forall c :: c in list ==> c in rows
    ensures Freed(rows, list, m) <= Freed(rows, list, n)
    decreases n
  {
    if m < n {
      FreedMonotone(rows, list, m, n - 1);
    }
  }

  /** All rows of a list without repetition hold the bytes of the set of its rows. */
  lemma {:induction false} FreedIsBytes(rows: Table, list: seq<nat>, ids: set<nat>, n: nat)
    requires n <= |list| && forall c :: c in list ==> c in rows
    requires forall i, j :: 0 <= i < j < |list| ==> list[i] != list[j]
    requires ids == set c | c in list[..n]
    ensures ids <= rows.Keys && Freed(rows, list, n) == Bytes(rows, ids)
    decreases n
  {
    if n > 0 {
      var head := list[..n - 1];
      var rest := set c | c in head;
      FreedIsBytes(rows, list, rest, n - 1);
      assert list[..n] == list[..n - 1] + [list[n - 1]];
      assert ids == rest + {list[n - 1]};
      assert list[n - 1] !in rest;
      BytesRemove(rows, ids, list[n - 1]);
      assert ids - {list[n - 1]} == rest;
    }
  }

  /** n is how many rows of the list have to go to bring `cached` to the low watermark. */
  predicate Suffices(cfg: Config, rows: Table, list: seq<nat>, cached: nat, n: nat)
    requires forall c :: c in list ==> c in rows
  {
    && n <= |list|
    && (n < |list| ==> cached <= cfg.low + Freed(rows, list, n))
    && (forall m :: 0 <= m < n ==> cached > cfg.low + Freed(rows, list, m))
  }

  /** The row was evicted: no file, no bytes, same generation and checksum. */
  ghost predicate IsEvicted(s: State, s': State, c: nat) {
    && c in s.rows && c in s'.rows && c !in s'.files
    && exists t: nat :: s'.rows[c] == EvictedRow(s.rows[c], t)
  }

  predicate IsKept(s: State, s': State, c: nat) {
    RowOf(s', c) == RowOf(s, c) && FileOf(s', c) == FileOf(s, c)
  }

  /** The first n chunks of the list are evicted, and nothing else changes. */
  ghost predicate EvictsPrefix(s: State, s': State, list: seq<nat>, n: nat)
    requires n <= |list|
  {
    && (forall i :: 0 <= i < n ==> IsEvicted(s, s', list[i]))
    && (forall c: nat :: c !in list[..n] ==> IsKept(s, s', c))
  }

  ghost predicate Evictable(s: State, list: seq<nat>) {
    && (forall c :: c in list ==> c in s.rows && s.rows[c].state == Clean && (s.rows[c].hasPath || c !in s.files))
    && (forall i, j :: 0 <= i < j < |list| ==> list[i] != list[j])
  }

  lemma EvictOneStep(s: State, c: nat)
    requires c in s.rows && s.rows[c].state == Clean && (s.rows[c].hasPath || c !in s.files)
    ensures var s1 := Run(s, EvictOne(s, c));
            && s1.rows == s.rows[c := EvictedRow(s.rows[c], s.clock)]
            && c !in s1.files
            && (forall d: nat :: d != c ==> IsKept(s, s1, d))
            && s.rows[c].size <= CachedBytes(s.rows)
            && CachedBytes(s1.rows) == CachedBytes(s.rows) - s.rows[c].size
  {
    hide Bytes, Run;
    var up := Upsert(c, EvictedRow(s.rows[c], s.clock));
    CachedBytesUpsert(s.rows, c, EvictedRow(s.rows[c], s.clock));
    BytesRemove(s.rows, CachedIds(s.rows), c);
    if s.rows[c].hasPath && c in s.files {
      assert EvictOne(s, c) == [RemoveFile(c)] + [up];
      RunConcat(s, [RemoveFile(c)], [up]);
      RunOne(s, RemoveFile(c));
      RunOne(Apply(s, RemoveFile(c)), up);
    } else {
      assert EvictOne(s, c) == [up];
      RunOne(s, up);
    }
  }

  lemma PrefixCons(s: State, s1: State, s': State, list: seq<nat>, n: nat, now: nat)
    requires list != [] && n < |list| && Evictable(s, list)
    requires EvictsPrefix(s1, s', list[1..], n)
    requires s1.rows == s.rows[list[0] := EvictedRow(s.rows[list[0]], now)] && list[0] !in s1.files
    requires forall d: nat :: d != list[0] ==> IsKept(s, s1, d)
    ensures EvictsPrefix(s, s', list, n + 1)
  {
    var c := list[0];
    assert list[..n + 1] == [c] + list[1..][..n];
    assert c !in list[1..];
    assert IsKept(s1, s', c);
    assert RowOf(s', c) == RowOf(s1, c) && FileOf(s', c) == FileOf(s1, c);
    assert IsEvicted(s, s', c);
    forall i | 0 < i < n + 1
      ensures IsEvicted(s, s', list[i])
    {
      var d := list[i];
      assert d == list[1..][i - 1] && IsEvicted(s1, s', d);
      assert d != c && IsKept(s, s1, d);
      assert RowOf(s1, d) == RowOf(s, d);
    }
    forall d: nat | d !in list[..n + 1]
      ensures IsKept(s, s', d)
    {
      assert d != c && d !in list[1..][..n];
      assert IsKept(s1, s', d) && IsKept(s, s1, d);
    }
  }

  lemma EvictableRest(s: State, list: seq<nat>)
    requires list != [] && Evictable(s, list)
    ensures Evictable(Run(s, EvictOne(s, list[0])), list[1..])
    ensures forall c :: c in list[1..] ==>
              c in s.rows && c in Run(s, EvictOne(s, list[0])).rows
              && Run(s, EvictOne(s, list[0])).rows[c] == s.rows[c]
  {
    var s1 := Run(s, EvictOne(s, list[0]));
    EvictOneStep(s, list[0]);
    forall c | c in list[1..]
      ensures c in s.rows && c in s1.rows && s1.rows[c] == s.rows[c] && (c in s1.files <==> c in s.files)
    {
      assert c in list && c != list[0];
      assert IsKept(s, s1, c);
      assert FileOf(s1, c) == FileOf(s, c);
    }
  }

  /** Evicting from the list takes exactly the first n rows, which are exactly as many as needed. */
  ghost predicate ListExact(cfg: Config, s: State, list: seq<nat>, cached: nat, n: nat) {
    && (forall c :: c in list ==> c in s.rows)
    && Suffices(cfg, s.rows, list, cached, n)
    && EvictsPrefix(s, Run(s, EvictList(cfg, s, list, cached)), list, n)
    && Freed(s.rows, list, n) <= cached
    && CachedBytes(Run(s, EvictList(cfg, s, list, cached)).rows) == cached - Freed(s.rows, list, n)
  }

  lemma ListExactCons(cfg: Config, s: State, list: seq<nat>, cached: nat, m: nat)
    requires list != [] && Evictable(s, list) && cached == CachedBytes(s.rows) && cached > cfg.low
    requires s.rows[list[0]].size <= cached
    requires ListExact(cfg, Run(s, EvictOne(s, list[0])), list[1..], cached - s.rows[list[0]].size, m)
    ensures ListExact(cfg, s, list, cached, m + 1)
  {
    hide EvictOne, EvictList, CachedBytes, Run, EvictsPrefix, Freed, IsKept, Bytes;
    EvictOneStep(s, list[0]);
    EvictableRest(s, list);
    EvictListUnfold(cfg, s, list, cached);
    var s1, rest := Run(s, EvictOne(s, list[0])), cached - s.rows[list[0]].size;
    RunConcat(s, EvictOne(s, list[0]), EvictList(cfg, s1, list[1..], rest));
    FreedShift(s.rows, s1.rows, list, m + 1);
    PrefixCons(s, s1, Run(s1, EvictList(cfg, s1, list[1..], rest)), list, m, s.clock);
    SufficesCons(cfg, s.rows, s1.rows, list, cached, m);
  }

  lemma EvictListUnfold(cfg: Config, s: State, list: seq<nat>, cached: nat)
    requires list != [] && (forall c :: c in list ==> c in s.rows) && cached > cfg.low && s.rows[list[0]].size <= cached
    ensures EvictList(cfg, s, list, cached)
         == EvictOne(s, list[0])
             + EvictList(cfg, Run(s, EvictOne(s, list[0])), list[1..], cached - s.rows[list[0]].size)
  {
  }

  /**
   * Eviction from a list removes exactly the shortest prefix that brings the cached bytes down to
   * the low watermark, or all of it; its running counter is exact and never saturates.
   */
  lemma {:induction false} EvictListExact(cfg: Config, s: State, list: seq<nat>, cached: nat) returns (n: nat)
    requires Evictable(s, list) && cached == CachedBytes(s.rows)
    ensures ListExact(cfg, s, list, cached, n)
    decreases list
  {
    hide ListExact, EvictOne, EvictList, Run, CachedBytes, IsKept;
    if list == [] || cached <= cfg.low {
      n := 0;
      NothingEvicted(cfg, s, list, cached);
    } else {
      EvictOneStep(s, list[0]);
      EvictableRest(s, list);
      var m := EvictListExact(cfg, Run(s, EvictOne(s, list[0])), list[1..], cached - s.rows[list[0]].size);
      n := m + 1;
      ListExactCons(cfg, s, list, cached, m);
    }
  }

  lemma NothingEvicted(cfg: Config, s: State, list: seq<nat>, cached: nat)
    requires Evictable(s, list) && cached == CachedBytes(s.rows) && (list == [] || cached <= cfg.low)
    ensures ListExact(cfg, s, list, cached, 0)
  {
    hide CachedBytes;
  }

  lemma SufficesCons(cfg: Config, r: Table, r1: Table, list: seq<nat>, cached: nat, m: nat)
    requires list != [] && (forall c :: c in list ==> c in r) && cached > cfg.low && cached >= r[list[0]].size
    requires forall c :: c in list[1..] ==> c in r1 && r1[c].size == r[c].size
    requires Suffices(cfg, r1, list[1..], cached - r[list[0]].size, m)
    ensures Suffices(cfg, r, list, cached, m + 1)
  {
    if m + 1 < |list| {
      FreedShift(r, r1, list, m + 1);
    }
    forall k | 0 <= k < m + 1
      ensures cached > cfg.low + Freed(r, list, k)
    {
      if k > 0 {
        FreedShift(r, r1, list, k);
      }
    }
  }

  /**
   * `evict_if_needed` is exact. Within the maximum it does nothing. Above it, it evicts the shortest
   * prefix of the clean unpinned rows, least recently used first, that reaches the low watermark,
   * or all of them; so afterwards the cache is within its maximum or holds no evictable row.
   */
  lemma EvictExact(cfg: Config, s: State, v: Cells) returns (n: nat)
    requires Represents(cfg, s, v)
    ensures CachedBytes(s.rows) <= cfg.cacheMax ==> Evict(cfg, s) == []
    ensures CachedBytes(s.rows) > cfg.cacheMax ==> EvictionExact(cfg, s, Run(s, Evict(cfg, s)), n)
  {
    n := 0;
    if CachedBytes(s.rows) > cfg.cacheMax {
      EvictableListing(cfg, s, v);
      n := EvictListExact(cfg, s, EvictableCleanChunks(s.rows), CachedBytes(s.rows));
      assert Evict(cfg, s) == EvictList(cfg, s, EvictableCleanChunks(s.rows), CachedBytes(s.rows));
      hide Represents, EvictList, Run, EvictableCleanChunks, CachedBytes, Freed, EvictableIds;
      ExactIsEnough(cfg, s, n);
    }
  }

  ghost predicate EvictionExact(cfg: Config, s: State, s': State, n: nat) {
    var list := EvictableCleanChunks(s.rows);
    && Suffices(cfg, s.rows, list, CachedBytes(s.rows), n)
    && EvictsPrefix(s, s', list, n)
    && CachedBytes(s'.rows) == CachedBytes(s.rows) - Freed(s.rows, list, n)
    && (CachedBytes(s'.rows) <= cfg.cacheMax || EvictableIds(s'.rows) == {})
  }

  lemma ExactIsEnough(cfg: Config, s: State, n: nat)
    requires cfg.Valid()
    requires ListExact(cfg, s, EvictableCleanChunks(s.rows), CachedBytes(s.rows), n)
    ensures EvictionExact(cfg, s, Run(s, EvictList(cfg, s, EvictableCleanChunks(s.rows), CachedBytes(s.rows))), n)
  {
    var list := EvictableCleanChunks(s.rows);
    if n == |list| {
      AllEvicted(s, Run(s, EvictList(cfg, s, list, CachedBytes(s.rows))), list);
    }
  }

  lemma EvictableListing(cfg: Config, s: State, v: Cells)
    requires Represents(cfg, s, v)
    ensures Evictable(s, EvictableCleanChunks(s.rows))
  {
    forall c | c in EvictableCleanChunks(s.rows)
      ensures c in s.rows && s.rows[c].state == Clean && s.rows[c].hasPath
    {
      assert ChunkSettled(cfg, s, v, c);
    }
  }

  lemma AllEvicted(s: State, s': State, list: seq<nat>)
    requires forall c :: c in list <==> c in EvictableIds(s.rows)
    requires EvictsPrefix(s, s', list, |list|)
    ensures EvictableIds(s'.rows) == {}
  {
    assert list[..|list|] == list;
    forall c | c in s'.rows
      ensures c !in EvictableIds(s'.rows)
    {
      if c in list {
        var i :| 0 <= i < |list| && list[i] == c;
        assert IsEvicted(s, s', list[i]);
      } else {
        assert IsKept(s, s', c);
        assert RowOf(s', c) == RowOf(s, c);
      }
    }
  }

  // ---------------------------------------------------------------- the chunk just fetched

  /** The clock is ahead of every access recorded so far. */
  predicate ClockAhead(s: State) {
    forall c :: c in s.rows ==> s.rows[c].lastAccess < s.clock
  }

  lemma ClockAheadApply(s: State, e: Effect)
    requires ClockAhead(s)
    ensures ClockAhead(Apply(s, e))
  {
  }

  lemma {:induction false} ClockAheadRun(s: State, t: seq<Effect>)
    requires ClockAhead(s)
    ensures ClockAhead(Run(s, t))
    decreases t
  {
    if t != [] {
      ClockAheadApply(s, t[0]);
      ClockAheadRun(Apply(s, t[0]), t[1..]);
    }
  }

  /** Cached bytes are what eviction may touch plus what it may not. */
  lemma CachedIsHeldPlusEvictable(rows: Table)
    ensures CachedBytes(rows) == HeldBytes(rows) + Bytes(rows, EvictableIds(rows))
  {
    var a, b := CachedIds(rows) - EvictableIds(rows), EvictableIds(rows);
    assert a + b == CachedIds(rows);
    BytesSplit(rows, a, b);
  }

  /** How the held bytes change, at most, when one row is replaced. */
  lemma HeldBytesUpsert(rows: Table, c: nat, m: Meta)
    ensures HeldBytes(rows[c := m])
         <= HeldBytes(rows) + (if Cached(m.state) && !(m.state == Clean && m.pins == 0) then m.size else 0)
    ensures c in rows && rows[c].state == Clean && rows[c].pins == 0 && m.state == Missing ==>
              HeldBytes(rows[c := m]) == HeldBytes(rows)
  {
    var after := rows[c := m];
    var h, h' := CachedIds(rows) - EvictableIds(rows), CachedIds(after) - EvictableIds(after);
    var others := h - {c};
    assert h' - {c} == others;
    BytesSame(rows, after, others);
    if c in h {
      BytesRemove(rows, h, c);
    } else {
      assert h == others;
    }
    if c in h' {
      BytesRemove(after, h', c);
    } else {
      assert h' == others;
    }
  }

  lemma LastIsLatest(rows: Table, i: nat)
    requires i < |EvictableCleanChunks(rows)|
    ensures var list := EvictableCleanChunks(rows);
            && list[i] in rows && list[|list| - 1] in rows
            && rows[list[i]].lastAccess <= rows[list[|list| - 1]].lastAccess
  {
    var list := EvictableCleanChunks(rows);
    var last := |list| - 1;
    assert list[i] in list && list[last] in list;
    assert i == last || Before(ACCESS_ORDER, rows, list[i], list[last]);
  }

  /** The row with the latest access is last in the listing. */
  lemma LatestIsLast(rows: Table, c: nat)
    requires c in EvictableIds(rows)
    requires forall d :: d in rows && d != c ==> rows[d].lastAccess < rows[c].lastAccess
    ensures var list := EvictableCleanChunks(rows); |list| > 0 && list[|list| - 1] == c
  {
    var list := EvictableCleanChunks(rows);
    var i :| 0 <= i < |list| && list[i] == c;
    var d := list[|list| - 1];
    assert d in list;
    LastIsLatest(rows, i);
  }

  lemma ListingBytes(rows: Table)
    ensures var list := EvictableCleanChunks(rows);
            (forall c :: c in list ==> c in rows) && Freed(rows, list, |list|) == Bytes(rows, EvictableIds(rows))
  {
    var list := EvictableCleanChunks(rows);
    assert list[..|list|] == list;
    FreedIsBytes(rows, list, EvictableIds(rows), |list|);
  }

  /** The most recently used evictable row is the last to go: it goes exactly if the rest is not enough. */
  lemma LastSurvives(cfg: Config, rows: Table, c: nat, n: nat)
    requires c in EvictableIds(rows)
    requires forall d :: d in rows && d != c ==> rows[d].lastAccess < rows[c].lastAccess
    requires Suffices(cfg, rows, EvictableCleanChunks(rows), CachedBytes(rows), n)
    ensures c in EvictableCleanChunks(rows)[..n] <==> HeldBytes(rows) + rows[c].size > cfg.low
  {
    hide CachedBytes, HeldBytes, Bytes, Freed, EvictableCleanChunks;
    var list := EvictableCleanChunks(rows);
    LatestIsLast(rows, c);
    CachedIsHeldPlusEvictable(rows);
    ListingBytes(rows);
    NotAllNeeded(cfg, rows, list, CachedBytes(rows), n, HeldBytes(rows));
    if n < |list| {
      DistinctListing(rows, n);
    } else {
      assert list[..n][|list| - 1] == c;
    }
  }

  lemma NotAllNeeded(cfg: Config, rows: Table, list: seq<nat>, cached: nat, n: nat, held: nat)
    requires |list| > 0 && forall c :: c in list ==> c in rows
    requires cached == held + Freed(rows, list, |list|)
    requires Suffices(cfg, rows, list, cached, n)
    ensures n < |list| <==> held + rows[list[|list| - 1]].size <= cfg.low
  {
    var last := |list| - 1;
    assert Freed(rows, list, |list|) == Freed(rows, list, last) + rows[list[last]].size;
    if n < |list| {
      FreedMonotone(rows, list, n, last);
    }
  }

  lemma DistinctListing(rows: Table, n: nat)
    requires n < |EvictableCleanChunks(rows)|
    ensures var list := EvictableCleanChunks(rows); list[|list| - 1] !in list[..n]
  {
  }

  /** Eviction keeps the most recently used chunk exactly if it need not run or the rest leaves it room. */
  lemma EvictKeepsLatest(cfg: Config, s: State, c: nat, v: Cells)
    requires Represents(cfg, s, v) && Resident(s, c) && c in EvictableIds(s.rows)
    requires forall d :: d in s.rows && d != c ==> s.rows[d].lastAccess < s.rows[c].lastAccess
    ensures c in Run(s, Evict(cfg, s)).files <==>
              CachedBytes(s.rows) <= cfg.cacheMax || HeldBytes(s.rows) + s.rows[c].size <= cfg.low
    ensures c in Run(s, Evict(cfg, s)).files ==> Resident(Run(s, Evict(cfg, s)), c)
  {
    var s' := Run(s, Evict(cfg, s));
    var n := EvictExact(cfg, s, v);
    if CachedBytes(s.rows) > cfg.cacheMax {
      LastSurvives(cfg, s.rows, c, n);
      hide Represents, Suffices, CachedBytes, HeldBytes, Evict, Run, Freed;
      if c in EvictableCleanChunks(s.rows)[..n] {
        var i :| 0 <= i < n && EvictableCleanChunks(s.rows)[i] == c;
        assert IsEvicted(s, s', c);
      } else {
        assert IsKept(s, s', c);
        assert RowOf(s', c) == RowOf(s, c) && FileOf(s', c) == FileOf(s, c);
      }
    }
  }

  /** Chunk c would survive its own fetch: eviction need not run after it, or leaves it below the watermark. */
  ghost predicate RoomFor(cfg: Config, s: State, c: nat)
    requires Fetch(cfg, s, c).Ok?
  {
    var rows := s.rows[c := FetchedRow(cfg, s, c, Fetch(cfg, s, c).value)];
    CachedBytes(rows) <= cfg.cacheMax || HeldBytes(rows) + cfg.geo.ChunkLen(c) <= cfg.low
  }

  /**
   * Just-fetched survival, exactly: a chunk that has to be fetched still has its file after the
   * eviction that its own fetch triggers if and only if there was room for it.
   */
  lemma FetchedSurvivesExactly(cfg: Config, s: State, c: nat, v: Cells)
    requires Represents(cfg, s, v) && ClockAhead(s) && Ensure(cfg, s, c).Ok? && !Resident(s, c)
    ensures Fetch(cfg, s, c).Ok?
    ensures c in Run(s, Ensure(cfg, s, c).value).files <==> RoomFor(cfg, s, c)
    ensures RoomFor(cfg, s, c) ==> Resident(Run(s, Ensure(cfg, s, c).value), c)
  {
    var data := Fetch(cfg, s, c).value;
    var s1 := Run(s, FetchTrace(cfg, s, c, data));
    FetchTransparent(cfg, s, c, v);
    AfterFetchRows(cfg, s, c, data);
    hide Represents, HeldBytes, Run, Evict, CachedBytes;
    EvictKeepsLatest(cfg, s1, c, v);
    RunConcat(s, FetchTrace(cfg, s, c, data), Evict(cfg, s1));
  }

  /**
   * In particular, if what eviction may not touch leaves room for chunk c below the low watermark, c
   * is still resident after the eviction that its own fetch triggers.
   */
  lemma FetchedSurvives(cfg: Config, s: State, c: nat, v: Cells)
    requires Represents(cfg, s, v) && ClockAhead(s) && Ensure(cfg, s, c).Ok?
    requires HeldBytes(s.rows) + cfg.geo.ChunkLen(c) <= cfg.low
    ensures Resident(Run(s, Ensure(cfg, s, c).value), c)
  {
    hide Represents, HeldBytes, Evict, CachedBytes;
    if !Resident(s, c) {
      HeldBytesUpsert(s.rows, c, FetchedRow(cfg, s, c, Fetch(cfg, s, c).value));
      FetchedSurvivesExactly(cfg, s, c, v);
    }
  }

  lemma AfterFetchRows(cfg: Config, s: State, c: nat, data: seq<byte>)
    ensures var s1 := Run(s, FetchTrace(cfg, s, c, data));
            && s1.rows == s.rows[c := FetchedRow(cfg, s, c, data)]
            && s1.files == s.files[c := data]
  {
    var t := FetchTrace(cfg, s, c, data);
    RunTwo(s, t[0], t[1]);
  }
}
