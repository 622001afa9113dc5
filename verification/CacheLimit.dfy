/**
 * The cache limit, told on the rows themselves: what eviction takes and what it leaves, and that every
 * operation that adds to the cache, or makes more of it evictable, leaves it within its limit.
 */
module CacheLimit {
  import opened Wrappers
  import opened Metadata
  import opened Store
  import opened Operations
  import opened Loops

  /** The cache is within its maximum, or holds no Clean unpinned row that could go. */
  ghost predicate WithinLimit(cfg: Config, rows: Table) {
    CachedBytes(rows) <= cfg.cacheMax || forall c :: c in rows ==> !MayGo(rows[c])
  }

  predicate MayGo(m: Meta) { m.state == Clean && m.pins == 0 }

  /** Chunk d was evicted: its row keeps its generations, its checksum and its pins, and its file is gone. */
  predicate WasEvicted(s: State, s': State, d: nat) {
    && d in s.rows && MayGo(s.rows[d]) && d in s'.rows
    && s'.rows[d] == Meta(false, Missing, 0, s.rows[d].remoteGen, s.rows[d].localGen, s.rows[d].checksum,
                          s'.rows[d].lastAccess, None, 0)
    && s.clock <= s'.rows[d].lastAccess
    && FileOf(s', d) == if s.rows[d].hasPath then None else FileOf(s, d)
  }

  predicate WasKept(s: State, s': State, d: nat) {
    RowOf(s', d) == RowOf(s, d) && FileOf(s', d) == FileOf(s, d)
  }

  /** Nothing but rows and files changed. */
  predicate CacheOnly(s: State, s': State) {
    s'.cloud == s.cloud && s'.journal == s.journal && s'.nextTxid == s.nextTxid && s'.down == s.down
  }

  // ---------------------------------------------------------------- the eviction loop

  ghost predicate CanGo(s: State, list: seq<nat>) {
    && (forall c :: c in list ==> c in s.rows && MayGo(s.rows[c]))
    && (forall i, j :: 0 <= i < j < |list| ==> list[i] != list[j])
  }

  lemma EvictOneGoes(s: State, c: nat)
    requires c in s.rows && MayGo(s.rows[c])
    ensures var s1 := Run(s, EvictOne(s, c));
            && WasEvicted(s, s1, c) && CacheOnly(s, s1) && s.clock <= s1.clock
            && (forall d: nat :: d != c ==> WasKept(s, s1, d))
            && s.rows[c].size <= CachedBytes(s.rows)
            && CachedBytes(s1.rows) == CachedBytes(s.rows) - s.rows[c].size
  {
    hide Bytes, Run;
    var up := Upsert(c, EvictedRow(s.rows[c], s.clock));
    CachedBytesUpsert(s.rows, c, EvictedRow(s.rows[c], s.clock));
    BytesRemove(s.rows, CachedIds(s.rows), c);
    if s.rows[c].hasPath && c in s.files {
      assert EvictOne(s, c) == [RemoveFile(c), up];
      RunTwo(s, RemoveFile(c), up);
    } else {
      assert EvictOne(s, c) == [up];
      RunOne(s, up);
    }
  }

  /**
   * The loop takes the first n of the list, all of them unless it reaches the low watermark first, and
   * takes none that it need not.
   */
  ghost predicate TakesFirst(cfg: Config, s: State, list: seq<nat>, t: seq<Effect>, n: nat) {
    var s' := Run(s, t);
    && n <= |list| && (forall c :: c in list ==> c in s.rows)
    && (forall i :: 0 <= i < n ==> WasEvicted(s, s', list[i]))
    && (forall d: nat :: d !in list[..n] ==> WasKept(s, s', d))
    && CacheOnly(s, s')
    && (n == 0 ==> t == []) && Upserts(t) == n
    && (n < |list| ==> CachedBytes(s'.rows) <= cfg.low)
    && (n > 0 ==> CachedBytes(s'.rows) + s.rows[list[n - 1]].size > cfg.low)
  }

  lemma TakesNone(cfg: Config, s: State, list: seq<nat>, cached: nat)
    requires CanGo(s, list) && cached == CachedBytes(s.rows) && (list == [] || cached <= cfg.low)
    ensures EvictList(cfg, s, list, cached) == [] && TakesFirst(cfg, s, list, [], 0)
  {
    hide CachedBytes;
    RunNothing(s);
  }

  lemma TakesMore(cfg: Config, s: State, list: seq<nat>, t: seq<Effect>, n: nat)
    requires list != [] && CanGo(s, list) && CachedBytes(s.rows) > cfg.low
    requires TakesFirst(cfg, Run(s, EvictOne(s, list[0])), list[1..], t, n)
    ensures TakesFirst(cfg, s, list, EvictOne(s, list[0]) + t, n + 1)
  {
    hide EvictOne, Run, CachedBytes, Bytes, Upserts;
    var c, s1 := list[0], Run(s, EvictOne(s, list[0]));
    EvictOneGoes(s, c);
    UpsertsConcat(EvictOne(s, c), t);
    UpsertsOfEvictOne(s, [], c);
    assert [] + EvictOne(s, c) == EvictOne(s, c) && Upserts([]) == 0;
    RunConcat(s, EvictOne(s, c), t);
    var s' := Run(s1, t);
    assert list[..n + 1] == [c] + list[1..][..n];
    assert c !in list[1..][..n];
    assert WasKept(s1, s', c);
    KeptAfter(s, s1, s', c);
    forall i | 0 <= i < n + 1
      ensures WasEvicted(s, s', list[i])
    {
      if i > 0 {
        assert list[i] == list[1..][i - 1] && WasKept(s, s1, list[i]) && WasEvicted(s1, s', list[1..][i - 1]);
        KeptBefore(s, s1, s', list[i]);
      }
    }
    forall d: nat | d !in list[..n + 1]
      ensures WasKept(s, s', d)
    {
      assert d != c && d !in list[1..][..n];
      assert WasKept(s, s1, d) && WasKept(s1, s', d);
    }
    if n == 0 {
      RunNothing(s1);
    } else {
      assert list[n] == list[1..][n - 1] && WasKept(s, s1, list[n]);
      SameRow(s, s1, list[n]);
    }
  }

  lemma {:induction false} UpsertsConcat(a: seq<Effect>, b: seq<Effect>)
    ensures Upserts(a + b) == Upserts(a) + Upserts(b) && Upserts([]) == 0
    decreases b
  {
    if b == [] {
      assert a + b == a;
    } else {
      var n := |b| - 1;
      UpsertsConcat(a, b[..n]);
      assert (a + b)[..|a + b| - 1] == a + b[..n] && (a + b)[|a + b| - 1] == b[n];
    }
  }

  lemma SameRow(s: State, s1: State, d: nat)
    requires WasKept(s, s1, d)
    ensures d in s.rows <==> d in s1.rows
    ensures d in s.rows ==> s1.rows[d] == s.rows[d]
    ensures d in s.files <==> d in s1.files
    ensures d in s.files ==> s1.files[d] == s.files[d]
  {
    assert RowOf(s1, d) == RowOf(s, d) && FileOf(s1, d) == FileOf(s, d);
  }

  lemma KeptAfter(s: State, s1: State, s': State, c: nat)
    requires WasEvicted(s, s1, c) && WasKept(s1, s', c)
    ensures WasEvicted(s, s', c)
  {
    SameRow(s1, s', c);
  }

  lemma KeptBefore(s: State, s1: State, s': State, c: nat)
    requires WasKept(s, s1, c) && WasEvicted(s1, s', c) && s.clock <= s1.clock
    ensures WasEvicted(s, s', c)
  {
    SameRow(s, s1, c);
  }

  lemma CanGoOn(s: State, list: seq<nat>)
    requires list != [] && CanGo(s, list)
    ensures CanGo(Run(s, EvictOne(s, list[0])), list[1..])
  {
    hide EvictOne, Run, CachedBytes;
    var s1 := Run(s, EvictOne(s, list[0]));
    EvictOneGoes(s, list[0]);
    forall c | c in list[1..]
      ensures c in s1.rows && MayGo(s1.rows[c])
    {
      assert c in list && c != list[0] && WasKept(s, s1, c);
      SameRow(s, s1, c);
    }
  }

  lemma EvictListNext(cfg: Config, s: State, list: seq<nat>, cached: nat)
    requires list != [] && (forall c :: c in list ==> c in s.rows) && cached > cfg.low && s.rows[list[0]].size <= cached
    ensures EvictList(cfg, s, list, cached)
         == EvictOne(s, list[0])
             + EvictList(cfg, Run(s, EvictOne(s, list[0])), list[1..], cached - s.rows[list[0]].size)
  {
  }

  lemma {:induction false} EvictListTakes(cfg: Config, s: State, list: seq<nat>, cached: nat) returns (n: nat)
    requires CanGo(s, list) && cached == CachedBytes(s.rows)
    ensures TakesFirst(cfg, s, list, EvictList(cfg, s, list, cached), n)
    decreases list
  {
    hide TakesFirst, EvictOne, EvictList, Run, CachedBytes;
    if list == [] || cached <= cfg.low {
      n := 0;
      TakesNone(cfg, s, list, cached);
    } else {
      var s1 := Run(s, EvictOne(s, list[0]));
      EvictOneGoes(s, list[0]);
      CanGoOn(s, list);
      EvictListNext(cfg, s, list, cached);
      n := EvictListTakes(cfg, s1, list[1..], cached - s.rows[list[0]].size);
      TakesMore(cfg, s, list, EvictList(cfg, s1, list[1..], cached - s.rows[list[0]].size), n);
      n := n + 1;
    }
  }

  // ---------------------------------------------------------------- evict_if_needed

  /** The chunks that went: Clean before, Missing now. */
  function Gone(s: State, s': State): set<nat> {
    set c | c in s.rows && c in s'.rows && s.rows[c].state == Clean && s'.rows[c].state == Missing
  }

  /** Least recently used first, and then by chunk id. */
  predicate UsedBefore(rows: Table, c: nat, d: nat)
    requires c in rows && d in rows
  {
    rows[c].lastAccess < rows[d].lastAccess || (rows[c].lastAccess == rows[d].lastAccess && c < d)
  }

  /** What eviction did from s to s'. */
  ghost predicate EvictedExactly(cfg: Config, s: State, s': State) {
    && WithinLimit(cfg, s'.rows) && CacheOnly(s, s')
    && (CachedBytes(s.rows) <= cfg.cacheMax ==> s' == s)
    && (forall d: nat :: if d in Gone(s, s') then WasEvicted(s, s', d) else WasKept(s, s', d))
    && (forall c, d :: c in Gone(s, s') && d in s.rows && MayGo(s.rows[d]) && d !in Gone(s, s') ==>
          UsedBefore(s.rows, c, d))
    && (CachedBytes(s.rows) > cfg.cacheMax ==>
          CachedBytes(s'.rows) <= cfg.low || forall d :: d in s.rows && MayGo(s.rows[d]) ==> d in Gone(s, s'))
    && (forall c :: c in Gone(s, s') && (forall d :: d in Gone(s, s') ==> d == c || UsedBefore(s.rows, d, c)) ==>
          CachedBytes(s'.rows) + s.rows[c].size > cfg.low)
  }

  lemma GoneIsPrefix(cfg: Config, s: State, list: seq<nat>, t: seq<Effect>, n: nat, d: nat)
    requires CanGo(s, list) && TakesFirst(cfg, s, list, t, n)
    ensures d in Gone(s, Run(s, t)) <==> d in list[..n]
    ensures if d in Gone(s, Run(s, t)) then WasEvicted(s, Run(s, t), d) else WasKept(s, Run(s, t), d)
  {
    hide Run, CachedBytes, Upserts;
    if d in list[..n] {
      var i :| 0 <= i < n && list[i] == d;
      assert WasEvicted(s, Run(s, t), list[i]);
    } else {
      assert WasKept(s, Run(s, t), d);
      SameRow(s, Run(s, t), d);
    }
  }

  function Members(list: seq<nat>): set<nat> { set c | c in list }

  lemma {:induction false} SizeOfPrefix(list: seq<nat>, n: nat)
    requires n <= |list| && forall i, j :: 0 <= i < j < |list| ==> list[i] != list[j]
    ensures |Members(list[..n])| == n
  {
    if n == 0 {
      assert Members(list[..0]) == {};
    } else {
      SizeOfPrefix(list, n - 1);
      assert list[..n] == list[..n - 1] + [list[n - 1]];
      assert Members(list[..n]) == Members(list[..n - 1]) + {list[n - 1]};
      assert list[n - 1] !in list[..n - 1];
    }
  }

  lemma CanGoListing(s: State)
    ensures var list := EvictableCleanChunks(s.rows);
            && CanGo(s, list)
            && (forall c :: c in list <==> c in s.rows && MayGo(s.rows[c]))
            && (forall i, j :: 0 <= i < j < |list| ==> UsedBefore(s.rows, list[i], list[j]))
  {
    var list := EvictableCleanChunks(s.rows);
    forall i, j | 0 <= i < j < |list|
      ensures list[i] in s.rows && list[j] in s.rows && UsedBefore(s.rows, list[i], list[j])
    {
      assert list[i] in list && list[j] in list;
      assert Before(ACCESS_ORDER, s.rows, list[i], list[j]);
    }
  }

  /** The listing, its first n in the set `gone`. */
  ghost predicate GoesFirst(rows: Table, list: seq<nat>, n: nat, gone: set<nat>) {
    && n <= |list| && gone == Members(list[..n])
    && (forall c :: c in list <==> c in rows && MayGo(rows[c]))
    && (forall i, j :: 0 <= i < j < |list| ==> list[i] in rows && list[j] in rows && UsedBefore(rows, list[i], list[j]))
  }

  lemma FirstAreOlder(rows: Table, list: seq<nat>, n: nat, gone: set<nat>, c: nat, d: nat)
    requires GoesFirst(rows, list, n, gone) && c in gone && d in rows && MayGo(rows[d]) && d !in gone
    ensures c in rows && UsedBefore(rows, c, d)
  {
    var i :| 0 <= i < n && list[i] == c;
    var j :| 0 <= j < |list| && list[j] == d;
    assert forall k :: 0 <= k < n ==> list[k] in list[..n];
  }

  lemma LastOfFirst(rows: Table, list: seq<nat>, n: nat, gone: set<nat>, c: nat)
    requires GoesFirst(rows, list, n, gone) && c in gone && gone <= rows.Keys
    requires forall d :: d in gone ==> d == c || UsedBefore(rows, d, c)
    ensures n > 0 && c == list[n - 1]
  {
    var i :| 0 <= i < n && list[i] == c;
    assert list[..n][n - 1] == list[n - 1] && list[n - 1] in gone;
  }

  lemma NoneLeft(s: State, s': State, list: seq<nat>)
    requires forall c :: c in list <==> c in s.rows && MayGo(s.rows[c])
    requires forall d: nat :: if d in list then WasEvicted(s, s', d) else WasKept(s, s', d)
    ensures forall c :: c in s'.rows ==> !MayGo(s'.rows[c])
  {
    forall c | c in s'.rows
      ensures !MayGo(s'.rows[c])
    {
      if c in list {
        assert WasEvicted(s, s', c);
      } else {
        assert WasKept(s, s', c);
        SameRow(s, s', c);
      }
    }
  }

  lemma GoneIs(cfg: Config, s: State, list: seq<nat>, t: seq<Effect>, n: nat)
    requires CanGo(s, list) && TakesFirst(cfg, s, list, t, n)
    ensures Gone(s, Run(s, t)) == Members(list[..n])
    ensures forall d: nat :: if d in Gone(s, Run(s, t)) then WasEvicted(s, Run(s, t), d) else WasKept(s, Run(s, t), d)
  {
    hide Run, CachedBytes, Upserts, WasEvicted, WasKept, Gone;
    forall d: nat
      ensures d in Gone(s, Run(s, t)) <==> d in list[..n]
      ensures if d in Gone(s, Run(s, t)) then WasEvicted(s, Run(s, t), d) else WasKept(s, Run(s, t), d)
    {
      GoneIsPrefix(cfg, s, list, t, n, d);
    }
  }

  lemma TakenExactly(cfg: Config, s: State, list: seq<nat>, t: seq<Effect>, n: nat)
    requires cfg.Valid() && CanGo(s, list) && TakesFirst(cfg, s, list, t, n) && CachedBytes(s.rows) > cfg.cacheMax
    requires GoesFirst(s.rows, list, n, Members(list[..n]))
    ensures EvictedExactly(cfg, s, Run(s, t)) && Upserts(t) == |Gone(s, Run(s, t))|
  {
    hide Run, CachedBytes, Upserts, WasEvicted, WasKept, GoesFirst, Gone, MayGo, UsedBefore, TakesFirst, CanGo;
    var s' := Run(s, t);
    GoneIs(cfg, s, list, t, n);
    TakesSome(cfg, s, list, t, n);
    CanGoDistinct(s, list);
    SizeOfPrefix(list, n);
    Goners(s, s');
    forall c, d | c in Gone(s, s') && d in s.rows && MayGo(s.rows[d]) && d !in Gone(s, s')
      ensures UsedBefore(s.rows, c, d)
    {
      FirstAreOlder(s.rows, list, n, Gone(s, s'), c, d);
    }
    forall c | c in Gone(s, s') && (forall d :: d in Gone(s, s') ==> d == c || UsedBefore(s.rows, d, c))
      ensures CachedBytes(s'.rows) + s.rows[c].size > cfg.low
    {
      LastOfFirst(s.rows, list, n, Gone(s, s'), c);
    }
    if n == |list| {
      AllListed(s.rows, list, n, Gone(s, s'));
      NoneLeft(s, s', list);
    }
  }

  lemma TakesSome(cfg: Config, s: State, list: seq<nat>, t: seq<Effect>, n: nat)
    requires TakesFirst(cfg, s, list, t, n)
    ensures n <= |list| && Upserts(t) == n && CacheOnly(s, Run(s, t))
    ensures n < |list| ==> CachedBytes(Run(s, t).rows) <= cfg.low
    ensures n > 0 ==>
              list[n - 1] in s.rows && CachedBytes(Run(s, t).rows) + s.rows[list[n - 1]].size > cfg.low
  {
    assert n > 0 ==> list[n - 1] in list;
  }

  lemma CanGoDistinct(s: State, list: seq<nat>)
    requires CanGo(s, list)
    ensures forall i, j :: 0 <= i < j < |list| ==> list[i] != list[j]
  {
  }

  lemma AllListed(rows: Table, list: seq<nat>, n: nat, gone: set<nat>)
    requires GoesFirst(rows, list, n, gone) && n == |list|
    ensures forall d :: d in gone <==> d in list
    ensures forall c :: c in list <==> c in rows && MayGo(rows[c])
  {
    assert list[..n] == list;
  }

  lemma Goners(s: State, s': State)
    ensures Gone(s, s') <= s.rows.Keys
  {
  }

  /**
   * `evict_if_needed`. Within the maximum it does nothing. Above it, the Clean unpinned chunks go, the
   * least recently used first and none that need not, until the low watermark is reached or none is left;
   * what it returns is how many went. So the cache is within its limit then, in every state whatever.
   */
  lemma EvictsExactly(cfg: Config, s: State)
    requires cfg.Valid()
    ensures EvictedExactly(cfg, s, Run(s, Evict(cfg, s)))
    ensures Upserts(Evict(cfg, s)) == |Gone(s, Run(s, Evict(cfg, s)))|
  {
    hide EvictList, CachedBytes, EvictableCleanChunks, TakesFirst, CanGo, UsedBefore, MayGo;
    if CachedBytes(s.rows) <= cfg.cacheMax {
      RunNothing(s);
      assert Gone(s, s) == {};
    } else {
      var list := EvictableCleanChunks(s.rows);
      CanGoListing(s);
      var n := EvictListTakes(cfg, s, list, CachedBytes(s.rows));
      TakesSome(cfg, s, list, EvictList(cfg, s, list, CachedBytes(s.rows)), n);
      TakenExactly(cfg, s, list, EvictList(cfg, s, list, CachedBytes(s.rows)), n);
    }
  }
}
