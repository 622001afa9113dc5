/** The `chunks` table: one row per chunk, with its ordered queries and its byte counters. */
module Metadata {
  import opened Wrappers

  datatype ChunkState = Missing | Fetching | Clean | Dirty | Uploading | Error

  /** A row. `hasPath` says whether local_path is set; a set path is always the chunk's own path. */
  datatype Meta = Meta(
    hasPath: bool,
    state: ChunkState,
    size: nat,
    remoteGen: Option<nat>,
    localGen: Option<nat>,
    checksum: Option<string>,
    lastAccess: nat,
    dirtySince: Option<nat>,
    pins: nat)

  type Table = map<nat, Meta>

  // ---------------------------------------------------------------- queries

  /** ORDER BY key ASC, chunk_id ASC. */
  predicate Before(key: Meta -> nat, rows: Table, a: nat, b: nat)
    requires a in rows && b in rows
  {
    key(rows[a]) < key(rows[b]) || (key(rows[a]) == key(rows[b]) && a <= b)
  }

  predicate IsFirst(key: Meta -> nat, rows: Table, ids: set<nat>, c: nat)
    requires ids <= rows.Keys
  {
    c in ids && forall d :: d in ids ==> Before(key, rows, c, d)
  }

  lemma FirstExists(key: Meta -> nat, rows: Table, ids: set<nat>)
    requires ids <= rows.Keys && ids != {}
    ensures exists c :: IsFirst(key, rows, ids, c)
  {
    var x :| x in ids;
    if ids == {x} {
      assert IsFirst(key, rows, ids, x);
    } else {
      FirstExists(key, rows, ids - {x});
      var c :| IsFirst(key, rows, ids - {x}, c);
      var best := if Before(key, rows, x, c) then x else c;
      forall d | d in ids
        ensures Before(key, rows, best, d)
      {
        assert d == x || d in ids - {x};
      }
      assert IsFirst(key, rows, ids, best);
    }
  }

  /** The ids in the order the query returns them. */
  function Listing(key: Meta -> nat, rows: Table, ids: set<nat>): (list: seq<nat>)
    requires ids <= rows.Keys
    ensures forall c :: c in list <==> c in ids
    ensures |list| == |ids|
    ensures forall i, j :: 0 <= i < j < |list| ==> list[i] != list[j] && Before(key, rows, list[i], list[j])
    decreases |ids|
  {
    if ids == {} then []
    else
      FirstExists(key, rows, ids);
      var c :| IsFirst(key, rows, ids, c);
      ListingCons(key, rows, ids, c, Listing(key, rows, ids - {c}));
      [c] + Listing(key, rows, ids - {c})
  }

  lemma ListingCons(key: Meta -> nat, rows: Table, ids: set<nat>, c: nat, rest: seq<nat>)
    requires ids <= rows.Keys && IsFirst(key, rows, ids, c) && |rest| == |ids - {c}|
    requires forall d :: d in rest <==> d in ids - {c}
    requires forall i :: 0 <= i < |rest| ==> rest[i] in rows
    requires forall i, j :: 0 <= i < j < |rest| ==> rest[i] != rest[j] && Before(key, rows, rest[i], rest[j])
    ensures var list := [c] + rest;
            && |list| == |ids|
            && (forall d :: d in list <==> d in ids)
            && (forall i :: 0 <= i < |list| ==> list[i] in rows)
            && forall i, j :: 0 <= i < j < |list| ==> list[i] != list[j] && Before(key, rows, list[i], list[j])
  {
    hide Before;
    var list := [c] + rest;
    assert forall d :: d in list <==> d == c || d in rest;
    assert forall i :: 0 < i < |list| ==> list[i] == rest[i - 1];
    forall i, j | 0 <= i < j < |list|
      ensures list[i] != list[j] && Before(key, rows, list[i], list[j])
    {
      assert list[j] == rest[j - 1] && rest[j - 1] in rest;
    }
  }

  function DirtyIds(rows: Table): set<nat> {
    set c | c in rows && rows[c].state == Dirty
  }

  function EvictableIds(rows: Table): set<nat> {
    set c | c in rows && rows[c].state == Clean && rows[c].pins == 0
  }

  /** A NULL sorts before every value. */
  const DIRTY_ORDER: Meta -> nat := (m: Meta) => if m.dirtySince.Some? then m.dirtySince.value + 1 else 0
  const ACCESS_ORDER: Meta -> nat := (m: Meta) => m.lastAccess
  const ID_ORDER: Meta -> nat := (m: Meta) => 0

  function DirtyChunks(rows: Table): seq<nat> { Listing(DIRTY_ORDER, rows, DirtyIds(rows)) }

  function EvictableCleanChunks(rows: Table): seq<nat> { Listing(ACCESS_ORDER, rows, EvictableIds(rows)) }

  function AllChunks(rows: Table): seq<nat> { Listing(ID_ORDER, rows, rows.Keys) }

  // ---------------------------------------------------------------- byte counters

  /** SUM(size_bytes) over the rows in `ids`. */
  ghost function Bytes(rows: Table, ids: set<nat>): nat
    requires ids <= rows.Keys
  {
    if ids == {} then 0 else var c :| c in ids; rows[c].size + Bytes(rows, ids - {c})
  }

  lemma {:induction false} BytesRemove(rows: Table, ids: set<nat>, c: nat)
    requires ids <= rows.Keys && c in ids
    ensures Bytes(rows, ids) == rows[c].size + Bytes(rows, ids - {c})
  {
    var d :| d in ids && Bytes(rows, ids) == rows[d].size + Bytes(rows, ids - {d});
    if d != c {
      BytesRemove(rows, ids - {d}, c);
      BytesRemove(rows, ids - {c}, d);
      assert ids - {d} - {c} == ids - {c} - {d};
    }
  }

  /** The sum only depends on the sizes of the rows summed. */
  lemma {:induction false} BytesSame(r1: Table, r2: Table, ids: set<nat>)
    requires ids <= r1.Keys && ids <= r2.Keys
    requires forall c :: c in ids ==> r1[c].size == r2[c].size
    ensures Bytes(r1, ids) == Bytes(r2, ids)
  {
    if ids != {} {
      var c :| c in ids;
      BytesRemove(r1, ids, c);
      BytesRemove(r2, ids, c);
      BytesSame(r1, r2, ids - {c});
    }
  }

  lemma {:induction false} BytesSplit(rows: Table, a: set<nat>, b: set<nat>)
    requires a <= rows.Keys && b <= rows.Keys && a !! b
    ensures Bytes(rows, a + b) == Bytes(rows, a) + Bytes(rows, b)
  {
    if a == {} {
      assert a + b == b;
    } else {
      var c :| c in a;
      BytesRemove(rows, a, c);
      BytesRemove(rows, a + b, c);
      assert a + b - {c} == (a - {c}) + b;
      BytesSplit(rows, a - {c}, b);
    }
  }

  function Cached(state: ChunkState): bool {
    state == Clean || state == Dirty || state == Uploading || state == Fetching
  }

  function CachedIds(rows: Table): set<nat> {
    set c | c in rows && Cached(rows[c].state)
  }

  /** `stats().cached_bytes`. */
  ghost function CachedBytes(rows: Table): nat { Bytes(rows, CachedIds(rows)) }

  /** Cached bytes that eviction may not touch. */
  ghost function HeldBytes(rows: Table): nat { Bytes(rows, CachedIds(rows) - EvictableIds(rows)) }

  /** How the cached-byte counter changes when one row is replaced. */
  lemma CachedBytesUpsert(rows: Table, c: nat, m: Meta)
    ensures CachedBytes(rows[c := m])
         == CachedBytes(rows) - (if c in rows && Cached(rows[c].state) then rows[c].size else 0)
            + (if Cached(m.state) then m.size else 0)
  {
    var after := rows[c := m];
    var others := CachedIds(rows) - {c};
    assert CachedIds(after) - {c} == others;
    BytesSame(rows, after, others);
    if c in CachedIds(rows) {
      BytesRemove(rows, CachedIds(rows), c);
    } else {
      assert CachedIds(rows) == others;
    }
    if c in CachedIds(after) {
      BytesRemove(after, CachedIds(after), c);
    } else {
      assert CachedIds(after) == others;
    }
  }

  // ---------------------------------------------------------------- the database object

  /** A row as a query returns it. */
  datatype Row = Row(id: nat, meta: Meta)

  function RowsOf(rows: Table, ids: seq<nat>): (list: seq<Row>)
    requires forall c :: c in ids ==> c in rows
    ensures |list| == |ids|
    ensures forall i :: 0 <= i < |ids| ==> list[i] == Row(ids[i], rows[ids[i]])
  {
    if ids == [] then [] else [Row(ids[0], rows[ids[0]])] + RowsOf(rows, ids[1..])
  }

  /** `list` has the rows selected by `ids`, each once, by key and then by id. */
  ghost predicate Answers(key: Meta -> nat, rows: Table, ids: set<nat>, list: seq<Row>)
    requires ids <= rows.Keys
  {
    && (forall i :: 0 <= i < |list| ==> list[i].id in ids && list[i].meta == rows[list[i].id])
    && (forall c :: c in ids ==> Row(c, rows[c]) in list)
    && (forall i, j :: 0 <= i < j < |list| ==> list[i].id != list[j].id && Before(key, rows, list[i].id, list[j].id))
  }

  lemma ListingAnswers(key: Meta -> nat, rows: Table, ids: set<nat>)
    requires ids <= rows.Keys
    ensures Answers(key, rows, ids, RowsOf(rows, Listing(key, rows, ids)))
  {
    var list := Listing(key, rows, ids);
    forall c | c in ids
      ensures Row(c, rows[c]) in RowsOf(rows, list)
    {
      var i :| 0 <= i < |list| && list[i] == c;
      assert RowsOf(rows, list)[i] == Row(c, rows[c]);
    }
  }

  lemma FirstUnique(key: Meta -> nat, rows: Table, ids: set<nat>, c: nat, d: nat)
    requires ids <= rows.Keys && IsFirst(key, rows, ids, c) && IsFirst(key, rows, ids, d)
    ensures c == d
  {
    assert Before(key, rows, c, d) && Before(key, rows, d, c);
  }

  lemma ListingUnfold(key: Meta -> nat, rows: Table, ids: set<nat>, c: nat)
    requires ids <= rows.Keys && IsFirst(key, rows, ids, c)
    ensures Listing(key, rows, ids) == [c] + Listing(key, rows, ids - {c})
  {
    hide Before;
    FirstExists(key, rows, ids);
    var d :| IsFirst(key, rows, ids, d) && Listing(key, rows, ids) == [d] + Listing(key, rows, ids - {d});
    FirstUnique(key, rows, ids, c, d);
  }

  lemma RowsOfCons(rows: Table, c: nat, ids: seq<nat>)
    requires c in rows && forall d :: d in ids ==> d in rows
    ensures RowsOf(rows, [c] + ids) == [Row(c, rows[c])] + RowsOf(rows, ids)
  {
    assert ([c] + ids)[1..] == ids;
  }

  /** The order leaves no choice: a query has one answer, and it is the listing. */
  lemma {:induction false} AnswerIsListing(key: Meta -> nat, rows: Table, ids: set<nat>, list: seq<Row>)
    requires ids <= rows.Keys && Answers(key, rows, ids, list)
    ensures list == RowsOf(rows, Listing(key, rows, ids))
    decreases |ids|
  {
    hide Answers, Listing, RowsOf, IsFirst;
    if ids == {} {
      NoAnswer(key, rows, list);
    } else {
      AnswerHead(key, rows, ids, list);
      var c := list[0].id;
      AnswerTail(key, rows, ids, list);
      ListingUnfold(key, rows, ids, c);
      AnswerIsListing(key, rows, ids - {c}, list[1..]);
      RowsOfCons(rows, c, Listing(key, rows, ids - {c}));
      assert list == [list[0]] + list[1..];
    }
  }

  lemma AnswerMember(key: Meta -> nat, rows: Table, ids: set<nat>, list: seq<Row>)
    requires ids <= rows.Keys && list != [] && Answers(key, rows, ids, list)
    ensures list[0].id in ids
  {
  }

  lemma NoAnswer(key: Meta -> nat, rows: Table, list: seq<Row>)
    requires Answers(key, rows, {}, list)
    ensures list == [] && list == RowsOf(rows, Listing(key, rows, {}))
  {
    if list != [] {
      AnswerMember(key, rows, {}, list);
    }
  }

  lemma AnswerHead(key: Meta -> nat, rows: Table, ids: set<nat>, list: seq<Row>)
    requires ids <= rows.Keys && ids != {} && Answers(key, rows, ids, list)
    ensures list != [] && IsFirst(key, rows, ids, list[0].id) && list[0] == Row(list[0].id, rows[list[0].id])
  {
    hide Before;
    var x :| x in ids;
    assert Row(x, rows[x]) in list;
    forall d | d in ids
      ensures Before(key, rows, list[0].id, d)
    {
      var i :| 0 <= i < |list| && list[i] == Row(d, rows[d]);
      if i == 0 {
        BeforeItself(key, rows, d);
      }
    }
  }

  lemma BeforeItself(key: Meta -> nat, rows: Table, d: nat)
    requires d in rows
    ensures Before(key, rows, d, d)
  {
  }

  lemma AnswerTail(key: Meta -> nat, rows: Table, ids: set<nat>, list: seq<Row>)
    requires ids <= rows.Keys && list != [] && Answers(key, rows, ids, list)
    ensures Answers(key, rows, ids - {list[0].id}, list[1..])
  {
    hide Before;
    var c, rest := list[0].id, list[1..];
    assert forall i :: 0 <= i < |rest| ==> rest[i] == list[i + 1];
    forall i | 0 <= i < |rest|
      ensures rest[i].id in ids - {c} && rest[i].meta == rows[rest[i].id]
    {
      assert list[0].id != list[i + 1].id;
    }
    forall d | d in ids - {c}
      ensures Row(d, rows[d]) in rest
    {
      var i :| 0 <= i < |list| && list[i] == Row(d, rows[d]);
      assert rest[i - 1] == list[i];
    }
    forall i, j | 0 <= i < j < |rest|
      ensures rest[i].id != rest[j].id && Before(key, rows, rest[i].id, rest[j].id)
    {
      assert rest[i] == list[i + 1] && rest[j] == list[j + 1];
    }
  }

  lemma DirtyAnswer(rows: Table, list: seq<Row>)
    requires Answers(DIRTY_ORDER, rows, DirtyIds(rows), list)
    ensures list == RowsOf(rows, DirtyChunks(rows))
  {
    hide Answers, RowsOf;
    AnswerIsListing(DIRTY_ORDER, rows, DirtyIds(rows), list);
  }

  lemma EvictableAnswer(rows: Table, list: seq<Row>)
    requires Answers(ACCESS_ORDER, rows, EvictableIds(rows), list)
    ensures list == RowsOf(rows, EvictableCleanChunks(rows))
  {
    hide Answers, RowsOf;
    AnswerIsListing(ACCESS_ORDER, rows, EvictableIds(rows), list);
  }

  lemma AllAnswer(rows: Table, list: seq<Row>)
    requires Answers(ID_ORDER, rows, rows.Keys, list)
    ensures list == RowsOf(rows, AllChunks(rows))
  {
    hide Answers, RowsOf;
    AnswerIsListing(ID_ORDER, rows, rows.Keys, list);
  }

  function InState(rows: Table, st: ChunkState): set<nat> {
    set c | c in rows && rows[c].state == st
  }

  /** One row of SELECT state, COUNT(*), SUM(size_bytes) ... GROUP BY state. */
  datatype Group = Group(state: ChunkState, count: nat, bytes: nat)

  datatype MetadataStats = MetadataStats(
    cachedBytes: nat,
    cleanBytes: nat,
    dirtyBytes: nat,
    cachedChunks: nat,
    missingChunks: nat)

  const ALL_STATES: seq<ChunkState> := [Missing, Fetching, Clean, Dirty, Uploading, Error]

  /** The rows whose state is one of `states` and that `keep` selects. */
  function Among(rows: Table, states: seq<ChunkState>, keep: ChunkState -> bool): set<nat> {
    set c | c in rows && rows[c].state in states && keep(rows[c].state)
  }

  lemma AmongSnoc(rows: Table, states: seq<ChunkState>, st: ChunkState, keep: ChunkState -> bool)
    requires st !in states
    ensures Bytes(rows, Among(rows, states + [st], keep))
         == Bytes(rows, Among(rows, states, keep)) + (if keep(st) then Bytes(rows, InState(rows, st)) else 0)
    ensures |Among(rows, states + [st], keep)|
         == |Among(rows, states, keep)| + (if keep(st) then |InState(rows, st)| else 0)
  {
    hide Bytes, Among, InState;
    AmongOneMore(rows, states, st, keep);
    if keep(st) {
      BytesSplit(rows, Among(rows, states, keep), InState(rows, st));
    }
  }

  lemma AmongOneMore(rows: Table, states: seq<ChunkState>, st: ChunkState, keep: ChunkState -> bool)
    requires st !in states
    ensures Among(rows, states, keep) <= rows.Keys && InState(rows, st) <= rows.Keys
    ensures Among(rows, states, keep) !! InState(rows, st)
    ensures Among(rows, states + [st], keep)
         == if keep(st) then Among(rows, states, keep) + InState(rows, st) else Among(rows, states, keep)
  {
  }

  predicate IsClean(st: ChunkState) { st == Clean }

  predicate IsDirty(st: ChunkState) { st == Dirty || st == Uploading }

  /** The counters hold the totals over the given states. */
  ghost predicate Tallied(rows: Table, states: seq<ChunkState>, cachedBytes: nat, cachedChunks: nat,
        cleanBytes: nat, dirtyBytes: nat)
  {
    && cachedBytes == Bytes(rows, Among(rows, states, Cached))
    && cachedChunks == |Among(rows, states, Cached)|
    && cleanBytes == Bytes(rows, Among(rows, states, IsClean))
    && dirtyBytes == Bytes(rows, Among(rows, states, IsDirty))
  }

  lemma TallyStep(rows: Table, states: seq<ChunkState>, st: ChunkState, cachedBytes: nat, cachedChunks: nat,
        cleanBytes: nat, dirtyBytes: nat)
    requires st !in states && Tallied(rows, states, cachedBytes, cachedChunks, cleanBytes, dirtyBytes)
    ensures var n, b := |InState(rows, st)|, Bytes(rows, InState(rows, st));
            Tallied(rows, states + [st],
                    if Cached(st) then cachedBytes + b else cachedBytes,
                    if Cached(st) then cachedChunks + n else cachedChunks,
                    if IsClean(st) then cleanBytes + b else cleanBytes,
                    if IsDirty(st) then dirtyBytes + b else dirtyBytes)
  {
    AmongSnoc(rows, states, st, Cached);
    AmongSnoc(rows, states, st, IsClean);
    AmongSnoc(rows, states, st, IsDirty);
  }

  lemma EveryState(st: ChunkState)
    ensures st in ALL_STATES
  {
    assert ALL_STATES[0] == Missing && ALL_STATES[1] == Fetching && ALL_STATES[2] == Clean
        && ALL_STATES[3] == Dirty && ALL_STATES[4] == Uploading && ALL_STATES[5] == Error;
    match st
    case Missing =>
    case Fetching =>
    case Clean =>
    case Dirty =>
    case Uploading =>
    case Error =>
  }

  lemma TallyEnds(rows: Table, cachedBytes: nat, cachedChunks: nat, cleanBytes: nat, dirtyBytes: nat)
    requires Tallied(rows, ALL_STATES, cachedBytes, cachedChunks, cleanBytes, dirtyBytes)
    ensures cachedBytes == CachedBytes(rows) && cachedChunks == |CachedIds(rows)|
    ensures cleanBytes == Bytes(rows, InState(rows, Clean))
    ensures dirtyBytes == Bytes(rows, InState(rows, Dirty) + InState(rows, Uploading))
  {
    forall st: ChunkState
      ensures st in ALL_STATES
    {
      EveryState(st);
    }
    assert Among(rows, ALL_STATES, Cached) == CachedIds(rows);
    assert Among(rows, ALL_STATES, IsClean) == InState(rows, Clean);
    assert Among(rows, ALL_STATES, IsDirty) == InState(rows, Dirty) + InState(rows, Uploading);
  }

  lemma DistinctStates(i: nat)
    requires i < |ALL_STATES|
    ensures ALL_STATES[i] !in ALL_STATES[..i]
    ensures ALL_STATES[..i + 1] == ALL_STATES[..i] + [ALL_STATES[i]]
  {
  }

  /** `MetadataDb`: the table, changed by atomic upserts. */
  class MetadataDb {
    var rows: Table

    constructor ()
      ensures rows == map[]
    {
      rows := map[];
    }

    method GetChunk(c: nat) returns (m: Option<Meta>)
      ensures m == if c in rows then Some(rows[c]) else None
    {
      m := if c in rows then Some(rows[c]) else None;
    }

    method UpsertChunk(c: nat, m: Meta)
      modifies this
      ensures rows == old(rows)[c := m]
    {
      rows := rows[c := m];
    }

    method UpdateAccess(c: nat, now: nat)
      modifies this
      ensures rows == if c in old(rows) then old(rows)[c := old(rows)[c].(lastAccess := now)] else old(rows)
    {
      if c in rows {
        rows := rows[c := rows[c].(lastAccess := now)];
      }
    }

    method QueryDirty() returns (list: seq<Row>)
      ensures Answers(DIRTY_ORDER, rows, DirtyIds(rows), list)
    {
      list := RowsOf(rows, DirtyChunks(rows));
      ListingAnswers(DIRTY_ORDER, rows, DirtyIds(rows));
    }

    method QueryEvictable() returns (list: seq<Row>)
      ensures Answers(ACCESS_ORDER, rows, EvictableIds(rows), list)
    {
      list := RowsOf(rows, EvictableCleanChunks(rows));
      ListingAnswers(ACCESS_ORDER, rows, EvictableIds(rows));
    }

    method QueryAll() returns (list: seq<Row>)
      ensures Answers(ID_ORDER, rows, rows.Keys, list)
    {
      list := RowsOf(rows, AllChunks(rows));
      ListingAnswers(ID_ORDER, rows, rows.Keys);
    }

    method SumBytes(ids: set<nat>) returns (bytes: nat)
      requires ids <= rows.Keys
      ensures bytes == Bytes(rows, ids)
    {
      bytes := 0;
      var rest := ids;
      while rest != {}
        invariant rest <= ids && bytes + Bytes(rows, rest) == Bytes(rows, ids)
        decreases |rest|
      {
        var c :| c in rest;
        BytesRemove(rows, rest, c);
        bytes := bytes + rows[c].size;
        rest := rest - {c};
      }
    }

    /** The grouped query, a group for each state. */
    method GroupByState() returns (groups: seq<Group>)
      ensures |groups| == |ALL_STATES|
      ensures forall i :: 0 <= i < |groups| ==>
                groups[i] == Group(ALL_STATES[i], |InState(rows, ALL_STATES[i])|, groups[i].bytes)
                && groups[i].bytes == Bytes(rows, InState(rows, ALL_STATES[i]))
    {
      groups := [];
      var i := 0;
      while i < |ALL_STATES|
        invariant 0 <= i <= |ALL_STATES| && |groups| == i
        invariant forall k :: 0 <= k < i ==>
                    groups[k] == Group(ALL_STATES[k], |InState(rows, ALL_STATES[k])|, groups[k].bytes)
                    && groups[k].bytes == Bytes(rows, InState(rows, ALL_STATES[k]))
      {
        var bytes := SumBytes(InState(rows, ALL_STATES[i]));
        groups := groups + [Group(ALL_STATES[i], |InState(rows, ALL_STATES[i])|, bytes)];
        i := i + 1;
      }
    }

    /** `stats`: accumulates the groups. */
    method Stats(totalChunks: nat) returns (stats: MetadataStats)
      ensures stats.cachedBytes == CachedBytes(rows)
      ensures stats.cleanBytes == Bytes(rows, InState(rows, Clean))
      ensures stats.dirtyBytes == Bytes(rows, InState(rows, Dirty) + InState(rows, Uploading))
      ensures stats.cachedChunks == |CachedIds(rows)|
      ensures stats.missingChunks == SaturatingSub(totalChunks, |CachedIds(rows)|)
    {
      hide Tallied, Bytes, Among;
      var groups := GroupByState();
      var cachedBytes: nat, cleanBytes: nat, dirtyBytes: nat, cachedChunks: nat := 0, 0, 0, 0;
      TallyStarts(rows);
      var i := 0;
      while i < |groups|
        invariant 0 <= i <= |groups|
        invariant Tallied(rows, ALL_STATES[..i], cachedBytes, cachedChunks, cleanBytes, dirtyBytes)
      {
        var g := groups[i];
        DistinctStates(i);
        TallyStep(rows, ALL_STATES[..i], g.state, cachedBytes, cachedChunks, cleanBytes, dirtyBytes);
        match g.state {
          case Clean =>
            cleanBytes := cleanBytes + g.bytes;
            cachedBytes := cachedBytes + g.bytes;
            cachedChunks := cachedChunks + g.count;
          case Dirty =>
            dirtyBytes := dirtyBytes + g.bytes;
            cachedBytes := cachedBytes + g.bytes;
            cachedChunks := cachedChunks + g.count;
          case Uploading =>
            dirtyBytes := dirtyBytes + g.bytes;
            cachedBytes := cachedBytes + g.bytes;
            cachedChunks := cachedChunks + g.count;
          case Fetching =>
            cachedBytes := cachedBytes + g.bytes;
            cachedChunks := cachedChunks + g.count;
          case Missing =>
          case Error =>
        }
        i := i + 1;
      }
      assert ALL_STATES[..|ALL_STATES|] == ALL_STATES;
      TallyEnds(rows, cachedBytes, cachedChunks, cleanBytes, dirtyBytes);
      stats := MetadataStats(cachedBytes, cleanBytes, dirtyBytes, cachedChunks,
                             SaturatingSub(totalChunks, cachedChunks));
    }
  }

  lemma TallyStarts(rows: Table)
    ensures Tallied(rows, ALL_STATES[..0], 0, 0, 0, 0)
  {
    assert Among(rows, ALL_STATES[..0], Cached) == {};
    assert Among(rows, ALL_STATES[..0], IsClean) == {};
    assert Among(rows, ALL_STATES[..0], IsDirty) == {};
  }
}
