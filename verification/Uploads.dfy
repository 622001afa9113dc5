/**
 * What `sync_dirty` does in every state whatever, told on the state before and after the call: which
 * chunks it uploads, in which order, what it records of them, and where and how it stops.
 */
module Uploads {
  import opened Wrappers
  import opened Metadata
  import opened Wal
  import opened Store
  import opened Operations
  import opened Loops
  import opened CacheLimit

  /** The chunk is Dirty since longer; a row without a time comes first, and ties go by chunk id. */
  predicate DirtiedBefore(rows: Table, c: nat, d: nat)
    requires c in rows && d in rows
  {
    var a, b := rows[c].dirtySince, rows[d].dirtySince;
    if a == b then c < d else a.None? || (b.Some? && a.value < b.value)
  }

  /** All Dirty chunks, each once, the oldest first. */
  ghost predicate OldestFirst(rows: Table, list: seq<nat>) {
    && (forall c :: c in list <==> c in rows && rows[c].state == Dirty)
    && (forall i, j :: 0 <= i < j < |list| ==>
          list[i] in rows && list[j] in rows && list[i] != list[j] && DirtiedBefore(rows, list[i], list[j]))
  }

  /** The chunk has a path and a file, and the cloud takes it. */
  predicate Uploadable(s: State, c: nat) {
    c in s.rows && s.rows[c].hasPath && c in s.files && c !in s.down
  }

  /** The chunk's object is its file, and row and record have the generation and the checksum of that. */
  predicate WasUploaded(cfg: Config, s: State, s': State, c: nat) {
    && c in s.rows && c in s.files && c in s'.rows
    && ObjectOf(s', c) == Some(s.files[c])
    && s'.rows[c] == Meta(true, Clean, s.rows[c].size, Some(s.rows[c].localGen.GetOr(0)), s.rows[c].localGen,
                          Some(cfg.digest(s.files[c])), s.rows[c].lastAccess, None, s.rows[c].pins)
  }

  predicate IsRecordOf(cfg: Config, s: State, c: nat, e: Event) {
    c in s.rows && c in s.files && e == CloudCommitted(c, s.rows[c].localGen.GetOr(0), cfg.digest(s.files[c]))
  }

  /** Row and object of the chunk are as they were. */
  predicate NotUploaded(s: State, s': State, c: nat) {
    RowOf(s', c) == RowOf(s, c) && ObjectOf(s', c) == ObjectOf(s, c)
  }

  /** Where the loop stops: the row of a chunk whose file is missing is put in Error, any other is as it was. */
  predicate StoppedAt(s: State, s': State, c: nat) {
    && ObjectOf(s', c) == ObjectOf(s, c)
    && c in s.rows && c in s'.rows
    && var m := s.rows[c];
    s'.rows[c] == if m.hasPath && c !in s.files
                  then Meta(false, ChunkState.Error, 0, m.remoteGen, m.localGen, m.checksum, m.lastAccess, None, m.pins)
                  else m
  }

  /** The first k chunks of the list were uploaded, in that order, and the next one, if there is one, was not. */
  ghost predicate UploadsFirst(cfg: Config, s: State, s': State, list: seq<nat>, k: nat) {
    && k <= |list|
    && s'.files == s.files && s'.nextTxid == s.nextTxid && s'.down == s.down
    && (forall i :: 0 <= i < k ==> Uploadable(s, list[i]) && WasUploaded(cfg, s, s', list[i]))
    && |s'.journal| == |s.journal| + k && s'.journal[..|s.journal|] == s.journal
    && (forall i :: 0 <= i < k ==> IsRecordOf(cfg, s, list[i], s'.journal[|s.journal| + i]))
    && (k < |list| ==> !Uploadable(s, list[k]) && StoppedAt(s, s', list[k]))
    && (forall c: nat :: c !in list[..k] && (k < |list| ==> c != list[k]) ==> NotUploaded(s, s', c))
  }

  /** The bytes in the files of the chunks of the list, as far as they have files. */
  function BytesIn(files: map<nat, seq<byte>>, list: seq<nat>): nat {
    if list == [] then 0 else (if list[0] in files then |files[list[0]]| else 0) + BytesIn(files, list[1..])
  }

  /** What the loop returns. */
  predicate UploadAnswer(s: State, list: seq<nat>, k: nat, r: Result<nat>)
    requires forall c :: c in list ==> c in s.rows
  {
    if k < |list| then r == Err(if s.rows[list[k]].hasPath && list[k] in s.files then Io else Corrupt)
    else r == Ok(BytesIn(s.files, list))
  }

  // ---------------------------------------------------------------- the loop

  lemma SyncOneAnswers(cfg: Config, s: State, c: nat)
    requires c in s.rows
    ensures UploadAnswer(s, [c], if Uploadable(s, c) then 1 else 0, SyncOne(cfg, s, c).result)
  {
    hide Run;
    SyncRuns(cfg, s, c);
    assert [c][1..] == [] && BytesIn(s.files, [c][1..]) == 0;
  }

  lemma OneUploaded(cfg: Config, s: State, c: nat)
    requires Uploadable(s, c)
    ensures UploadsFirst(cfg, s, Run(s, SyncOne(cfg, s, c).trace), [c], 1)
  {
    hide Run;
    SyncRuns(cfg, s, c);
    assert [c][..1] == [c];
  }

  lemma OneRefused(cfg: Config, s: State, c: nat)
    requires !Uploadable(s, c) && c in s.rows && s.rows[c].state == Dirty
    ensures UploadsFirst(cfg, s, Run(s, SyncOne(cfg, s, c).trace), [c], 0)
  {
    hide Run;
    SyncRuns(cfg, s, c);
    RunNothing(s);
  }

  lemma SyncOneExactly(cfg: Config, s: State, c: nat)
    requires c in s.rows && s.rows[c].state == Dirty
    ensures var o := SyncOne(cfg, s, c);
            && UploadsFirst(cfg, s, Run(s, o.trace), [c], if Uploadable(s, c) then 1 else 0)
            && UploadAnswer(s, [c], if Uploadable(s, c) then 1 else 0, o.result)
  {
    hide Run, SyncOne, UploadsFirst, UploadAnswer;
    SyncOneAnswers(cfg, s, c);
    if Uploadable(s, c) {
      OneUploaded(cfg, s, c);
    } else {
      OneRefused(cfg, s, c);
    }
  }

  ghost predicate Listed(s: State, list: seq<nat>) {
    && (forall c :: c in list ==> c in s.rows && s.rows[c].state == Dirty)
    && (forall i, j :: 0 <= i < j < |list| ==> list[i] != list[j])
  }

  /** After the first upload, the rest of the list finds its rows, files and objects as they were. */
  lemma RestAsBefore(cfg: Config, s: State, s1: State, list: seq<nat>)
    requires list != [] && Listed(s, list) && UploadsFirst(cfg, s, s1, [list[0]], 1)
    ensures Listed(s1, list[1..]) && list[0] !in list[1..]
    ensures forall c: nat :: c != list[0] ==> NotUploaded(s, s1, c)
  {
    forall c: nat | c != list[0]
      ensures NotUploaded(s, s1, c)
    {
    }
    forall c | c in list[1..]
      ensures c != list[0] && c in s1.rows && s1.rows[c].state == Dirty
    {
      assert c in list && NotUploaded(s, s1, c);
    }
  }

  lemma SameUpload(cfg: Config, s: State, s1: State, s': State, c: nat)
    requires s1.files == s.files && s1.down == s.down && NotUploaded(s, s1, c)
    ensures Uploadable(s1, c) <==> Uploadable(s, c)
    ensures WasUploaded(cfg, s1, s', c) <==> WasUploaded(cfg, s, s', c)
    ensures StoppedAt(s1, s', c) <==> StoppedAt(s, s', c)
    ensures NotUploaded(s1, s', c) <==> NotUploaded(s, s', c)
    ensures forall e :: IsRecordOf(cfg, s1, c, e) <==> IsRecordOf(cfg, s, c, e)
    ensures c in s.rows <==> c in s1.rows
    ensures c in s.rows ==> s.rows[c] == s1.rows[c]
  {
    assert RowOf(s1, c) == RowOf(s, c) && ObjectOf(s1, c) == ObjectOf(s, c);
  }

  lemma UploadedStays(cfg: Config, s: State, s1: State, s': State, c: nat)
    requires WasUploaded(cfg, s, s1, c) && NotUploaded(s1, s', c)
    ensures WasUploaded(cfg, s, s', c)
  {
    assert RowOf(s', c) == RowOf(s1, c);
  }

  lemma UploadsMore(cfg: Config, s: State, s1: State, s': State, list: seq<nat>, k: nat)
    requires list != [] && Listed(s, list) && UploadsFirst(cfg, s, s1, [list[0]], 1)
    requires UploadsFirst(cfg, s1, s', list[1..], k)
    ensures UploadsFirst(cfg, s, s', list, k + 1)
  {
    hide Uploadable, WasUploaded, IsRecordOf, NotUploaded, StoppedAt, Listed;
    var c0, n := list[0], |s.journal|;
    RestAsBefore(cfg, s, s1, list);
    assert list[..k + 1] == [c0] + list[1..][..k];
    assert s1.journal == s.journal + [s1.journal[n]];
    assert s'.journal[..n + 1] == s1.journal;
    assert s'.journal[..n] == s'.journal[..n + 1][..n];
    assert NotUploaded(s1, s', c0);
    UploadedStays(cfg, s, s1, s', c0);
    forall i | 0 < i <= k
      ensures Uploadable(s, list[i]) && WasUploaded(cfg, s, s', list[i])
      ensures IsRecordOf(cfg, s, list[i], s'.journal[n + i])
    {
      assert list[i] == list[1..][i - 1] && list[i] != c0;
      SameUpload(cfg, s, s1, s', list[i]);
      assert IsRecordOf(cfg, s1, list[1..][i - 1], s'.journal[n + 1 + (i - 1)]);
    }
    if k + 1 < |list| {
      assert list[k + 1] == list[1..][k] && list[k + 1] != c0;
      SameUpload(cfg, s, s1, s', list[k + 1]);
    }
    forall c: nat | c !in list[..k + 1] && (k + 1 < |list| ==> c != list[k + 1])
      ensures NotUploaded(s, s', c)
    {
      assert c != c0 && c !in list[1..][..k];
      SameUpload(cfg, s, s1, s', c);
    }
  }

  lemma {:induction false} SyncListExactly(cfg: Config, s: State, list: seq<nat>) returns (k: nat)
    requires Listed(s, list)
    ensures UploadsFirst(cfg, s, Run(s, SyncList(cfg, s, list).trace), list, k)
    ensures UploadAnswer(s, list, k, SyncList(cfg, s, list).result)
    decreases list
  {
    hide SyncOne, SyncList, Run, Uploadable, WasUploaded, IsRecordOf, NotUploaded, StoppedAt, UploadsFirst;
    k := 0;
    if list == [] {
      NothingToUpload(cfg, s);
    } else {
      var one := SyncOne(cfg, s, list[0]);
      var s1 := Run(s, one.trace);
      SyncOneExactly(cfg, s, list[0]);
      OneOfMany(cfg, s, list);
      if Uploadable(s, list[0]) {
        RestAsBefore(cfg, s, s1, list);
        k := SyncListExactly(cfg, s1, list[1..]);
        var rest := SyncList(cfg, s1, list[1..]);
        RunConcat(s, one.trace, rest.trace);
        UploadsMore(cfg, s, s1, Run(s1, rest.trace), list, k);
        AnswerMore(cfg, s, s1, list, k, one.result.value, rest.result);
        k := k + 1;
      } else {
        StopsAtOnce(cfg, s, s1, list);
      }
    }
  }

  lemma NothingToUpload(cfg: Config, s: State)
    ensures SyncList(cfg, s, []) == Outcome([], Ok(0))
    ensures UploadsFirst(cfg, s, Run(s, []), [], 0) && UploadAnswer(s, [], 0, Ok(0))
  {
  }

  lemma OneOfMany(cfg: Config, s: State, list: seq<nat>)
    requires list != [] && Listed(s, list)
    requires UploadAnswer(s, [list[0]], if Uploadable(s, list[0]) then 1 else 0, SyncOne(cfg, s, list[0]).result)
    ensures Uploadable(s, list[0]) ==>
              var one := SyncOne(cfg, s, list[0]);
              && one.result == Ok(BytesIn(s.files, [list[0]]))
              && (forall c :: c in list[1..] ==> c in Run(s, one.trace).rows)
              && SyncList(cfg, s, list)
                  == AfterUploads(one.trace, one.result.value, SyncList(cfg, Run(s, one.trace), list[1..]))
    ensures !Uploadable(s, list[0]) ==> SyncList(cfg, s, list) == SyncOne(cfg, s, list[0])
  {
    hide SyncOne, SyncList, Run, Uploadable;
    assert list[0..] == list;
    SyncUnfold(cfg, s, list, 0);
  }

  lemma AnswerMore(cfg: Config, s: State, s1: State, list: seq<nat>, k: nat, n: nat, r: Result<nat>)
    requires list != [] && Listed(s, list) && UploadsFirst(cfg, s, s1, [list[0]], 1) && n == BytesIn(s.files, [list[0]])
    requires forall c :: c in list[1..] ==> c in s1.rows
    requires UploadAnswer(s1, list[1..], k, r)
    ensures UploadAnswer(s, list, k + 1, if r.Ok? then Ok(n + r.value) else r)
  {
    RestAsBefore(cfg, s, s1, list);
    assert [list[0]][1..] == [] && s1.files == s.files;
    if k + 1 < |list| {
      assert list[k + 1] == list[1..][k] && list[k + 1] in list[1..];
      assert NotUploaded(s, s1, list[k + 1]);
      SameUpload(cfg, s, s1, s1, list[k + 1]);
    }
  }

  lemma StopsAtOnce(cfg: Config, s: State, s1: State, list: seq<nat>)
    requires list != [] && UploadsFirst(cfg, s, s1, [list[0]], 0)
    ensures UploadsFirst(cfg, s, s1, list, 0)
  {
  }

  // ---------------------------------------------------------------- sync_dirty

  /** From s to s' by way of mid: the uploads, and if all were done, the eviction. */
  ghost predicate SyncedExactly(cfg: Config, s: State, mid: State, s': State, list: seq<nat>, k: nat, r: Result<nat>) {
    && OldestFirst(s.rows, list)
    && UploadsFirst(cfg, s, mid, list, k)
    && UploadAnswer(s, list, k, r)
    && (if k == |list| then EvictedExactly(cfg, mid, s') else s' == mid)
  }

  lemma DirtyOldestFirst(rows: Table)
    ensures OldestFirst(rows, DirtyChunks(rows))
  {
    var list := DirtyChunks(rows);
    forall i, j | 0 <= i < j < |list|
      ensures list[i] in rows && list[j] in rows && list[i] != list[j] && DirtiedBefore(rows, list[i], list[j])
    {
      assert list[i] in list && list[j] in list;
      assert Before(DIRTY_ORDER, rows, list[i], list[j]);
    }
  }

  /**
   * `sync_dirty`, exactly. It goes through the Dirty chunks, the one that has been so for longest first, up
   * to the first that has no path or no file, or that the cloud refuses. Each one before that is uploaded as
   * its file is, recorded in that order, and Clean. If there is none to stop at, it returns the bytes
   * uploaded, and the cache is within its limit; else nothing is evicted and no later chunk touched.
   */
  lemma SyncsExactly(cfg: Config, s: State) returns (mid: State, list: seq<nat>, k: nat)
    requires cfg.Valid()
    ensures SyncedExactly(cfg, s, mid, Run(s, Sync(cfg, s).trace), list, k, Sync(cfg, s).result)
  {
    hide SyncList, Run, UploadsFirst, EvictedExactly, Evict, DirtyChunks, OldestFirst;
    list := DirtyChunks(s.rows);
    DirtyOldestFirst(s.rows);
    OldestListed(s, list);
    k := SyncListExactly(cfg, s, list);
    var u := SyncList(cfg, s, list);
    mid := Run(s, u.trace);
    UploadsSome(cfg, s, mid, list, k);
    if u.result.Ok? {
      EvictsExactly(cfg, mid);
      RunConcat(s, u.trace, Evict(cfg, mid));
    }
  }

  lemma UploadsSome(cfg: Config, s: State, s': State, list: seq<nat>, k: nat)
    requires UploadsFirst(cfg, s, s', list, k)
    ensures k <= |list|
  {
  }

  lemma OldestListed(s: State, list: seq<nat>)
    requires OldestFirst(s.rows, list)
    ensures Listed(s, list)
  {
  }
}
