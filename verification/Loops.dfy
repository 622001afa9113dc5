/**
 * What the loops of the engine need: a loop that has performed some effects and has some rows left
 * is on its way to performing the whole trace that module Operations gives.
 */
module Loops {
  import opened Wrappers
  import opened Mapper
  import opened Metadata
  import opened Wal
  import opened WalCodec
  import opened Store
  import opened Volume
  import opened Operations
  import opened Safety
  import opened Transparency
  import opened Recovery
  import opened Writing
  import opened Guards
  import opened Runs
  import opened Durability
  import opened Headroom

  /** Checksums look as `sha256_hex` writes them. */
  ghost predicate GoodDigest(cfg: Config) {
    forall data: seq<byte> :: DigestLike(cfg.digest(data))
  }

  /** Rows still to be visited are as the query returned them. */
  ghost predicate Pending(rows: Table, list: seq<Row>, i: nat) {
    && i <= |list|
    && (forall j :: i <= j < |list| ==> list[j].id in rows && rows[list[j].id] == list[j].meta)
    && (forall j, k :: i <= j < k < |list| ==> list[j].id != list[k].id)
  }

  function Ids(list: seq<Row>): (ids: seq<nat>)
    ensures |ids| == |list| && forall i :: 0 <= i < |ids| ==> ids[i] == list[i].id
  {
    if list == [] then [] else [list[0].id] + Ids(list[1..])
  }

  lemma {:induction false} IdsOfRows(rows: Table, ids: seq<nat>)
    requires forall c :: c in ids ==> c in rows
    ensures Ids(RowsOf(rows, ids)) == ids
  {
  }

  lemma RowsPending(rows: Table, ids: seq<nat>)
    requires forall c :: c in ids ==> c in rows
    requires forall i, j :: 0 <= i < j < |ids| ==> ids[i] != ids[j]
    ensures Pending(rows, RowsOf(rows, ids), 0) && Ids(RowsOf(rows, ids)) == ids
  {
    IdsOfRows(rows, ids);
  }

  lemma EvictablePending(rows: Table)
    ensures var ids := EvictableCleanChunks(rows);
            (forall c :: c in ids ==> c in rows) && Pending(rows, RowsOf(rows, ids), 0) && Ids(RowsOf(rows, ids)) == ids
  {
    hide RowsOf, Pending;
    RowsPending(rows, EvictableCleanChunks(rows));
  }

  lemma DirtyPending(rows: Table)
    ensures var ids := DirtyChunks(rows);
            (forall c :: c in ids ==> c in rows) && Pending(rows, RowsOf(rows, ids), 0) && Ids(RowsOf(rows, ids)) == ids
  {
    hide RowsOf, Pending;
    RowsPending(rows, DirtyChunks(rows));
  }

  lemma AllPending(rows: Table)
    ensures var ids := AllChunks(rows);
            (forall c :: c in ids ==> c in rows) && Pending(rows, RowsOf(rows, ids), 0) && Ids(RowsOf(rows, ids)) == ids
  {
    hide RowsOf, Pending;
    RowsPending(rows, AllChunks(rows));
  }

  /** How many rows a trace of evictions takes: one upsert each. */
  function Upserts(t: seq<Effect>): nat {
    if t == [] then 0 else Upserts(t[..|t| - 1]) + (if t[|t| - 1].Upsert? then 1 else 0)
  }

  lemma UpsertsOfEvictOne(s: State, t: seq<Effect>, c: nat)
    requires c in s.rows
    ensures Upserts(t + EvictOne(s, c)) == Upserts(t) + 1
  {
    var up := Effect.Upsert(c, EvictedRow(s.rows[c], s.clock));
    var head := if s.rows[c].hasPath && c in s.files then [Effect.RemoveFile(c)] else [];
    var a, b := t + head, t + EvictOne(s, c);
    assert b == a + [up] && b[..|b| - 1] == a;
    if head == [] {
      assert a == t;
    } else {
      assert a[..|a| - 1] == t;
    }
  }

  lemma PendingNext(rows: Table, rows': Table, list: seq<Row>, i: nat)
    requires i < |list| && Pending(rows, list, i)
    requires forall c :: c in rows && c != list[i].id ==> c in rows' && rows'[c] == rows[c]
    ensures Pending(rows', list, i + 1)
  {
  }

  lemma IdsIn(rows: Table, list: seq<Row>, i: nat)
    requires Pending(rows, list, i)
    ensures forall c :: c in Ids(list)[i..] ==> c in rows
  {
  }

  /** What `fsck` reports: the chunk, the state it was in and the state it is put in. */
  datatype Finding = Finding(c: nat, was: ChunkState, becomes: ChunkState)

  function FindingOf(s: State, c: nat): seq<Finding>
    requires c in s.rows
  {
    if Lost(s, c) then [Finding(c, s.rows[c].state, LostRow(s.rows[c]).state)] else []
  }

  function FindingsOf(s: State, list: seq<nat>): seq<Finding>
    requires forall c :: c in list ==> c in s.rows
    decreases list
  {
    if list == [] then [] else FindingOf(s, list[0]) + FindingsOf(Run(s, ValidateOne(s, list[0])), list[1..])
  }

  lemma RebuildSnoc(cfg: Config, s: State, order: seq<nat>, c: nat)
    ensures RebuildList(cfg, s, order + [c])
         == RebuildList(cfg, s, order) + RebuildOne(cfg, Run(s, RebuildList(cfg, s, order)), c)
    decreases order
  {
    if order == [] {
      assert [c][1..] == [] && [] + [c] == [c];
      var one := RebuildOne(cfg, s, c);
      assert one + [] == one && [] + one == one;
    } else {
      var one := RebuildOne(cfg, s, order[0]);
      var s1 := Run(s, one);
      assert (order + [c])[0] == order[0] && (order + [c])[1..] == order[1..] + [c];
      RebuildSnoc(cfg, s1, order[1..], c);
      RunConcat(s, one, RebuildList(cfg, s1, order[1..]));
    }
  }

  // ---------------------------------------------------------------- eviction

  lemma AllIn(rows: Table, list: seq<Row>)
    requires Pending(rows, list, 0)
    ensures forall c :: c in Ids(list) ==> c in rows
  {
    IdsIn(rows, list, 0);
    assert Ids(list)[0..] == Ids(list);
  }

  lemma AlwaysTransparent(cfg: Config, s: State)
    ensures forall v :: Represents(cfg, s, v) ==> Represents(cfg, Run(s, Evict(cfg, s)), v)
  {
    forall v | Represents(cfg, s, v)
      ensures Represents(cfg, Run(s, Evict(cfg, s)), v)
    {
      EvictTransparent(cfg, s, v);
    }
  }

  lemma PendingRow(rows: Table, list: seq<Row>, i: nat)
    requires i < |list| && Pending(rows, list, i)
    ensures list[i].id in rows && rows[list[i].id] == list[i].meta
  {
  }

  lemma EvictListEnds(cfg: Config, s: State, list: seq<nat>, cached: nat)
    requires (list == [] || cached <= cfg.low) && forall c :: c in list ==> c in s.rows
    ensures EvictList(cfg, s, list, cached) == []
  {
  }

  /** One pass of the eviction loop. */
  lemma EvictResume(cfg: Config, s0: State, t: seq<Effect>, s1: State, ids: seq<nat>, i: nat, cached: nat)
    requires i < |ids| && s1 == Run(s0, t) && cached > cfg.low && forall c :: c in ids[i..] ==> c in s1.rows
    ensures ids[i] in s1.rows
    ensures forall c :: c in ids[i + 1..] ==> c in Run(s1, EvictOne(s1, ids[i])).rows
    ensures t + EvictList(cfg, s1, ids[i..], cached)
         == (t + EvictOne(s1, ids[i]))
            + EvictList(cfg, Run(s1, EvictOne(s1, ids[i])), ids[i + 1..], SaturatingSub(cached, s1.rows[ids[i]].size))
    ensures Run(s0, t + EvictOne(s1, ids[i])) == Run(s1, EvictOne(s1, ids[i]))
    ensures Upserts(t + EvictOne(s1, ids[i])) == Upserts(t) + 1
  {
    hide Upserts, EvictOne;
    assert ids[i..][0] == ids[i] && ids[i..][1..] == ids[i + 1..] && ids[i] in ids[i..];
    assert forall c :: c in ids[i + 1..] ==> c in ids[i..];
    RunConcat(s0, t, EvictOne(s1, ids[i]));
    UpsertsOfEvictOne(s1, t, ids[i]);
  }

  // ---------------------------------------------------------------- reading

  /** One pass of the loop of `read_at`. */
  ghost function ReadOne(cfg: Config, s: State, sp: Span): Outcome<seq<byte>> {
    match Ensure(cfg, s, sp.chunkId)
    case Err(e) => Outcome([], Err(e))
    case Ok(t) =>
      var s1 := Run(s, t);
      if sp.chunkId !in s1.files || |s1.files[sp.chunkId]| < sp.offsetInChunk + sp.len then Outcome(t, Err(Io))
      else Outcome(t + Touch(s1, sp.chunkId), Ok(s1.files[sp.chunkId][sp.offsetInChunk..sp.offsetInChunk + sp.len]))
  }

  lemma ReadUnfold(cfg: Config, s: State, spans: seq<Span>)
    ensures spans == [] ==> ReadSpans(cfg, s, spans) == Outcome([], Ok([]))
    ensures spans != [] ==>
              var one := ReadOne(cfg, s, spans[0]);
              match one.result
              case Err(_) => ReadSpans(cfg, s, spans) == one
              case Ok(got) =>
                var rest := ReadSpans(cfg, Run(s, one.trace), spans[1..]);
                ReadSpans(cfg, s, spans)
                == Outcome(one.trace + rest.trace, if rest.result.Ok? then Ok(got + rest.result.value) else rest.result)
  {
    hide Ensure, Run, Touch;
  }

  /** The outcome of a read that has performed t and got some bytes, and goes on to o. */
  function AfterBytes(t: seq<Effect>, got: seq<byte>, o: Outcome<seq<byte>>): Outcome<seq<byte>> {
    Outcome(t + o.trace, if o.result.Ok? then Ok(got + o.result.value) else o.result)
  }

  lemma ReadStarts(o: Outcome<seq<byte>>)
    ensures AfterBytes([], [], o) == o
  {
    assert [] + o.trace == o.trace;
    if o.result.Ok? {
      assert [] + o.result.value == o.result.value;
    }
  }

  lemma ReadResume(cfg: Config, s0: State, t: seq<Effect>, s1: State, spans: seq<Span>, i: nat, got: seq<byte>)
    requires i < |spans| && s1 == Run(s0, t)
    ensures AfterBytes(t, got, ReadSpans(cfg, s1, spans[i..]))
         == var one := ReadOne(cfg, s1, spans[i]);
            match one.result
            case Err(e) => Outcome(t + one.trace, Err(e))
            case Ok(more) => AfterBytes(t + one.trace, got + more, ReadSpans(cfg, Run(s1, one.trace), spans[i + 1..]))
  {
    hide ReadOne, ReadSpans, Run;
    assert spans[i..][0] == spans[i] && spans[i..][1..] == spans[i + 1..];
    ReadUnfold(cfg, s1, spans[i..]);
    var one := ReadOne(cfg, s1, spans[i]);
    if one.result.Ok? {
      var rest := ReadSpans(cfg, Run(s1, one.trace), spans[i + 1..]);
      assert t + (one.trace + rest.trace) == (t + one.trace) + rest.trace;
      if rest.result.Ok? {
        assert got + (one.result.value + rest.result.value) == (got + one.result.value) + rest.result.value;
      }
    }
  }

  lemma ReadEnds(cfg: Config, s: State, t: seq<Effect>, got: seq<byte>)
    ensures AfterBytes(t, got, ReadSpans(cfg, s, [])) == Outcome(t, Ok(got))
  {
    assert t + [] == t && got + [] == got;
  }

  lemma CoversNext(spans: seq<Span>, i: nat, start: nat, len: nat, g: Geometry, at: nat)
    requires i < |spans| && Covers(spans[i..], start, len, g, at)
    ensures spans[i].requestOffset == at && spans[i].len <= len && Lands(spans[i], start, g)
    ensures Covers(spans[i + 1..], start + spans[i].len, len - spans[i].len, g, at + spans[i].len)
  {
    assert spans[i..][0] == spans[i] && spans[i..][1..] == spans[i + 1..];
  }

  lemma NothingLeft(spans: seq<Span>, i: nat, start: nat, len: nat, g: Geometry, at: nat)
    requires i == |spans| && Covers(spans[i..], start, len, g, at)
    ensures len == 0 && spans[i..] == []
  {
  }

  lemma AlwaysReads(cfg: Config, s: State, offset: nat, len: nat)
    ensures var o := Read(cfg, s, offset, len);
            forall v :: Represents(cfg, s, v) ==>
              && Represents(cfg, Run(s, o.trace), v)
              && (o.result.Ok? ==> offset + len <= |v| && Agrees(o.result.value, v[offset..offset + len]))
  {
    var o := Read(cfg, s, offset, len);
    forall v | Represents(cfg, s, v)
      ensures Represents(cfg, Run(s, o.trace), v)
      ensures o.result.Ok? ==> offset + len <= |v| && Agrees(o.result.value, v[offset..offset + len])
    {
      ReadCorrect(cfg, s, offset, len, v);
    }
  }

  // ---------------------------------------------------------------- writing

  function BeginEvent(s: State, sp: Span, before: nat): Event {
    WriteBegin(s.nextTxid, sp.chunkId, sp.offsetInChunk, sp.len, before, before + 1)
  }

  lemma CommitFits(s: State, sp: Span, before: nat)
    requires HasHeadroom(s, 1) && before == Look(s, sp.chunkId).Gen()
    requires sp.chunkId <= U64_MAX && sp.offsetInChunk <= U64_MAX && sp.len <= U64_MAX
    ensures Encodable(BeginEvent(s, sp, before)) && Encodable(LocalCommitted(s.nextTxid, sp.chunkId, before + 1))
  {
    GenBelow(s, sp.chunkId, 1);
  }

  lemma CommitRuns(cfg: Config, s: State, sp: Span, data: seq<byte>, before: nat)
    requires before == Look(s, sp.chunkId).Gen()
    ensures var c, n := sp.chunkId, cfg.geo.ChunkLen(sp.chunkId);
            var row, log := DirtyRow(n, before + 1, s.clock), LocalCommitted(s.nextTxid, c, before + 1);
            var begin, write := Append(BeginEvent(s, sp, before)), WriteFile(c, sp.offsetInChunk, data, n);
            && Commit(cfg, s, sp, data) == [begin, write, Upsert(c, row), Append(log)]
            && Run(s, Commit(cfg, s, sp, data))
                == Apply(Apply(Apply(Apply(s, begin), write), Upsert(c, row)), Append(log))
            && Apply(Apply(s, begin), write).clock == s.clock
  {
    hide Run, Overwrite, Look;
    var n := cfg.geo.ChunkLen(sp.chunkId);
    RunFour(s, Append(BeginEvent(s, sp, before)), WriteFile(sp.chunkId, sp.offsetInChunk, data, n),
            Upsert(sp.chunkId, DirtyRow(n, before + 1, s.clock)),
            Append(LocalCommitted(s.nextTxid, sp.chunkId, before + 1)));
  }

  /** The outcome of a loop that has performed t and goes on to o. */
  function AfterEffects<T>(t: seq<Effect>, o: Outcome<T>): Outcome<T> { Outcome(t + o.trace, o.result) }

  lemma WriteResume(cfg: Config, s0: State, t: seq<Effect>, s1: State, spans: seq<Span>, i: nat, data: seq<byte>)
    requires i < |spans| && s1 == Run(s0, t) && AllWithin(spans, data)
    ensures AllWithin(spans[i..], data) && AllWithin(spans[i + 1..], data)
    ensures AfterEffects(t, WriteSpans(cfg, s1, spans[i..], data))
         == match WriteSpan(cfg, s1, spans[i], data)
            case Err(e) => Outcome(t, Err(e))
            case Ok(one) => AfterEffects(t + one, WriteSpans(cfg, Run(s1, one), spans[i + 1..], data))
  {
    hide WriteSpan, Run;
    assert spans[i..][0] == spans[i] && spans[i..][1..] == spans[i + 1..];
    match WriteSpan(cfg, s1, spans[i], data)
    case Err(_) => assert t + [] == t;
    case Ok(one) =>
      var rest := WriteSpans(cfg, Run(s1, one), spans[i + 1..], data);
      assert t + (one + rest.trace) == (t + one) + rest.trace;
  }

  lemma WriteEndsLoop(cfg: Config, s: State, t: seq<Effect>, data: seq<byte>)
    ensures AfterEffects(t, WriteSpans(cfg, s, [], data)) == Outcome(t, Ok(()))
  {
    assert t + [] == t;
  }

  lemma WriteStarts<T>(o: Outcome<T>)
    ensures AfterEffects([], o) == o
  {
    assert [] + o.trace == o.trace;
  }

  lemma AlwaysWrites(cfg: Config, s: State, offset: nat, data: seq<byte>)
    ensures var o, done := Write(cfg, s, offset, data), Acknowledged(cfg, s, offset, data);
            forall v :: Represents(cfg, s, v) && CallerWriteGuard(cfg, s, offset, |data|) ==>
              && done <= |data| && (done > 0 ==> offset + done <= |v|)
              && Represents(cfg, Run(s, o.trace), if done == 0 then v else Put(v, offset, data[..done]))
              && (o.result.Ok? <==> offset + |data| <= |v| && done == |data|)
  {
    var o, done := Write(cfg, s, offset, data), Acknowledged(cfg, s, offset, data);
    forall v | Represents(cfg, s, v) && CallerWriteGuard(cfg, s, offset, |data|)
      ensures done <= |data| && (done > 0 ==> offset + done <= |v|)
      ensures Represents(cfg, Run(s, o.trace), if done == 0 then v else Put(v, offset, data[..done]))
      ensures o.result.Ok? <==> offset + |data| <= |v| && done == |data|
    {
      CallerGuardIsWriteGuard(cfg, s, offset, data, v);
      WriteCorrect(cfg, s, offset, data, v);
      ReachedIsPut(v, offset, data, done);
    }
  }

  lemma ReachedIsPut(v: Cells, offset: nat, data: seq<byte>, done: nat)
    requires done <= |data| && (done > 0 ==> offset + done <= |v|)
    ensures Reached(v, offset, data, Progress(done, 0)) == if done == 0 then v else Put(v, offset, data[..done])
  {
    if done > 0 {
      assert data[0..done] == data[..done];
      AdvanceNothing(Put(v, offset, data[..done]), offset + done, data, 0, 0);
    }
  }

  // ---------------------------------------------------------------- uploading

  /** The outcome of a sync that has performed t and uploaded n bytes, and goes on to o. */
  function AfterUploads(t: seq<Effect>, n: nat, o: Outcome<nat>): Outcome<nat> {
    Outcome(t + o.trace, if o.result.Ok? then Ok(n + o.result.value) else o.result)
  }

  lemma SyncUnfold(cfg: Config, s: State, ids: seq<nat>, i: nat)
    requires i < |ids| && forall c :: c in ids[i..] ==> c in s.rows
    ensures ids[i] in s.rows
    ensures var one := SyncOne(cfg, s, ids[i]);
            && (forall c :: c in ids[i + 1..] ==> c in Run(s, one.trace).rows)
            && (one.result.Err? ==> SyncList(cfg, s, ids[i..]) == one)
            && (one.result.Ok? ==>
                  SyncList(cfg, s, ids[i..])
                  == AfterUploads(one.trace, one.result.value, SyncList(cfg, Run(s, one.trace), ids[i + 1..])))
  {
    hide SyncOne;
    assert ids[i..][0] == ids[i] && ids[i..][1..] == ids[i + 1..] && ids[i] in ids[i..];
    assert forall c :: c in ids[i + 1..] ==> c in ids[i..];
  }

  lemma SyncResume(cfg: Config, s0: State, t: seq<Effect>, s1: State, ids: seq<nat>, i: nat, n: nat)
    requires i < |ids| && s1 == Run(s0, t) && forall c :: c in ids[i..] ==> c in s1.rows
    ensures ids[i] in s1.rows
    ensures forall c :: c in ids[i + 1..] ==> c in Run(s1, SyncOne(cfg, s1, ids[i]).trace).rows
    ensures AfterUploads(t, n, SyncList(cfg, s1, ids[i..]))
         == var one := SyncOne(cfg, s1, ids[i]);
            match one.result
            case Err(e) => Outcome(t + one.trace, Err(e))
            case Ok(k) => AfterUploads(t + one.trace, n + k, SyncList(cfg, Run(s1, one.trace), ids[i + 1..]))
  {
    hide SyncOne, SyncList, Run;
    SyncUnfold(cfg, s1, ids, i);
    var one := SyncOne(cfg, s1, ids[i]);
    if one.result.Ok? {
      var rest := SyncList(cfg, Run(s1, one.trace), ids[i + 1..]);
      assert t + (one.trace + rest.trace) == (t + one.trace) + rest.trace;
    }
  }

  lemma SyncEnds(cfg: Config, s: State, t: seq<Effect>, n: nat)
    ensures AfterUploads(t, n, SyncList(cfg, s, [])) == Outcome(t, Ok(n))
  {
    assert t + [] == t;
  }

  lemma SyncStarts(o: Outcome<nat>)
    ensures AfterUploads([], 0, o) == o
  {
    assert [] + o.trace == o.trace;
  }

  /** The effects of uploading one row, one after the other. */
  lemma SyncRuns(cfg: Config, s: State, c: nat)
    requires c in s.rows
    ensures var m := s.rows[c];
            var o := SyncOne(cfg, s, c);
            if !m.hasPath then o == Outcome([], Err(Corrupt))
            else if c !in s.files then
              var lost := Upsert(c, m.(state := ChunkState.Error, hasPath := false, size := 0, dirtySince := None));
              o == Outcome([lost], Err(Corrupt)) && Run(s, o.trace) == Apply(s, lost)
            else
              var uploading := Upsert(c, m.(state := Uploading));
              if c in s.down then
                var back := Upsert(c, m.(state := Dirty));
                o == Outcome([uploading, back], Err(Io)) && Run(s, o.trace) == Apply(Apply(s, uploading), back)
              else
                var data, generation, sum := s.files[c], m.localGen.GetOr(0), cfg.digest(s.files[c]);
                var clean := Upsert(c,
                                    m.(state := Clean, remoteGen := Some(generation), checksum := Some(sum),
                                       dirtySince := None));
                var log := Append(CloudCommitted(c, generation, sum));
                && o == Outcome([uploading, PutObject(c, data), clean, log], Ok(|data|))
                && Run(s, o.trace) == Apply(Apply(Apply(Apply(s, uploading), PutObject(c, data)), clean), log)
  {
    hide Run, Apply;
    var m := s.rows[c];
    if m.hasPath {
      if c !in s.files {
        RunOne(s, Upsert(c, m.(state := ChunkState.Error, hasPath := false, size := 0, dirtySince := None)));
      } else {
        var uploading := Upsert(c, m.(state := Uploading));
        if c in s.down {
          RunTwo(s, uploading, Upsert(c, m.(state := Dirty)));
        } else {
          var data, generation, sum := s.files[c], m.localGen.GetOr(0), cfg.digest(s.files[c]);
          var clean := Upsert(c,
                              m.(state := Clean, remoteGen := Some(generation), checksum := Some(sum),
                                 dirtySince := None));
          RunFour(s, uploading, PutObject(c, data), clean, Append(CloudCommitted(c, generation, sum)));
        }
      }
    }
  }

  lemma UpsertOnlyRows(s: State, c: nat, m: Meta)
    ensures Apply(s, Upsert(c, m)) == s.(rows := s.rows[c := m], clock := ClockAfter(s.clock, m))
  {
  }

  lemma CloudEventFits(cfg: Config, s: State, c: nat, data: seq<byte>)
    requires HasHeadroom(s, 0) && c in s.rows && GoodDigest(cfg)
    ensures Encodable(CloudCommitted(c, s.rows[c].localGen.GetOr(0), cfg.digest(data)))
  {
    DigestIsCarriable(cfg.digest(data));
  }

  lemma SyncHeadroom(cfg: Config, s: State, c: nat, n: nat)
    requires HasHeadroom(s, n) && c in s.rows
    ensures HasHeadroom(Run(s, SyncOne(cfg, s, c).trace), n)
  {
    assert Modest(SyncOne(cfg, s, c).trace, n);
    ModestKeeps(s, SyncOne(cfg, s, c).trace, n);
  }

  lemma SyncElsewhere(cfg: Config, s: State, c: nat)
    requires c in s.rows
    ensures var s1 := Run(s, SyncOne(cfg, s, c).trace);
            forall d :: d in s.rows && d != c ==> d in s1.rows && s1.rows[d] == s.rows[d]
  {
    hide Run;
    forall d | d in s.rows && d != c
      ensures var s1 := Run(s, SyncOne(cfg, s, c).trace); d in s1.rows && s1.rows[d] == s.rows[d]
    {
      Elsewhere(s, SyncOne(cfg, s, c).trace, c, d);
    }
  }

  lemma AlwaysSyncs(cfg: Config, s: State)
    ensures var o := Sync(cfg, s);
            forall v :: Represents(cfg, s, v) ==>
              && Represents(cfg, Run(s, o.trace), v)
              && (o.result.Ok? ==> NothingDirty(Run(s, o.trace)) && o.result.value == SyncCount(s))
  {
    hide Represents, Run, Sync, Bytes, OnDisk, NothingDirty;
    var o := Sync(cfg, s);
    forall v | Represents(cfg, s, v)
      ensures Represents(cfg, Run(s, o.trace), v)
      ensures o.result.Ok? ==> NothingDirty(Run(s, o.trace)) && o.result.value == SyncCount(s)
    {
      SyncTransparent(cfg, s, v);
      SyncDurable(cfg, s, v);
    }
  }

  // ---------------------------------------------------------------- validating and rebuilding

  /** In state s, with t performed and some findings made, what is left over the rows from i on completes both. */
  predicate Progresses(s0: State, ids: seq<nat>, s: State, i: nat, t: seq<Effect>, found: seq<Finding>)
    requires forall c :: c in ids ==> c in s0.rows
  {
    && i <= |ids|
    && (forall c :: c in ids[i..] ==> c in s.rows)
    && ValidateList(s0, ids) == t + ValidateList(s, ids[i..])
    && FindingsOf(s0, ids) == found + FindingsOf(s, ids[i..])
  }

  lemma ValidateStarts(s0: State, ids: seq<nat>)
    requires forall c :: c in ids ==> c in s0.rows
    ensures Progresses(s0, ids, s0, 0, [], [])
  {
    hide ValidateList, FindingsOf;
    assert ids[0..] == ids;
    assert [] + ValidateList(s0, ids) == ValidateList(s0, ids) && [] + FindingsOf(s0, ids) == FindingsOf(s0, ids);
  }

  lemma ValidateUnfold(s: State, ids: seq<nat>, i: nat)
    requires i < |ids| && forall c :: c in ids[i..] ==> c in s.rows
    ensures ids[i] in s.rows
    ensures var s' := Run(s, ValidateOne(s, ids[i]));
            && (forall c :: c in ids[i + 1..] ==> c in s'.rows)
            && ValidateList(s, ids[i..]) == ValidateOne(s, ids[i]) + ValidateList(s', ids[i + 1..])
            && FindingsOf(s, ids[i..]) == FindingOf(s, ids[i]) + FindingsOf(s', ids[i + 1..])
  {
    hide ValidateOne, FindingOf;
    assert ids[i..][0] == ids[i] && ids[i..][1..] == ids[i + 1..] && ids[i] in ids[i..];
    assert forall c :: c in ids[i + 1..] ==> c in ids[i..];
  }

  lemma ValidateResume(s0: State, t: seq<Effect>, s1: State, ids: seq<nat>, i: nat, found: seq<Finding>)
    requires forall c :: c in ids ==> c in s0.rows
    requires Progresses(s0, ids, s1, i, t, found) && i < |ids|
    ensures ids[i] in s1.rows
    ensures Progresses(s0, ids, Run(s1, ValidateOne(s1, ids[i])), i + 1, t + ValidateOne(s1, ids[i]),
                       found + FindingOf(s1, ids[i]))
  {
    hide ValidateOne, FindingOf, ValidateList, FindingsOf, Run;
    ValidateUnfold(s1, ids, i);
    var s2 := Run(s1, ValidateOne(s1, ids[i]));
    assert t + (ValidateOne(s1, ids[i]) + ValidateList(s2, ids[i + 1..]))
        == (t + ValidateOne(s1, ids[i])) + ValidateList(s2, ids[i + 1..]);
    assert found + (FindingOf(s1, ids[i]) + FindingsOf(s2, ids[i + 1..]))
        == (found + FindingOf(s1, ids[i])) + FindingsOf(s2, ids[i + 1..]);
  }

  lemma ValidateEnds(s0: State, ids: seq<nat>, s: State, t: seq<Effect>, found: seq<Finding>)
    requires forall c :: c in ids ==> c in s0.rows
    requires Progresses(s0, ids, s, |ids|, t, found)
    ensures t == ValidateList(s0, ids) && found == FindingsOf(s0, ids)
  {
    assert ids[|ids|..] == [];
    assert t + [] == t && found + [] == found;
  }

  /** What the maps built from the events scanned so far hold. */
  ghost predicate Scanned(latest: map<nat, nat>, committed: set<(nat, nat)>, events: seq<Event>) {
    && (forall c :: c in latest <==> LatestLocal(events, c).Some?)
    && (forall c :: c in latest ==> LatestLocal(events, c) == Some(latest[c]))
    && (forall c: nat, g: nat :: (c, g) in committed <==> g in Synced(events, c))
  }

  lemma ScanNext(latest: map<nat, nat>, committed: set<(nat, nat)>, events: seq<Event>, i: nat)
    requires i < |events| && Scanned(latest, committed, events[..i])
    ensures match events[i]
            case LocalCommitted(_, c, g) =>
              Scanned(latest[c := if c in latest then Max(latest[c], g) else g], committed, events[..i + 1])
            case CloudCommitted(c, g, _) => Scanned(latest, committed + {(c, g)}, events[..i + 1])
            case WriteBegin(_, _, _, _, _, _) => Scanned(latest, committed, events[..i + 1])
  {
    assert events[..i + 1] == events[..i] + [events[i]];
    forall c: nat
      ensures LatestLocal(events[..i + 1], c)
           == if events[i].LocalCommitted? && events[i].chunkId == c
              then Some(Max(LatestLocal(events[..i], c).GetOr(0), events[i].after)) else LatestLocal(events[..i], c)
      ensures Synced(events[..i + 1], c)
           == if events[i].CloudCommitted? && events[i].chunkId == c
              then Synced(events[..i], c) + {events[i].generation} else Synced(events[..i], c)
    {
      Snoc(events[..i], events[i], c);
    }
  }

  lemma ScanStarts()
    ensures Scanned(map[], {}, [])
  {
  }

  /** The keys are the journaled chunks, and each entry with its membership test is the summary. */
  lemma ScanIsSummary(latest: map<nat, nat>, committed: set<(nat, nat)>, events: seq<Event>, c: nat)
    requires Scanned(latest, committed, events)
    ensures c in latest <==> c in Journaled(events)
    ensures c in latest ==> Summarize(events, c) == Summary(Some(latest[c]), (c, latest[c]) in committed)
  {
    LatestLocalIsMax(events, c);
  }

  /** The keys visited so far, once each, and those that are left. */
  ghost predicate Visited(order: seq<nat>, keys: set<nat>, rest: set<nat>) {
    && (forall c :: c in order <==> c in keys - rest)
    && (forall i, j :: 0 <= i < j < |order| ==> order[i] != order[j])
  }

  lemma OrderStarts(cfg: Config, s: State, keys: set<nat>)
    ensures Visited([], keys, keys) && RebuildList(cfg, s, []) == []
  {
  }

  lemma VisitNext(order: seq<nat>, keys: set<nat>, rest: set<nat>, c: nat)
    requires Visited(order, keys, rest) && c in rest && rest <= keys
    ensures Visited(order + [c], keys, rest - {c})
  {
    forall d: nat
      ensures d in order + [c] <==> d in keys - (rest - {c})
    {
      assert d in order + [c] <==> d in order || d == c;
    }
  }

  lemma OrderEnds(order: seq<nat>, latest: map<nat, nat>, committed: set<(nat, nat)>, events: seq<Event>)
    requires Visited(order, latest.Keys, {}) && Scanned(latest, committed, events)
    ensures IsOrder(order, events)
  {
    forall c: nat
      ensures c in latest <==> c in Journaled(events)
    {
      ScanIsSummary(latest, committed, events, c);
    }
    assert latest.Keys - {} == latest.Keys;
  }

  lemma AlwaysRecovers(cfg: Config, s: State, order: seq<nat>)
    requires IsOrder(order, s.journal)
    ensures forall v :: Salvageable(cfg, s, v) ==> Represents(cfg, Run(s, Recover(cfg, s, order)), v)
  {
    forall v | Salvageable(cfg, s, v)
      ensures Represents(cfg, Run(s, Recover(cfg, s, order)), v)
    {
      RecoverRepresents(cfg, s, order, v);
    }
  }

  lemma AlwaysFscks(cfg: Config, s: State, order: seq<nat>)
    requires IsOrder(order, s.journal)
    ensures forall v :: Salvageable(cfg, s, v) ==> Represents(cfg, Run(s, Fsck(cfg, s, order)), v)
  {
    forall v | Salvageable(cfg, s, v)
      ensures Represents(cfg, Run(s, Fsck(cfg, s, order)), v)
    {
      FsckRepresents(cfg, s, order, v);
    }
  }

  lemma AlwaysReopens(cfg: Config, s: State, order: seq<nat>)
    requires IsOrder(order, s.journal)
    ensures forall v :: Salvageable(cfg, s, v) ==> Represents(cfg, Reopened(cfg, s, order), v)
  {
    forall v | Salvageable(cfg, s, v)
      ensures Represents(cfg, Reopened(cfg, s, order), v)
    {
      ReopenRepresents(cfg, s, order, v);
    }
  }
}
