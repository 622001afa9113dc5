/**
 * `CacheEngine`: the methods, with their loops, over the chunk files, the metadata database, the
 * journal file and the cloud. Each performs exactly the durable effects that module Operations
 * gives for it, in that order. `Now()` has the events that were logged: as long as the journal file is
 * sound, it reads as those, and everything proved about the effects, crashes included, holds. If its last
 * record has lost its newline, the file gets the same lines and reads otherwise (`WalMerge`, `Restart`).
 */
module Engine {
  import opened Wrappers
  import opened Mapper
  import opened Metadata
  import opened Wal
  import opened WalCodec
  import opened WalFile
  import opened Store
  import opened Volume
  import opened Operations
  import opened Safety
  import opened Writing
  import opened Guards
  import opened Runs
  import opened Durability
  import opened Headroom
  import opened Loops
  import opened CacheLimit
  import opened Serving
  import opened Success
  import opened Records
  import opened Uploads
  import opened Repairs

  class CacheEngine {
    const cfg: Config
    const db: MetadataDb
    const journal: Journal
    var files: map<nat, seq<byte>>
    var cloud: map<nat, seq<byte>>
    var down: set<nat>
    var clock: nat
    /** Every durable effect performed so far. */
    ghost var trace: seq<Effect>

    ghost function Now(): State
      reads this, db, journal
    {
      State(files, db.rows, journal.events, cloud, journal.nextTxid, clock, down)
    }

    ghost predicate Valid() {
      cfg.Valid() && GoodDigest(cfg)
    }

    /** The state as recovery finds it: the journal is what its file reads as. */
    ghost function Found(): State
      reads this, db, journal
    {
      if ReadText(journal.text).Ok? then Now().(journal := ReadText(journal.text).value) else Now()
    }

    /** The effects t, and no others, were performed since the state was s0 and the trace t0. */
    ghost predicate Performed(s0: State, t0: seq<Effect>, t: seq<Effect>)
      reads this, db, journal
    {
      Now() == Run(s0, t) && trace == t0 + t
    }

    lemma NothingPerformed()
      ensures Performed(Now(), trace, []) && Upserts([]) == 0
    {
      RunNothing(Now());
      assert trace + [] == trace;
    }

    lemma SoFar(s0: State, t0: seq<Effect>, t: seq<Effect>)
      requires Performed(s0, t0, t)
      ensures Now() == Run(s0, t) && trace == t0 + t
    {
    }

    /** First t, then `more`. */
    lemma Then(s0: State, t0: seq<Effect>, t: seq<Effect>, s1: State, t1: seq<Effect>, more: seq<Effect>)
      requires s1 == Run(s0, t) && t1 == t0 + t && Performed(s1, t1, more)
      ensures Performed(s0, t0, t + more) && Now() == Run(s1, more)
    {
      RunConcat(s0, t, more);
      assert (t0 + t) + more == t0 + (t + more);
    }

    /** As Performed, on the state that recovery finds. */
    ghost predicate Repaired(s0: State, t0: seq<Effect>, t: seq<Effect>)
      reads this, db, journal
    {
      Found() == Run(s0, t) && trace == t0 + t
    }

    lemma StillFound()
      ensures journal.Sound() ==> Found() == Now()
    {
      hide ReadText, LastLine;
    }

    lemma NothingRepaired()
      ensures Repaired(Found(), trace, [])
    {
      hide ReadText;
      RunNothing(Found());
      assert trace + [] == trace;
    }

    lemma RepairedSoFar(s0: State, t0: seq<Effect>, t: seq<Effect>)
      requires Repaired(s0, t0, t)
      ensures Found() == Run(s0, t) && trace == t0 + t
    {
      hide Found;
    }

    lemma ThenRepaired(s0: State, t0: seq<Effect>, t: seq<Effect>, s1: State, t1: seq<Effect>, more: seq<Effect>)
      requires s1 == Run(s0, t) && t1 == t0 + t && Repaired(s1, t1, more)
      ensures Repaired(s0, t0, t + more) && Found() == Run(s1, more)
    {
      hide Found;
      RunConcat(s0, t, more);
      assert (t0 + t) + more == t0 + (t + more);
    }

    /**
     * `CacheEngine::create`: a new volume, over a cloud backend that may hold objects already; if none is
     * longer than its chunk, the volume is what they hold, filled with zeroes.
     */
    constructor (cfg: Config, db: MetadataDb, journal: Journal, cloud: map<nat, seq<byte>>)
      requires cfg.Valid() && GoodDigest(cfg)
      requires journal.Sound() && journal.events == [] && journal.nextTxid == 1 && db.rows == map[]
      ensures this.cfg == cfg && this.db == db && this.journal == journal
      ensures Valid() && trace == [] && Now() == Created(cloud)
      ensures Fitting(cfg, cloud) ==> Represents(cfg, Now(), Known(Images(cfg, cloud)))
    {
      this.cfg, this.db, this.journal, this.cloud := cfg, db, journal, cloud;
      files, down, clock, trace := map[], {}, 0, [];
      new;
      if Fitting(cfg, cloud) {
        CreatedRepresents(cfg, cloud);
      }
    }

    // ---------------------------------------------------------------- single durable effects

    method PutFile(c: nat, data: seq<byte>)
      modifies this`files, this`trace
      ensures Now() == Apply(old(Now()), Effect.PutFile(c, data)) && trace == old(trace) + [Effect.PutFile(c, data)]
    {
      files := files[c := data];
      trace := trace + [Effect.PutFile(c, data)];
    }

    /** Opens or creates the file, writes at an offset and sets the length. */
    method WriteFile(c: nat, offset: nat, data: seq<byte>, len: nat)
      modifies this`files, this`trace
      ensures Now() == Apply(old(Now()), Effect.WriteFile(c, offset, data, len))
      ensures trace == old(trace) + [Effect.WriteFile(c, offset, data, len)]
    {
      var was := if c in files then files[c] else [];
      files := files[c := Overwrite(was, offset, data, len)];
      trace := trace + [Effect.WriteFile(c, offset, data, len)];
    }

    method SetLen(c: nat, len: nat)
      modifies this`files, this`trace
      ensures Now() == Apply(old(Now()), Effect.SetLen(c, len)) && trace == old(trace) + [Effect.SetLen(c, len)]
    {
      var was := if c in files then files[c] else [];
      files := files[c := Overwrite(was, 0, [], len)];
      trace := trace + [Effect.SetLen(c, len)];
    }

    method RemoveFile(c: nat)
      modifies this`files, this`trace
      ensures Now() == Apply(old(Now()), Effect.RemoveFile(c)) && trace == old(trace) + [Effect.RemoveFile(c)]
    {
      files := files - {c};
      trace := trace + [Effect.RemoveFile(c)];
    }

    method Upsert(c: nat, row: Meta)
      modifies db, this`clock, this`trace
      ensures Now() == Apply(old(Now()), Effect.Upsert(c, row)) && trace == old(trace) + [Effect.Upsert(c, row)]
      ensures Found() == Apply(old(Found()), Effect.Upsert(c, row))
    {
      hide ReadText;
      db.UpsertChunk(c, row);
      clock := ClockAfter(clock, row);
      trace := trace + [Effect.Upsert(c, row)];
    }

    method Log(e: Event)
      requires Encodable(e) && !e.WriteBegin?
      modifies journal`text, journal`events, this`trace
      ensures old(journal.Sound()) ==> journal.Sound() && Found() == Now()
      ensures Extends(old(journal.text), old(journal.events), journal.text, journal.events)
      ensures Now() == Apply(old(Now()), Append(e)) && trace == old(trace) + [Append(e)]
    {
      hide ReadText, LastLine, Extends, Encodable;
      EncodableFits(e);
      ExtendsByOne(journal.text, journal.events, e);
      journal.Append(e);
      trace := trace + [Append(e)];
      StillFound();
    }

    /** Takes the next transaction id and logs the WriteBegin that carries it. */
    method LogBegin(sp: Span, before: nat) returns (txid: nat)
      requires Encodable(BeginEvent(Now(), sp, before))
      modifies journal, this`trace
      ensures old(journal.Sound()) ==> journal.Sound() && Found() == Now()
      ensures Extends(old(journal.text), old(journal.events), journal.text, journal.events)
      ensures txid == old(journal.nextTxid)
      ensures Now() == Apply(old(Now()), Append(BeginEvent(old(Now()), sp, before)))
      ensures trace == old(trace) + [Append(BeginEvent(old(Now()), sp, before))]
    {
      hide ReadText, LastLine, Extends, Encodable;
      txid := journal.NextTxid();
      var e := WriteBegin(txid, sp.chunkId, sp.offsetInChunk, sp.len, before, before + 1);
      EncodableFits(e);
      ExtendsByOne(journal.text, journal.events, e);
      journal.Append(e);
      trace := trace + [Append(e)];
      StillFound();
    }

    /** `upload_chunk`: fails, with nothing stored, while the backend is down for the chunk. */
    method UploadChunk(c: nat, data: seq<byte>) returns (r: Result<string>)
      modifies this`cloud, this`trace
      ensures c in down ==> r == Err(Io) && Now() == old(Now()) && trace == old(trace)
      ensures c !in down ==> r == Ok(cfg.digest(data)) && Now() == Apply(old(Now()), PutObject(c, data))
                             && trace == old(trace) + [PutObject(c, data)]
    {
      if c in down {
        return Err(Io);
      }
      cloud := cloud[c := data];
      trace := trace + [PutObject(c, data)];
      return Ok(cfg.digest(data));
    }

    method FetchChunk(c: nat, size: nat) returns (r: Result<Option<seq<byte>>>)
      requires size == cfg.geo.ChunkLen(c)
      ensures match Fetch(cfg, Now(), c)
              case Err(e) => r == Err(e)
              case Ok(data) => r.Ok? && data == r.value.GetOr(Zeroes(size))
    {
      if c in down {
        return Err(Io);
      }
      if c !in cloud {
        return Ok(None);
      }
      if |cloud[c]| != size {
        return Err(Corrupt);
      }
      return Ok(Some(cloud[c]));
    }

    // ---------------------------------------------------------------- geometry

    method ChunkLen(c: nat) returns (n: nat)
      ensures n == cfg.geo.ChunkLen(c)
    {
      StartIs(cfg.geo, c);
      var start := c * cfg.geo.chunk;
      var remaining := SaturatingSub(cfg.geo.volume, start);
      n := Min(remaining, cfg.geo.chunk);
    }

    method TotalChunks() returns (n: nat)
      requires cfg.Valid()
      ensures n == cfg.geo.TotalChunks() && cfg.geo.LengthUpTo(n) == cfg.geo.volume
    {
      ChunksCoverVolume(cfg.geo);
      n := cfg.geo.volume / cfg.geo.chunk + if cfg.geo.volume % cfg.geo.chunk == 0 then 0 else 1;
    }

    // ---------------------------------------------------------------- eviction

    method EvictRow(c: nat, m: Meta)
      requires c in db.rows && db.rows[c] == m
      modifies this`files, this`clock, this`trace, db
      ensures Performed(old(Now()), old(trace), EvictOne(old(Now()), c))
      ensures forall d :: d in old(db.rows) && d != c ==> d in db.rows && db.rows[d] == old(db.rows)[d]
    {
      ghost var s0 := Now();
      var row := m.(hasPath := false, state := Missing, size := 0, lastAccess := clock, dirtySince := None);
      RunOne(s0, Effect.Upsert(c, row));
      if m.hasPath && c in files {
        RunOne(s0, Effect.RemoveFile(c));
        RunSnoc(s0, [Effect.RemoveFile(c)], Effect.Upsert(c, row));
        RemoveFile(c);
      }
      Upsert(c, row);
    }

    /** `evict_if_needed`. */
    method EvictIfNeeded() returns (evicted: nat)
      requires Valid()
      modifies this`files, this`clock, this`trace, db
      ensures Performed(old(Now()), old(trace), Evict(cfg, old(Now())))
      ensures EvictedExactly(cfg, old(Now()), Now()) && evicted == |Gone(old(Now()), Now())|
      ensures forall v :: Represents(cfg, old(Now()), v) ==> Represents(cfg, Now(), v)
    {
      hide Run, Represents, EvictOne, CachedBytes, EvictableCleanChunks, RowsOf, Answers, EvictList, Upserts, Pending,
           Performed, EvictedExactly, Gone;
      ghost var s0 := Now();
      AlwaysTransparent(cfg, s0);
      EvictsExactly(cfg, s0);
      var total := TotalChunks();
      var stats := db.Stats(total);
      if stats.cachedBytes <= cfg.cacheMax {
        NothingPerformed();
        SoFar(s0, trace, []);
        assert Evict(cfg, s0) == [];
        return 0;
      }
      var list := db.QueryEvictable();
      EvictableAnswer(db.rows, list);
      EvictablePending(s0.rows);
      evicted := EvictRows(list, stats.cachedBytes);
      SoFar(s0, old(trace), Evict(cfg, s0));
    }

    /** Its loop over the rows, oldest access first. */
    method EvictRows(list: seq<Row>, cachedBytes: nat) returns (evicted: nat)
      requires Valid() && Pending(db.rows, list, 0)
      modifies this`files, this`clock, this`trace, db
      ensures forall c :: c in Ids(list) ==> c in old(db.rows)
      ensures Performed(old(Now()), old(trace), EvictList(cfg, old(Now()), Ids(list), cachedBytes))
      ensures evicted == Upserts(EvictList(cfg, old(Now()), Ids(list), cachedBytes))
    {
      hide Run, EvictOne, EvictList, Upserts, Pending, Performed, GoodDigest, ReadText, LastLine, Extends;
      ghost var s0, t0, ids, t := Now(), trace, Ids(list), [];
      evicted := 0;
      var cached: nat := cachedBytes;
      var i: nat := 0;
      NothingPerformed();
      AllIn(db.rows, list);
      ghost var whole := EvictList(cfg, s0, ids, cached);
      assert ids[0..] == ids && t + whole == whole;
      while i < |list| && cached > cfg.low
        invariant i <= |list| && Pending(db.rows, list, i)
        invariant Performed(s0, t0, t) && evicted == Upserts(t)
        invariant forall c :: c in ids[i..] ==> c in db.rows
        invariant whole == t + EvictList(cfg, Now(), ids[i..], cached)
        decreases |list| - i
      {
        ghost var s1, t1 := Now(), trace;
        var c, m := list[i].id, list[i].meta;
        PendingRow(db.rows, list, i);
        SoFar(s0, t0, t);
        EvictRow(c, m);
        Then(s0, t0, t, s1, t1, EvictOne(s1, c));
        EvictResume(cfg, s0, t, s1, ids, i, cached);
        PendingNext(s1.rows, db.rows, list, i);
        cached := SaturatingSub(cached, m.size);
        t := t + EvictOne(s1, c);
        evicted := evicted + 1;
        i := i + 1;
      }
      EvictListEnds(cfg, Now(), ids[i..], cached);
      assert t + [] == t;
    }

    // ---------------------------------------------------------------- fetching

    /** `ensure_chunk_for_read`. */
    method EnsureChunkForRead(c: nat) returns (r: Result<()>)
      requires Valid()
      modifies this`files, this`clock, this`trace, db
      ensures match Ensure(cfg, old(Now()), c)
              case Err(e) => r == Err(e) && Performed(old(Now()), old(trace), [])
              case Ok(t) => r == Ok(()) && Performed(old(Now()), old(trace), t)
      ensures Ensured(cfg, old(Now()), c, r) && EnsuredState(cfg, old(Now()), Now(), c, r)
      ensures r.Ok? && !Held(old(Now()), c) ==> WithinLimit(cfg, db.rows)
    {
      hide Run, Evict, Represents, Performed, GoodDigest, ReadText, LastLine, Extends, EvictedExactly, WasFetched,
           WithinLimit, CacheOnly;
      ghost var s0, t0 := Now(), trace;
      EnsuresExactly(cfg, s0, c);
      NothingPerformed();
      SoFar(s0, t0, []);
      var m := db.GetChunk(c);
      if m.Some? {
        if m.value.state == ChunkState.Error {
          return Err(Corrupt);
        }
        if (m.value.state == Clean || m.value.state == Dirty) && m.value.hasPath && c in files {
          return Ok(());
        }
      }
      var size := ChunkLen(c);
      var got := FetchChunk(c, size);
      if got.Err? {
        return Err(got.error);
      }
      ghost var t := FetchTrace(cfg, s0, c, got.value.GetOr(Zeroes(size)));
      Install(c, got.value.GetOr(Zeroes(size)), size);
      ghost var s1, t1 := Now(), trace;
      SoFar(s0, t0, t);
      var evicted := EvictIfNeeded();
      Then(s0, t0, t, s1, t1, Evict(cfg, s1));
      SoFar(s0, t0, t + Evict(cfg, s1));
      FetchedWithin(cfg, s0, Now(), c);
      return Ok(());
    }

    /** The fetched bytes go to a tmp file that is renamed, then the row becomes Clean. */
    method Install(c: nat, data: seq<byte>, size: nat)
      requires size == cfg.geo.ChunkLen(c)
      modifies this`files, this`clock, this`trace, db
      ensures Performed(old(Now()), old(trace), FetchTrace(cfg, old(Now()), c, data))
    {
      var row := Meta(true, Clean, size, None, None, Some(cfg.digest(data)), clock, None, 0);
      RunTwo(Now(), Effect.PutFile(c, data), Effect.Upsert(c, row));
      PutFile(c, data);
      Upsert(c, row);
    }

    // ---------------------------------------------------------------- read_at

    /** `read_exact`: fails if the file is too short. */
    method ReadExact(file: seq<byte>, from: nat, out: array<byte>, at: nat, n: nat) returns (ok: bool)
      requires at + n <= out.Length
      modifies out
      ensures ok <==> from + n <= |file|
      ensures ok ==> out[..at + n] == old(out[..at]) + file[from..from + n]
    {
      if |file| < from + n {
        return false;
      }
      forall k | 0 <= k < n {
        out[at + k] := file[from + k];
      }
      return true;
    }

    method UpdateAccess(c: nat)
      modifies db, this`clock, this`trace
      ensures Performed(old(Now()), old(trace), Touch(old(Now()), c))
    {
      var m := db.GetChunk(c);
      if m.Some? {
        var row := m.value.(lastAccess := clock);
        RunOne(Now(), Effect.Upsert(c, row));
        db.UpdateAccess(c, clock);
        clock := ClockAfter(clock, row);
        trace := trace + [Effect.Upsert(c, row)];
      }
    }

    /** One pass of the loop of `read_at`. */
    method ReadSpan(sp: Span, out: array<byte>) returns (r: Result<()>)
      requires Valid() && sp.requestOffset + sp.len <= out.Length
      modifies this`files, this`clock, this`trace, db, out
      ensures var one := ReadOne(cfg, old(Now()), sp);
              && Performed(old(Now()), old(trace), one.trace)
              && match one.result
                 case Err(e) => r == Err(e)
                 case Ok(got) => r == Ok(()) && out[..sp.requestOffset + sp.len] == old(out[..sp.requestOffset]) + got
    {
      hide Run, Ensure, Touch, Performed, GoodDigest, ReadText, LastLine, Extends, Ensured,
           EnsuredState, Held, WithinLimit;
      ghost var s0, t0 := Now(), trace;
      NothingPerformed();
      r := EnsureChunkForRead(sp.chunkId);
      if r.Err? {
        return;
      }
      ghost var t := Ensure(cfg, s0, sp.chunkId).value;
      SoFar(s0, t0, t);
      if sp.chunkId !in files {
        return Err(Io);
      }
      var ok := ReadExact(files[sp.chunkId], sp.offsetInChunk, out, sp.requestOffset, sp.len);
      if !ok {
        return Err(Io);
      }
      ghost var s1, t1 := Now(), trace;
      UpdateAccess(sp.chunkId);
      Then(s0, t0, t, s1, t1, Touch(s1, sp.chunkId));
      return Ok(());
    }

    /** `read_at`: the bytes returned, if any, are bytes that the volume allows. */
    method ReadAt(offset: nat, len: nat) returns (r: Result<seq<byte>>)
      requires Valid() && offset <= U64_MAX && len <= U64_MAX
      modifies this`files, this`clock, this`trace, db
      ensures Performed(old(Now()), old(trace), Read(cfg, old(Now()), offset, len).trace)
      ensures r == Read(cfg, old(Now()), offset, len).result
      ensures forall v :: Represents(cfg, old(Now()), v) ==>
                && Represents(cfg, Now(), v)
                && (r.Ok? ==> offset + len <= |v| && Agrees(r.value, v[offset..offset + len]))
      ensures offset + len > cfg.geo.volume ==> r == Err(InvalidArgument)
      ensures WithinLimit(cfg, old(db.rows)) ==> WithinLimit(cfg, db.rows)
    {
      hide Run, Represents, ReadSpans, Covers, Performed, GoodDigest, ReadText, LastLine, Agrees, WithinLimit;
      ghost var s0 := Now();
      AlwaysReads(cfg, s0, offset, len);
      if WithinLimit(cfg, s0.rows) {
        ReadKeepsLimit(cfg, s0, offset, len);
      }
      NothingPerformed();
      SoFar(s0, trace, []);
      var spans := Split(offset, len, cfg.geo);
      if spans.Err? {
        return Err(spans.error);
      }
      SpansCover(offset, len, cfg.geo);
      var out := new byte[len];
      r := ReadInto(spans.value, offset, out);
      SoFar(s0, old(trace), Read(cfg, s0, offset, len).trace);
    }

    /** Its loop over the spans, filling the buffer from left to right. */
    method ReadInto(spans: seq<Span>, ghost start: nat, out: array<byte>) returns (r: Result<seq<byte>>)
      requires Valid() && Covers(spans, start, out.Length, cfg.geo, 0)
      modifies this`files, this`clock, this`trace, db, out
      ensures Performed(old(Now()), old(trace), ReadSpans(cfg, old(Now()), spans).trace)
      ensures r == ReadSpans(cfg, old(Now()), spans).result
    {
      hide Run, ReadOne, ReadSpans, Covers, Performed, GoodDigest, ReadText, LastLine, AfterBytes;
      ghost var s0, t0, t, at: nat := Now(), trace, [], 0;
      ghost var whole := ReadSpans(cfg, s0, spans);
      var i: nat := 0;
      NothingPerformed();
      ReadStarts(whole);
      assert spans[0..] == spans && out[..0] == [];
      while i < |spans|
        invariant i <= |spans| && at <= out.Length
        invariant Performed(s0, t0, t) && Covers(spans[i..], start + at, out.Length - at, cfg.geo, at)
        invariant whole == AfterBytes(t, out[..at], ReadSpans(cfg, Now(), spans[i..]))
      {
        ghost var s1, t1, got := Now(), trace, out[..at];
        SoFar(s0, t0, t);
        CoversNext(spans, i, start + at, out.Length - at, cfg.geo, at);
        ReadResume(cfg, s0, t, s1, spans, i, got);
        var one := ReadSpan(spans[i], out);
        Then(s0, t0, t, s1, t1, ReadOne(cfg, s1, spans[i]).trace);
        if one.Err? {
          return Err(one.error);
        }
        t := t + ReadOne(cfg, s1, spans[i]).trace;
        at := at + spans[i].len;
        i := i + 1;
      }
      ReadEnds(cfg, Now(), t, out[..at]);
      NothingLeft(spans, i, start + at, out.Length - at, cfg.geo, at);
      assert out[..at] == out[..];
      return Ok(out[..]);
    }

    // ---------------------------------------------------------------- write_at

    /** `prepare_empty_chunk`. */
    method PrepareEmptyChunk(c: nat)
      modifies this`files, this`trace
      ensures Performed(old(Now()), old(trace), EmptyChunk(cfg, c))
    {
      hide Run, Apply, Overwrite;
      var n := ChunkLen(c);
      RunTwo(Now(), Effect.PutFile(c, []), Effect.SetLen(c, n));
      PutFile(c, []);
      SetLen(c, n);
    }

    method PrepareSpan(sp: Span) returns (r: Result<()>)
      requires Valid()
      modifies this`files, this`clock, this`trace, db
      ensures match Prepare(cfg, old(Now()), sp)
              case Err(e) => r == Err(e) && Performed(old(Now()), old(trace), [])
              case Ok(t) => r == Ok(()) && Performed(old(Now()), old(trace), t)
    {
      hide Run, Ensure, Performed, GoodDigest, ReadText, LastLine, Extends, Ensured,
           EnsuredState, Held, WithinLimit;
      var size := ChunkLen(sp.chunkId);
      if sp.offsetInChunk == 0 && sp.len == size {
        PrepareEmptyChunk(sp.chunkId);
        return Ok(());
      }
      r := EnsureChunkForRead(sp.chunkId);
    }

    /** WriteBegin, the bytes, the row, LocalCommitted. */
    method CommitSpan(sp: Span, data: seq<byte>)
      requires Valid() && HasHeadroom(Now(), 1)
      requires sp.chunkId <= U64_MAX && sp.offsetInChunk <= U64_MAX && sp.len <= U64_MAX
      modifies this`files, this`clock, this`trace, db, journal
      ensures old(journal.Sound()) ==> journal.Sound() && Found() == Now()
      ensures Extends(old(journal.text), old(journal.events), journal.text, journal.events)
      ensures Performed(old(Now()), old(trace), Commit(cfg, old(Now()), sp, data))
    {
      hide Run, Apply, Commit, HasHeadroom, GoodDigest, ReadText, LastLine, Extends, Encodable, Overwrite, Found;
      ghost var s0, t0 := Now(), trace;
      var c := sp.chunkId;
      var size := ChunkLen(c);
      var m := db.GetChunk(c);
      var before := if m.Some? then m.value.localGen.GetOr(0) else 0;
      CommitFits(s0, sp, before);
      CommitRuns(cfg, s0, sp, data, before);
      var txid := LogBegin(sp, before);
      ghost var text1, events1 := journal.text, journal.events;
      WriteFile(c, sp.offsetInChunk, data, size);
      Upsert(c, Meta(true, Dirty, size, None, Some(before + 1), None, clock, Some(clock + 1), 0));
      Log(LocalCommitted(txid, c, before + 1));
      ExtendsTrans(old(journal.text), old(journal.events), text1, events1, journal.text, journal.events);
    }

    /** One pass of the loop of `write_at`. */
    method WriteOneSpan(sp: Span, data: seq<byte>) returns (r: Result<()>)
      requires Valid() && Within(sp, data) && HasHeadroom(Now(), 1)
      requires sp.chunkId <= U64_MAX && sp.offsetInChunk <= U64_MAX && sp.len <= U64_MAX
      modifies this`files, this`clock, this`trace, db, journal
      ensures old(journal.Sound()) ==> journal.Sound() && Found() == Now()
      ensures Extends(old(journal.text), old(journal.events), journal.text, journal.events)
      ensures match WriteSpan(cfg, old(Now()), sp, data)
              case Err(e) => r == Err(e) && Performed(old(Now()), old(trace), [])
              case Ok(t) => r == Ok(()) && Performed(old(Now()), old(trace), t)
    {
      hide Run, Prepare, Commit, Performed, HasHeadroom, GoodDigest, ReadText, LastLine, Extends;
      ghost var s0, t0 := Now(), trace;
      ExtendsSelf(journal.text, journal.events);
      r := PrepareSpan(sp);
      StillFound();
      if r.Err? {
        return;
      }
      ghost var t := Prepare(cfg, s0, sp).value;
      SoFar(s0, t0, t);
      PrepareHeadroom(cfg, s0, sp, 1);
      ghost var s1, t1 := Now(), trace;
      CommitSpan(sp, data[sp.requestOffset..sp.requestOffset + sp.len]);
      Then(s0, t0, t, s1, t1, Commit(cfg, s1, sp, SpanData(sp, data)));
    }

    /**
     * `write_at`: under the caller's guard, on Ok exactly the bytes of the request are replaced, on
     * Err exactly those of the spans before the failing one.
     */
    method WriteAt(offset: nat, data: seq<byte>) returns (r: Result<()>)
      requires Valid() && offset <= U64_MAX && |data| <= U64_MAX && HasHeadroom(Now(), |data|)
      modifies this`files, this`clock, this`trace, db, journal
      ensures old(journal.Sound()) ==> journal.Sound() && Found() == Now()
      ensures Extends(old(journal.text), old(journal.events), journal.text, journal.events)
      ensures Performed(old(Now()), old(trace), Write(cfg, old(Now()), offset, data).trace)
      ensures r == Write(cfg, old(Now()), offset, data).result
      ensures forall n: nat :: HasHeadroom(old(Now()), |data| + n) ==> HasHeadroom(Now(), n)
      ensures forall v :: Represents(cfg, old(Now()), v) && CallerWriteGuard(cfg, old(Now()), offset, |data|) ==>
                var done := Acknowledged(cfg, old(Now()), offset, data);
                && done <= |data| && (done > 0 ==> offset + done <= |v|)
                && Represents(cfg, Now(), if done == 0 then v else Put(v, offset, data[..done]))
                && (r.Ok? <==> offset + |data| <= |v| && done == |data|)
      ensures WriteAnswer(cfg, old(Now()), offset, data, r)
      ensures exists k: nat :: WroteFirst(cfg, old(Now()), Now(), offset, data, k, r)
      ensures r.Ok? ==> WithinLimit(cfg, db.rows)
    {
      hide Run, Represents, WriteSpans, Covers, HasHeadroom, CallerWriteGuard, Acknowledged, Put, Performed, Evict,
           GoodDigest, ReadText, LastLine, Extends, Spans, WriteAnswer, WroteFirst, WithinLimit, EvictedExactly, Gone;
      ghost var s0, t0 := Now(), trace;
      WriteSucceedsExactly(cfg, s0, offset, data);
      ghost var k := WritesExactly(cfg, s0, offset, data);
      ExtendsSelf(journal.text, journal.events);
      StillFound();
      AlwaysWrites(cfg, s0, offset, data);
      WriteHeadroom(cfg, s0, offset, data);
      NothingPerformed();
      SoFar(s0, t0, []);
      var spans := Split(offset, |data|, cfg.geo);
      if spans.Err? {
        r := Err(spans.error);
        assert r == Write(cfg, s0, offset, data).result && Write(cfg, s0, offset, data).trace == [];
        assert WroteFirst(cfg, s0, Now(), offset, data, k, r);
        return;
      }
      SpansCover(offset, |data|, cfg.geo);
      SpansWithin(offset, data, cfg.geo);
      SpansSmall(spans.value, offset, |data|, cfg.geo, 0);
      LessHeadroom(s0, |data|, |spans.value|);
      r := WriteLoop(spans.value, data);
      ghost var t := WriteSpans(cfg, s0, spans.value, data).trace;
      SoFar(s0, t0, t);
      if r.Ok? {
        ghost var s1, t1 := Now(), trace;
        var evicted := EvictIfNeeded();
        Then(s0, t0, t, s1, t1, Evict(cfg, s1));
        SoFar(s0, t0, t + Evict(cfg, s1));
        EvictionIsCacheOnly(cfg, s1, Now());
        StillFound();
        assert r.value == ();
      }
    }

    /** Its loop over the spans. */
    method WriteLoop(spans: seq<Span>, data: seq<byte>) returns (r: Result<()>)
      requires Valid() && AllWithin(spans, data) && HasHeadroom(Now(), |spans|)
      requires forall i :: 0 <= i < |spans| ==>
                 spans[i].chunkId <= U64_MAX && spans[i].offsetInChunk <= U64_MAX && spans[i].len <= U64_MAX
      modifies this`files, this`clock, this`trace, db, journal
      ensures old(journal.Sound()) ==> journal.Sound() && Found() == Now()
      ensures Extends(old(journal.text), old(journal.events), journal.text, journal.events)
      ensures Performed(old(Now()), old(trace), WriteSpans(cfg, old(Now()), spans, data).trace)
      ensures r == WriteSpans(cfg, old(Now()), spans, data).result
    {
      hide Run, WriteSpan, WriteSpans, HasHeadroom, Performed, GoodDigest, ReadText, LastLine, Extends, AfterEffects;
      ghost var s0, t0, t := Now(), trace, [];
      ghost var whole := WriteSpans(cfg, s0, spans, data);
      var i: nat := 0;
      NothingPerformed();
      WriteStarts(whole);
      assert spans[0..] == spans;
      ExtendsSelf(journal.text, journal.events);
      while i < |spans|
        invariant old(journal.Sound()) ==> journal.Sound()
        invariant Extends(old(journal.text), old(journal.events), journal.text, journal.events)
        invariant i <= |spans| && HasHeadroom(Now(), |spans| - i)
        invariant Performed(s0, t0, t) && AllWithin(spans[i..], data)
        invariant whole == AfterEffects(t, WriteSpans(cfg, Now(), spans[i..], data))
      {
        ghost var s1, t1 := Now(), trace;
        SoFar(s0, t0, t);
        WriteResume(cfg, s0, t, s1, spans, i, data);
        LessHeadroom(s1, |spans| - i, 1);
        ghost var text1, events1 := journal.text, journal.events;
        var one := WriteOneSpan(spans[i], data);
        ExtendsTrans(old(journal.text), old(journal.events), text1, events1, journal.text, journal.events);
        StillFound();
        if one.Err? {
          Then(s0, t0, t, s1, t1, []);
          assert t + [] == t;
          return Err(one.error);
        }
        ghost var did := WriteSpan(cfg, s1, spans[i], data).value;
        SpanHeadroom(cfg, s1, spans[i], data, |spans| - i - 1);
        Then(s0, t0, t, s1, t1, did);
        t := t + did;
        i := i + 1;
      }
      StillFound();
      WriteEndsLoop(cfg, Now(), t, data);
      assert spans[i..] == [];
      return Ok(());
    }

    // ---------------------------------------------------------------- sync_dirty

    /** One pass of the loop of `sync_dirty`, over a row as the query returned it. */
    method SyncRow(c: nat, m: Meta) returns (r: Result<nat>)
      requires Valid() && c in db.rows && db.rows[c] == m && HasHeadroom(Now(), 0)
      modifies this`files, this`cloud, this`clock, this`trace, db, journal`text, journal`events
      ensures old(journal.Sound()) ==> journal.Sound() && Found() == Now()
      ensures Extends(old(journal.text), old(journal.events), journal.text, journal.events)
      ensures var one := SyncOne(cfg, old(Now()), c); Performed(old(Now()), old(trace), one.trace) && r == one.result
      ensures m.state == Dirty ==>
                && UploadsFirst(cfg, old(Now()), Now(), [c], if Uploadable(old(Now()), c) then 1 else 0)
                && UploadAnswer(old(Now()), [c], if Uploadable(old(Now()), c) then 1 else 0, r)
    {
      hide Run, Apply, HasHeadroom, GoodDigest, ReadText, LastLine, Extends, Encodable, SyncOne, Found, UploadsFirst,
           UploadAnswer, Uploadable;
      ghost var s0 := Now();
      if m.state == Dirty {
        SyncOneExactly(cfg, s0, c);
      }
      SyncRuns(cfg, s0, c);
      NothingPerformed();
      ExtendsSelf(journal.text, journal.events);
      StillFound();
      if !m.hasPath {
        return Err(Corrupt);
      }
      if c !in files {
        Upsert(c, m.(state := ChunkState.Error, hasPath := false, size := 0, dirtySince := None));
        StillFound();
        return Err(Corrupt);
      }
      var data := files[c];
      var generation := m.localGen.GetOr(0);
      CloudEventFits(cfg, s0, c, data);
      Upsert(c, m.(state := Uploading));
      UpsertOnlyRows(s0, c, m.(state := Uploading));
      var sum := UploadChunk(c, data);
      if sum.Err? {
        Upsert(c, m.(state := Dirty));
        StillFound();
        return Err(sum.error);
      }
      Upsert(c, m.(state := Clean, remoteGen := Some(generation), checksum := Some(sum.value), dirtySince := None));
      Log(CloudCommitted(c, generation, sum.value));
      return Ok(|data|);
    }

    /** `sync_dirty`: on Ok nothing is left dirty, and the count is the dirty bytes there were. */
    method SyncDirty() returns (r: Result<nat>)
      requires Valid() && HasHeadroom(Now(), 0)
      modifies this`files, this`cloud, this`clock, this`trace, db, journal`text, journal`events
      ensures old(journal.Sound()) ==> journal.Sound() && Found() == Now()
      ensures Extends(old(journal.text), old(journal.events), journal.text, journal.events)
      ensures Performed(old(Now()), old(trace), Sync(cfg, old(Now())).trace)
      ensures r == Sync(cfg, old(Now())).result
      ensures forall v :: Represents(cfg, old(Now()), v) ==>
                && Represents(cfg, Now(), v)
                && (r.Ok? ==> NothingDirty(Now()) && r.value == SyncCount(old(Now())))
      ensures exists mid, list, k: nat :: SyncedExactly(cfg, old(Now()), mid, Now(), list, k, r)
      ensures r.Ok? ==> WithinLimit(cfg, db.rows)
    {
      hide Run, Represents, SyncOne, SyncList, Evict, HasHeadroom, Performed, GoodDigest, ReadText, LastLine,
           Extends, DirtyChunks, RowsOf, Answers, Pending, NothingDirty, Bytes, SyncedExactly, EvictedExactly, Gone,
           WithinLimit;
      ghost var s0, t0 := Now(), trace;
      AlwaysSyncs(cfg, s0);
      ghost var mid, dirty, k := SyncsExactly(cfg, s0);
      var list := db.QueryDirty();
      DirtyAnswer(db.rows, list);
      DirtyPending(s0.rows);
      r := SyncLoop(list);
      ghost var t := SyncList(cfg, s0, DirtyChunks(s0.rows)).trace;
      SoFar(s0, t0, t);
      if r.Ok? {
        ghost var s1, t1 := Now(), trace;
        var evicted := EvictIfNeeded();
        Then(s0, t0, t, s1, t1, Evict(cfg, s1));
        SoFar(s0, t0, t + Evict(cfg, s1));
        EvictionIsCacheOnly(cfg, s1, Now());
        StillFound();
      }
    }

    /** Its loop over the rows. */
    method SyncLoop(list: seq<Row>) returns (r: Result<nat>)
      requires Valid() && HasHeadroom(Now(), 0) && Pending(db.rows, list, 0)
      modifies this`files, this`cloud, this`clock, this`trace, db, journal`text, journal`events
      ensures old(journal.Sound()) ==> journal.Sound() && Found() == Now()
      ensures Extends(old(journal.text), old(journal.events), journal.text, journal.events)
      ensures forall c :: c in Ids(list) ==> c in old(db.rows)
      ensures Performed(old(Now()), old(trace), SyncList(cfg, old(Now()), Ids(list)).trace)
      ensures r == SyncList(cfg, old(Now()), Ids(list)).result
    {
      hide Run, SyncOne, SyncList, HasHeadroom, Performed, Pending, GoodDigest, ReadText, LastLine, Extends,
           AfterUploads;
      ghost var s0, t0, ids, t := Now(), trace, Ids(list), [];
      AllIn(db.rows, list);
      ghost var whole := SyncList(cfg, s0, ids);
      var uploadedBytes: nat, i: nat := 0, 0;
      NothingPerformed();
      SyncStarts(whole);
      assert ids[0..] == ids;
      ExtendsSelf(journal.text, journal.events);
      while i < |list|
        invariant old(journal.Sound()) ==> journal.Sound()
        invariant Extends(old(journal.text), old(journal.events), journal.text, journal.events)
        invariant i <= |list| && Pending(db.rows, list, i) && HasHeadroom(Now(), 0)
        invariant Performed(s0, t0, t)
        invariant forall c :: c in ids[i..] ==> c in db.rows
        invariant whole == AfterUploads(t, uploadedBytes, SyncList(cfg, Now(), ids[i..]))
      {
        ghost var s1, t1 := Now(), trace;
        SoFar(s0, t0, t);
        PendingRow(db.rows, list, i);
        SyncResume(cfg, s0, t, s1, ids, i, uploadedBytes);
        SyncHeadroom(cfg, s1, ids[i], 0);
        SyncElsewhere(cfg, s1, ids[i]);
        ghost var text1, events1 := journal.text, journal.events;
        var one := SyncRow(list[i].id, list[i].meta);
        ExtendsTrans(old(journal.text), old(journal.events), text1, events1, journal.text, journal.events);
        StillFound();
        Then(s0, t0, t, s1, t1, SyncOne(cfg, s1, ids[i]).trace);
        if one.Err? {
          return Err(one.error);
        }
        PendingNext(s1.rows, db.rows, list, i);
        t := t + SyncOne(cfg, s1, ids[i]).trace;
        uploadedBytes := uploadedBytes + one.value;
        i := i + 1;
      }
      StillFound();
      SyncEnds(cfg, Now(), t, uploadedBytes);
      assert ids[i..] == [];
      return Ok(uploadedBytes);
    }

    // ---------------------------------------------------------------- fsck, recover and open

    /** Marks a row whose file is not there; the finding is what `fsck` reports. */
    method ValidateRow(c: nat, m: Meta) returns (found: seq<Finding>)
      requires Valid() && c in db.rows && db.rows[c] == m
      modifies this`clock, this`trace, db
      ensures Repaired(old(Found()), old(trace), ValidateOne(old(Found()), c))
      ensures found == FindingOf(old(Found()), c)
      ensures found == if Dangling(old(Found()), c) then [Finding(c, m.state, AfterLoss(m.state))] else []
      ensures if Dangling(old(Found()), c) then IsGivenUp(old(Found()), Found(), c) else db.rows == old(db.rows)
      ensures forall d :: d in old(db.rows) && d != c ==> d in db.rows && db.rows[d] == old(db.rows)[d]
    {
      hide Run, Apply, GoodDigest, ReadText;
      ghost var s0 := Found();
      NothingRepaired();
      UpsertOnlyRows(s0, c, LostRow(m));
      RunOne(s0, Effect.Upsert(c, LostRow(m)));
      match m.state {
        case Clean | Dirty | Uploading | Fetching =>
          if !(m.hasPath && c in files) {
            var lost := if m.state == Dirty || m.state == Uploading then ChunkState.Error else Missing;
            Upsert(c, m.(state := lost, hasPath := false, size := 0, dirtySince := None));
            return [Finding(c, m.state, lost)];
          }
        case Missing | Error =>
      }
      return [];
    }

    /** `validate_local_chunk_files`, and the like loop of `fsck`. */
    method ValidateLocalChunkFiles() returns (found: seq<Finding>)
      requires Valid()
      modifies this`clock, this`trace, db
      ensures Repaired(old(Found()), old(trace), Validate(old(Found())))
      ensures found == FindingsOf(old(Found()), AllChunks(old(db.rows)))
      ensures Reports(old(Found()), found)
    {
      hide Run, ValidateList, FindingsOf, AllChunks, RowsOf, Answers, Pending, Repaired, GoodDigest, ReadText, Reports;
      FindingsExactly(Found());
      var list := db.QueryAll();
      AllAnswer(db.rows, list);
      AllPending(db.rows);
      found := ValidateRows(list);
    }

    /** Its loop over the rows. */
    method ValidateRows(list: seq<Row>) returns (found: seq<Finding>)
      requires Valid() && Pending(db.rows, list, 0)
      modifies this`clock, this`trace, db
      ensures forall c :: c in Ids(list) ==> c in old(db.rows)
      ensures Repaired(old(Found()), old(trace), ValidateList(old(Found()), Ids(list)))
      ensures found == FindingsOf(old(Found()), Ids(list))
    {
      hide Run, ValidateOne, ValidateList, FindingOf, FindingsOf, Pending, Repaired, GoodDigest, ReadText, Progresses;
      ghost var s0, t0, ids, t := Found(), trace, Ids(list), [];
      AllIn(db.rows, list);
      found := [];
      var i: nat := 0;
      NothingRepaired();
      ValidateStarts(s0, ids);
      while i < |list|
        invariant i <= |list| && Pending(db.rows, list, i)
        invariant Repaired(s0, t0, t)
        invariant Progresses(s0, ids, Found(), i, t, found)
      {
        ghost var s1, t1 := Found(), trace;
        RepairedSoFar(s0, t0, t);
        PendingRow(db.rows, list, i);
        ValidateResume(s0, t, s1, ids, i, found);
        var more := ValidateRow(list[i].id, list[i].meta);
        ThenRepaired(s0, t0, t, s1, t1, ValidateOne(s1, ids[i]));
        PendingNext(s1.rows, db.rows, list, i);
        t := t + ValidateOne(s1, ids[i]);
        found := found + more;
        i := i + 1;
      }
      ValidateEnds(s0, ids, Found(), t, found);
    }

    /** Builds the two maps of `recover` from the journal, if that reads. */
    method Scan() returns (r: Result<()>, latest: map<nat, nat>, committed: set<(nat, nat)>)
      ensures r.Ok? <==> ReadText(journal.text).Ok?
      ensures r.Ok? ==> Scanned(latest, committed, Found().journal)
    {
      hide ReadText, Scanned;
      latest, committed := map[], {};
      var read := journal.ReadEvents();
      if read.Err? {
        return Err(read.error), latest, committed;
      }
      var events := read.value;
      var i: nat := 0;
      ScanStarts();
      assert events[..0] == [];
      while i < |events|
        invariant i <= |events| && Scanned(latest, committed, events[..i])
      {
        ScanNext(latest, committed, events, i);
        match events[i] {
          case LocalCommitted(_, c, g) => latest := latest[c := if c in latest then Max(latest[c], g) else g];
          case CloudCommitted(c, g, _) => committed := committed + {(c, g)};
          case WriteBegin(_, _, _, _, _, _) =>
        }
        i := i + 1;
      }
      assert events[..i] == events;
      return Ok(()), latest, committed;
    }

    /** Sets the row of one journaled chunk from its file, if it has one. */
    method RebuildRow(c: nat, generation: nat, isCloudCommitted: bool)
      requires Valid() && Summarize(Found().journal, c) == Summary(Some(generation), isCloudCommitted)
      modifies this`clock, this`trace, db
      ensures Repaired(old(Found()), old(trace), RebuildOne(cfg, old(Found()), c))
      ensures if c in files then IsRebuilt(cfg, old(Found()), Found(), c) else db.rows == old(db.rows)
    {
      hide Run, Apply, GoodDigest, ReadText, Summarize, LatestLocal, Synced;
      SummaryIs(Found().journal, c, generation, isCloudCommitted);
      NothingRepaired();
      if c !in files {
        return;
      }
      var data := files[c];
      var row := Meta(true, if isCloudCommitted then Clean else Dirty, |data|,
                      if isCloudCommitted then Some(generation) else None,
                      Some(generation), Some(cfg.digest(data)), clock,
                      if isCloudCommitted then None else Some(clock + 1), 0);
      UpsertOnlyRows(Found(), c, row);
      RunOne(Found(), Effect.Upsert(c, row));
      Upsert(c, row);
    }

    /**
     * `recover`: `order` is the order in which the map happened to be iterated. It fails, after
     * validating the files, exactly if the journal does not read.
     */
    method Recover() returns (r: Result<()>, ghost order: seq<nat>)
      requires Valid()
      modifies this`clock, this`trace, db
      ensures r.Ok? <==> ReadText(journal.text).Ok?
      ensures r.Err? ==> Repaired(old(Found()), old(trace), Validate(old(Found())))
      ensures r.Ok? ==>
                && IsOrder(order, Found().journal)
                && Repaired(old(Found()), old(trace), Operations.Recover(cfg, old(Found()), order))
                && AllRepaired(cfg, old(Found()), Found()) && SizesRepaired(old(Found()), Found())
                && forall v :: Salvageable(cfg, old(Found()), v) ==> Represents(cfg, Found(), v)
    {
      hide Run, Validate, RebuildList, Repaired, GoodDigest, ReadText, Scanned, Journaled, Salvageable, Represents,
           AllRepaired, SizesRepaired;
      ghost var s0, t0 := Found(), trace;
      order := [];
      var found := ValidateLocalChunkFiles();
      RepairedSoFar(s0, t0, Validate(s0));
      ghost var s1, t1 := Found(), trace;
      var scanned, latest, committed := Scan();
      if scanned.Err? {
        return scanned, order;
      }
      order := RebuildRows(latest, committed);
      ThenRepaired(s0, t0, Validate(s0), s1, t1, RebuildList(cfg, s1, order));
      RepairedSoFar(s0, t0, Operations.Recover(cfg, s0, order));
      AlwaysRecovers(cfg, s0, order);
      RecoverRepairs(cfg, s0, order);
      RepairedSizes(cfg, s0, Found());
      return Ok(()), order;
    }

    /** Its loop over the map. */
    method RebuildRows(latest: map<nat, nat>, committed: set<(nat, nat)>) returns (ghost order: seq<nat>)
      requires Valid() && Scanned(latest, committed, Found().journal)
      modifies this`clock, this`trace, db
      ensures IsOrder(order, old(Found()).journal)
      ensures Repaired(old(Found()), old(trace), RebuildList(cfg, old(Found()), order))
    {
      hide Run, RebuildOne, RebuildList, Repaired, GoodDigest, ReadText, Scanned, Summarize, Journaled;
      ghost var s1, t1, t := Found(), trace, [];
      order := [];
      var rest := latest.Keys;
      NothingRepaired();
      OrderStarts(cfg, s1, latest.Keys);
      while rest != {}
        invariant Found().journal == s1.journal && rest <= latest.Keys
        invariant Visited(order, latest.Keys, rest)
        invariant Repaired(s1, t1, t) && t == RebuildList(cfg, s1, order)
        decreases |rest|
      {
        ghost var s2, t2 := Found(), trace;
        RepairedSoFar(s1, t1, t);
        var c :| c in rest;
        ScanIsSummary(latest, committed, s1.journal, c);
        RebuildRow(c, latest[c], (c, latest[c]) in committed);
        ThenRepaired(s1, t1, t, s2, t2, RebuildOne(cfg, s2, c));
        RebuildSnoc(cfg, s1, order, c);
        VisitNext(order, latest.Keys, rest, c);
        t := t + RebuildOne(cfg, s2, c);
        order := order + [c];
        rest := rest - {c};
      }
      OrderEnds(order, latest, committed, s1.journal);
    }

    /** `fsck`: its own findings, then `recover`, failing as that does. */
    method Fsck() returns (r: Result<seq<Finding>>, ghost order: seq<nat>)
      requires Valid()
      modifies this`clock, this`trace, db
      ensures r.Ok? <==> ReadText(journal.text).Ok?
      ensures r.Ok? ==>
                && r.value == FindingsOf(old(Found()), AllChunks(old(db.rows)))
                && Reports(old(Found()), r.value)
                && IsOrder(order, Found().journal)
                && Repaired(old(Found()), old(trace), Operations.Fsck(cfg, old(Found()), order))
                && AllRepaired(cfg, old(Found()), Found()) && SizesRepaired(old(Found()), Found())
                && forall v :: Salvageable(cfg, old(Found()), v) ==> Represents(cfg, Found(), v)
      ensures r.Err? ==>
                Repaired(old(Found()), old(trace),
                         Validate(old(Found())) + Validate(Run(old(Found()), Validate(old(Found())))))
    {
      hide Run, Validate, Operations.Recover, Repaired, GoodDigest, ReadText, FindingsOf, AllChunks, Journaled,
           Salvageable, Represents, Reports, AllRepaired, SizesRepaired;
      ghost var s0, t0 := Found(), trace;
      var found := ValidateLocalChunkFiles();
      RepairedSoFar(s0, t0, Validate(s0));
      ghost var s1, t1 := Found(), trace;
      var recovered;
      recovered, order := Recover();
      if recovered.Err? {
        ThenRepaired(s0, t0, Validate(s0), s1, t1, Validate(s1));
        return Err(recovered.error), order;
      }
      ThenRepaired(s0, t0, Validate(s0), s1, t1, Operations.Recover(cfg, s1, order));
      RepairedSoFar(s0, t0, Operations.Fsck(cfg, s0, order));
      AlwaysFscks(cfg, s0, order);
      FsckRepairs(cfg, s0, order);
      RepairedSizes(cfg, s0, Found());
      return Ok(found), order;
    }

    /**
     * `CacheEngine::open`, on whatever journal file was found: fails exactly if that does not read, and
     * else restores the volume.
     */
    method Open() returns (r: Result<()>, ghost order: seq<nat>)
      requires Valid()
      modifies this`clock, this`trace, db, journal
      ensures journal.text == old(journal.text) && (r.Ok? <==> ReadText(journal.text).Ok?)
      ensures r.Err? ==> Now() == old(Now())
      ensures r.Ok? ==>
                && journal.Valid() && IsOrder(order, journal.events)
                && Now() == Reopened(cfg, old(Found()), order)
                && AllRepaired(cfg, old(Found()), Now()) && SizesRepaired(old(Found()), Now())
                && forall v :: Salvageable(cfg, old(Found()), v) ==> Represents(cfg, Now(), v)
    {
      hide Run, Operations.Recover, Repaired, GoodDigest, ReadText, LastLine, Journaled, Salvageable, Represents,
           AllRepaired, SizesRepaired;
      order := [];
      r := journal.Open(journal.text);
      if r.Err? {
        return;
      }
      ghost var s0, t0 := Found(), trace;
      r, order := Recover();
      RepairedSoFar(s0, t0, Operations.Recover(cfg, s0, order));
      AlwaysReopens(cfg, old(Found()), order);
      OpenRepairs(cfg, old(Found()), order);
      RepairedSizes(cfg, old(Found()), Now());
    }
  }
}
