/**
 * The four durable stores under a volume, and the durable effects that operations perform on them.
 * An operation is a sequence of effects; a crash cuts that sequence anywhere.
 */
module Store {
  import opened Wrappers
  import opened Mapper
  import opened Metadata
  import opened Wal

  /**
   * The manifests: layout, cache limits, and the checksum function, of which nothing is used but
   * that it is a function.
   */
  datatype Config = Config(geo: Geometry, cacheMax: nat, low: nat, digest: seq<byte> -> string) {
    predicate Valid() {
      geo.Valid() && 0 < cacheMax && low <= cacheMax
    }
  }

  /**
   * `files`, `rows`, `journal` and `cloud` are durable. `nextTxid` is recomputed on open. `clock`
   * stands for `now_ns`: it is ahead of every time stamp handed out. `down` are the chunks for which
   * the cloud backend fails at present.
   */
  datatype State = State(
    files: map<nat, seq<byte>>,
    rows: Table,
    journal: seq<Event>,
    cloud: map<nat, seq<byte>>,
    nextTxid: nat,
    clock: nat,
    down: set<nat>)

  /** A volume just created over a cloud backend that may already hold objects. */
  function Created(cloud: map<nat, seq<byte>>): State {
    State(map[], map[], [], cloud, 1, 0, {})
  }

  datatype Effect =
    | PutFile(c: nat, data: seq<byte>)                            // rename of a finished tmp file, or create
    | WriteFile(c: nat, offset: nat, data: seq<byte>, len: nat)   // in-place write at an offset, then set_len
    | SetLen(c: nat, len: nat)
    | RemoveFile(c: nat)
    | Upsert(c: nat, row: Meta)
    | Append(event: Event)
    | PutObject(c: nat, data: seq<byte>)                          // upload_chunk

  /** `was` resized to n bytes, with `data` written over it at `offset`. */
  function Overwrite(was: seq<byte>, offset: nat, data: seq<byte>, n: nat): (r: seq<byte>)
    ensures |r| == n
  {
    seq(n, i requires 0 <= i < n =>
      if offset <= i < offset + |data| then data[i - offset]
      else if i < |was| then was[i] else 0)
  }

  function FileOf(s: State, c: nat): Option<seq<byte>> { if c in s.files then Some(s.files[c]) else None }

  function RowOf(s: State, c: nat): Option<Meta> { if c in s.rows then Some(s.rows[c]) else None }

  function ObjectOf(s: State, c: nat): Option<seq<byte>> { if c in s.cloud then Some(s.cloud[c]) else None }

  function ClockAfter(clock: nat, row: Meta): nat {
    Max(clock, Max(row.lastAccess, row.dirtySince.GetOr(0)) + 1)
  }

  function Apply(s: State, e: Effect): State {
    match e
    case PutFile(c, data) => s.(files := s.files[c := data])
    case WriteFile(c, offset, data, len) =>
      s.(files := s.files[c := Overwrite(FileOf(s, c).GetOr([]), offset, data, len)])
    case SetLen(c, len) => s.(files := s.files[c := Overwrite(FileOf(s, c).GetOr([]), 0, [], len)])
    case RemoveFile(c) => s.(files := s.files - {c})
    case Upsert(c, row) => s.(rows := s.rows[c := row], clock := ClockAfter(s.clock, row))
    case Append(ev) => s.(journal := s.journal + [ev], nextTxid := if ev.WriteBegin? then ev.txid + 1 else s.nextTxid)
    case PutObject(c, data) => s.(cloud := s.cloud[c := data])
  }

  function Run(s: State, t: seq<Effect>): (r: State)
    ensures s.rows.Keys <= r.rows.Keys && r.down == s.down && s.clock <= r.clock
    decreases t
  {
    if t == [] then s else Run(Apply(s, t[0]), t[1..])
  }

  lemma {:induction false} RunConcat(s: State, a: seq<Effect>, b: seq<Effect>)
    ensures Run(s, a + b) == Run(Run(s, a), b)
    decreases a
  {
    if a == [] {
      assert a + b == b;
    } else {
      RunConcat(Apply(s, a[0]), a[1..], b);
      assert (a + b)[0] == a[0] && (a + b)[1..] == a[1..] + b;
    }
  }

  lemma RunNothing(s: State)
    ensures Run(s, []) == s
  {
  }

  lemma RunOne(s: State, e: Effect)
    ensures Run(s, [e]) == Apply(s, e)
  {
    assert [e][1..] == [];
  }

  lemma RunSnoc(s: State, t: seq<Effect>, e: Effect)
    ensures Run(s, t + [e]) == Apply(Run(s, t), e)
  {
    RunConcat(s, t, [e]);
    RunOne(Run(s, t), e);
  }

  lemma RunTwo(s: State, a: Effect, b: Effect)
    ensures Run(s, [a, b]) == Apply(Apply(s, a), b)
  {
    RunOne(s, a);
    RunSnoc(s, [a], b);
    assert [a] + [b] == [a, b];
  }

  lemma RunFour(s: State, a: Effect, b: Effect, c: Effect, d: Effect)
    ensures Run(s, [a, b, c, d]) == Apply(Apply(Apply(Apply(s, a), b), c), d)
  {
    RunTwo(s, a, b);
    RunTwo(Apply(Apply(s, a), b), c, d);
    RunConcat(s, [a, b], [c, d]);
    assert [a, b] + [c, d] == [a, b, c, d];
  }

  // ---------------------------------------------------------------- one chunk at a time

  /** Everything the four stores hold about one chunk. */
  datatype Slot = Slot(
    file: Option<seq<byte>>,
    row: Option<Meta>,
    remote: Option<seq<byte>>,
    latest: Option<nat>,
    synced: set<nat>)
  {
    /** No row counts as Missing. */
    function State(): ChunkState { if row.Some? then row.value.state else Missing }

    /** The latest journaled generation is known to be in the cloud. */
    predicate Committed() { latest.Some? && latest.value in synced }

    /** What a refetch returns for a chunk of n bytes. */
    function Image(n: nat): seq<byte> { remote.GetOr(Zeroes(n)) }

    /** The generation that a write to this row starts from. */
    function Gen(): nat { if row.Some? then row.value.localGen.GetOr(0) else 0 }
  }

  function Look(s: State, c: nat): Slot {
    Slot(FileOf(s, c), RowOf(s, c), ObjectOf(s, c), LatestLocal(s.journal, c), Synced(s.journal, c))
  }

  /** The chunk an effect is about. */
  function Target(e: Effect): nat {
    if e.Append? then e.event.chunkId else e.c
  }

  function ApplyAt(sl: Slot, e: Effect): Slot {
    match e
    case PutFile(_, data) => sl.(file := Some(data))
    case WriteFile(_, offset, data, len) => sl.(file := Some(Overwrite(sl.file.GetOr([]), offset, data, len)))
    case SetLen(_, len) => sl.(file := Some(Overwrite(sl.file.GetOr([]), 0, [], len)))
    case RemoveFile(_) => sl.(file := None)
    case Upsert(_, row) => sl.(row := Some(row))
    case PutObject(_, data) => sl.(remote := Some(data))
    case Append(ev) =>
      match ev
      case WriteBegin(_, _, _, _, _, _) => sl
      case LocalCommitted(_, _, g) => sl.(latest := Some(Max(sl.latest.GetOr(0), g)))
      case CloudCommitted(_, g, _) => sl.(synced := sl.synced + {g})
  }

  /** Effects are local: they change the slot they are about and no other. */
  lemma LookAfter(s: State, e: Effect, d: nat)
    ensures Look(Apply(s, e), d) == if d == Target(e) then ApplyAt(Look(s, d), e) else Look(s, d)
  {
    if e.Append? {
      Snoc(s.journal, e.event, d);
    }
  }

  function RunAt(sl: Slot, t: seq<Effect>): Slot
    decreases t
  {
    if t == [] then sl else RunAt(ApplyAt(sl, t[0]), t[1..])
  }

  predicate About(t: seq<Effect>, c: nat) {
    forall i :: 0 <= i < |t| ==> Target(t[i]) == c
  }

  lemma {:induction false} LookAfterRun(s: State, t: seq<Effect>, c: nat, d: nat)
    requires About(t, c)
    ensures Look(Run(s, t), d) == if d == c then RunAt(Look(s, d), t) else Look(s, d)
    decreases t
  {
    if t != [] {
      LookAfter(s, t[0], d);
      LookAfterRun(Apply(s, t[0]), t[1..], c, d);
    }
  }
}
