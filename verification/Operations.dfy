/**
 * Each operation of the engine as the sequence of durable effects it performs, branch by branch,
 * from a given state. The methods of `Engine.CacheEngine` are proved to perform exactly these.
 */
module Operations {
  import opened Wrappers
  import opened Mapper
  import opened Metadata
  import opened Wal
  import opened Store

  /** The effects performed, and how the operation ended; effects before a failure stand. */
  datatype Outcome<+T> = Outcome(trace: seq<Effect>, result: Result<T>)

  // ---------------------------------------------------------------- eviction

  function EvictedRow(m: Meta, now: nat): Meta {
    m.(hasPath := false, state := Missing, size := 0, lastAccess := now, dirtySince := None)
  }

  function EvictOne(s: State, c: nat): seq<Effect>
    requires c in s.rows
  {
    (if s.rows[c].hasPath && c in s.files then [RemoveFile(c)] else [])
    + [Upsert(c, EvictedRow(s.rows[c], s.clock))]
  }

  function EvictList(cfg: Config, s: State, list: seq<nat>, cached: nat): seq<Effect>
    requires forall c :: c in list ==> c in s.rows
    decreases list
  {
    if list == [] || cached <= cfg.low then []
    else
      var one := EvictOne(s, list[0]);
      one + EvictList(cfg, Run(s, one), list[1..], SaturatingSub(cached, s.rows[list[0]].size))
  }

  ghost function Evict(cfg: Config, s: State): seq<Effect> {
    if CachedBytes(s.rows) <= cfg.cacheMax then []
    else EvictList(cfg, s, EvictableCleanChunks(s.rows), CachedBytes(s.rows))
  }

  // ---------------------------------------------------------------- fetching

  predicate Resident(s: State, c: nat) {
    c in s.rows && (s.rows[c].state == Clean || s.rows[c].state == Dirty) && s.rows[c].hasPath && c in s.files
  }

  /** `fetch_chunk`, with zeroes for a chunk that was never uploaded. */
  function Fetch(cfg: Config, s: State, c: nat): Result<seq<byte>> {
    if c in s.down then Err(Io)
    else if c !in s.cloud then Ok(Zeroes(cfg.geo.ChunkLen(c)))
    else if |s.cloud[c]| != cfg.geo.ChunkLen(c) then Err(Corrupt)
    else Ok(s.cloud[c])
  }

  function FetchedRow(cfg: Config, s: State, c: nat, data: seq<byte>): Meta {
    Meta(true, Clean, cfg.geo.ChunkLen(c), None, None, Some(cfg.digest(data)), s.clock, None, 0)
  }

  function FetchTrace(cfg: Config, s: State, c: nat, data: seq<byte>): seq<Effect> {
    [PutFile(c, data), Upsert(c, FetchedRow(cfg, s, c, data))]
  }

  /** `ensure_chunk_for_read`. */
  ghost function Ensure(cfg: Config, s: State, c: nat): Result<seq<Effect>> {
    if c in s.rows && s.rows[c].state == ChunkState.Error then Err(Corrupt)
    else if Resident(s, c) then Ok([])
    else
      match Fetch(cfg, s, c)
      case Err(e) => Err(e)
      case Ok(data) =>
        var t := FetchTrace(cfg, s, c, data);
        Ok(t + Evict(cfg, Run(s, t)))
  }

  // ---------------------------------------------------------------- read_at

  /** `update_access`: an UPDATE, so nothing happens without a row. */
  function Touch(s: State, c: nat): seq<Effect> {
    if c in s.rows then [Upsert(c, s.rows[c].(lastAccess := s.clock))] else []
  }

  ghost function ReadSpans(cfg: Config, s: State, spans: seq<Span>): Outcome<seq<byte>>
    decreases spans
  {
    if spans == [] then Outcome([], Ok([]))
    else
      var sp := spans[0];
      match Ensure(cfg, s, sp.chunkId)
      case Err(e) => Outcome([], Err(e))
      case Ok(t) =>
        var s1 := Run(s, t);
        if sp.chunkId !in s1.files || |s1.files[sp.chunkId]| < sp.offsetInChunk + sp.len then Outcome(t, Err(Io))
        else
          var got := s1.files[sp.chunkId][sp.offsetInChunk..sp.offsetInChunk + sp.len];
          var t' := t + Touch(s1, sp.chunkId);
          var rest := ReadSpans(cfg, Run(s, t'), spans[1..]);
          Outcome(t' + rest.trace, if rest.result.Ok? then Ok(got + rest.result.value) else rest.result)
  }

  ghost function Read(cfg: Config, s: State, offset: nat, len: nat): Outcome<seq<byte>> {
    match Spans(offset, len, cfg.geo)
    case Err(e) => Outcome([], Err(e))
    case Ok(spans) => ReadSpans(cfg, s, spans)
  }

  // ---------------------------------------------------------------- write_at

  predicate IsFull(cfg: Config, sp: Span) {
    sp.offsetInChunk == 0 && sp.len == cfg.geo.ChunkLen(sp.chunkId)
  }

  /** `prepare_empty_chunk`: truncates the file, then sets its length. */
  function EmptyChunk(cfg: Config, c: nat): seq<Effect> { [PutFile(c, []), SetLen(c, cfg.geo.ChunkLen(c))] }

  /** A full-chunk write starts from an empty chunk, any other from the present contents. */
  ghost function Prepare(cfg: Config, s: State, sp: Span): Result<seq<Effect>> {
    if IsFull(cfg, sp) then Ok(EmptyChunk(cfg, sp.chunkId))
    else Ensure(cfg, s, sp.chunkId)
  }

  function DirtyRow(n: nat, generation: nat, now: nat): Meta {
    Meta(true, Dirty, n, None, Some(generation), None, now, Some(now + 1), 0)
  }

  /** The four effects that commit one span: WriteBegin, file, row, LocalCommitted. */
  function Commit(cfg: Config, s: State, sp: Span, data: seq<byte>): seq<Effect> {
    var c, n, before := sp.chunkId, cfg.geo.ChunkLen(sp.chunkId), Look(s, sp.chunkId).Gen();
    [ Append(WriteBegin(s.nextTxid, c, sp.offsetInChunk, sp.len, before, before + 1)),
      WriteFile(c, sp.offsetInChunk, data, n),
      Upsert(c, DirtyRow(n, before + 1, s.clock)),
      Append(LocalCommitted(s.nextTxid, c, before + 1)) ]
  }

  predicate Within(sp: Span, data: seq<byte>) {
    sp.requestOffset + sp.len <= |data|
  }

  predicate AllWithin(spans: seq<Span>, data: seq<byte>) {
    forall i :: 0 <= i < |spans| ==> Within(spans[i], data)
  }

  function SpanData(sp: Span, data: seq<byte>): seq<byte>
    requires Within(sp, data)
  {
    data[sp.requestOffset..sp.requestOffset + sp.len]
  }

  ghost function WriteSpan(cfg: Config, s: State, sp: Span, data: seq<byte>): Result<seq<Effect>>
    requires Within(sp, data)
  {
    match Prepare(cfg, s, sp)
    case Err(e) => Err(e)
    case Ok(t) => Ok(t + Commit(cfg, Run(s, t), sp, SpanData(sp, data)))
  }

  ghost function WriteSpans(cfg: Config, s: State, spans: seq<Span>, data: seq<byte>): Outcome<()>
    requires AllWithin(spans, data)
    decreases spans
  {
    if spans == [] then Outcome([], Ok(()))
    else
      match WriteSpan(cfg, s, spans[0], data)
      case Err(e) => Outcome([], Err(e))
      case Ok(t) =>
        var rest := WriteSpans(cfg, Run(s, t), spans[1..], data);
        Outcome(t + rest.trace, rest.result)
  }

  ghost function WriteAll(cfg: Config, s: State, spans: seq<Span>, data: seq<byte>): Outcome<()>
    requires AllWithin(spans, data)
  {
    var w := WriteSpans(cfg, s, spans, data);
    if w.result.Ok? then Outcome(w.trace + Evict(cfg, Run(s, w.trace)), Ok(())) else w
  }

  lemma {:induction false} PiecesWithin(q: nat, r: nat, len: nat, chunk: nat, requestOffset: nat, data: seq<byte>)
    requires r < chunk && requestOffset + len == |data|
    ensures AllWithin(PiecesAt(q, r, len, chunk, requestOffset), data)
    decreases len
  {
    if len > 0 {
      var take := Min(chunk - r, len);
      PiecesWithin(q + 1, 0, len - take, chunk, requestOffset + take, data);
    }
  }

  lemma SpansWithin(offset: nat, data: seq<byte>, g: Geometry)
    requires Spans(offset, |data|, g).Ok?
    ensures AllWithin(Spans(offset, |data|, g).value, data)
  {
    DivModFacts(offset, g.chunk);
    PiecesWithin(offset / g.chunk, offset % g.chunk, |data|, g.chunk, 0, data);
  }

  ghost function Write(cfg: Config, s: State, offset: nat, data: seq<byte>): Outcome<()> {
    match Spans(offset, |data|, cfg.geo)
    case Err(e) => Outcome([], Err(e))
    case Ok(spans) =>
      SpansWithin(offset, data, cfg.geo);
      WriteAll(cfg, s, spans, data)
  }

  // ---------------------------------------------------------------- sync_dirty

  function SyncOne(cfg: Config, s: State, c: nat): Outcome<nat>
    requires c in s.rows
  {
    var m := s.rows[c];
    if !m.hasPath then Outcome([], Err(Corrupt))
    else if c !in s.files then
      Outcome([Upsert(c, m.(state := ChunkState.Error, hasPath := false, size := 0, dirtySince := None))], Err(Corrupt))
    else
      var data, generation := s.files[c], m.localGen.GetOr(0);
      var uploading := Upsert(c, m.(state := Uploading));
      if c in s.down then Outcome([uploading, Upsert(c, m.(state := Dirty))], Err(Io))
      else
        var sum := cfg.digest(data);
        Outcome(
          [ uploading,
            PutObject(c, data),
            Upsert(c, m.(state := Clean, remoteGen := Some(generation), checksum := Some(sum), dirtySince := None)),
            Append(CloudCommitted(c, generation, sum)) ],
          Ok(|data|))
  }

  function SyncList(cfg: Config, s: State, list: seq<nat>): Outcome<nat>
    requires forall c :: c in list ==> c in s.rows
    decreases list
  {
    if list == [] then Outcome([], Ok(0))
    else
      var one := SyncOne(cfg, s, list[0]);
      match one.result
      case Err(e) => one
      case Ok(n) =>
        var rest := SyncList(cfg, Run(s, one.trace), list[1..]);
        Outcome(one.trace + rest.trace, if rest.result.Ok? then Ok(n + rest.result.value) else rest.result)
  }

  ghost function Sync(cfg: Config, s: State): Outcome<nat> {
    var u := SyncList(cfg, s, DirtyChunks(s.rows));
    if u.result.Ok? then Outcome(u.trace + Evict(cfg, Run(s, u.trace)), u.result) else u
  }

  // ---------------------------------------------------------------- fsck, recover and open

  /** The row claims a local file that is not there. */
  predicate Lost(s: State, c: nat)
    requires c in s.rows
  {
    Cached(s.rows[c].state) && !(s.rows[c].hasPath && c in s.files)
  }

  function LostRow(m: Meta): Meta {
    m.(state := if m.state == Dirty || m.state == Uploading then ChunkState.Error else Missing,
       hasPath := false, size := 0, dirtySince := None)
  }

  function ValidateOne(s: State, c: nat): seq<Effect>
    requires c in s.rows
  {
    if Lost(s, c) then [Upsert(c, LostRow(s.rows[c]))] else []
  }

  function ValidateList(s: State, list: seq<nat>): seq<Effect>
    requires forall c :: c in list ==> c in s.rows
    decreases list
  {
    if list == [] then []
    else
      var one := ValidateOne(s, list[0]);
      one + ValidateList(Run(s, one), list[1..])
  }

  /** `validate_local_chunk_files`, and likewise the loop of `fsck`. */
  function Validate(s: State): seq<Effect> { ValidateList(s, AllChunks(s.rows)) }

  function RebuiltRow(cfg: Config, data: seq<byte>, sum: Summary, now: nat): Meta
    requires sum.latest.Some?
  {
    Meta(true,
         if sum.committed then Clean else Dirty,
         |data|,
         if sum.committed then sum.latest else None,
         sum.latest,
         Some(cfg.digest(data)),
         now,
         if sum.committed then None else Some(now + 1),
         0)
  }

  function RebuildOne(cfg: Config, s: State, c: nat): seq<Effect> {
    var sum := Summarize(s.journal, c);
    if c in s.files && sum.latest.Some? then [Upsert(c, RebuiltRow(cfg, s.files[c], sum, s.clock))] else []
  }

  function RebuildList(cfg: Config, s: State, order: seq<nat>): seq<Effect>
    decreases order
  {
    if order == [] then []
    else
      var one := RebuildOne(cfg, s, order[0]);
      one + RebuildList(cfg, Run(s, one), order[1..])
  }

  /** `order` is an iteration order of the map from chunk to latest local generation. */
  ghost predicate IsOrder(order: seq<nat>, journal: seq<Event>) {
    && (forall c :: c in order <==> c in Journaled(journal))
    && (forall i, j :: 0 <= i < j < |order| ==> order[i] != order[j])
  }

  function Recover(cfg: Config, s: State, order: seq<nat>): seq<Effect> {
    var v := Validate(s);
    v + RebuildList(cfg, Run(s, v), order)
  }

  function Fsck(cfg: Config, s: State, order: seq<nat>): seq<Effect> {
    var v := Validate(s);
    v + Recover(cfg, Run(s, v), order)
  }

  /** What a new process sees of the durable state before it recovers. */
  function Loaded(s: State): State { s.(nextTxid := ReopenedTxid(s.journal)) }

  /** `CacheEngine::open`. */
  function Reopened(cfg: Config, s: State, order: seq<nat>): State {
    Run(Loaded(s), Recover(cfg, Loaded(s), order))
  }
}
