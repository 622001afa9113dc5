# cloudcache: the write-back cache engine, verified

cloudcache presents a flat block volume. Its bytes live in fixed-size chunks: files in a local cache
directory, objects in a cloud store, or nowhere yet (all zeroes). A SQLite table holds one row per
chunk with a state (Missing, Fetching, Clean, Dirty, Uploading, Error), and an append-only text
journal records which generations of which chunks were written and uploaded. These four stores are
durable and are updated one at a time, so a crash can leave any of them ahead of the others. This
project models the engine, its journal, its table, the request splitter and the NBD request loop, and
proves that together they behave as one array of bytes.

## How the model is built

- `Mapper`, `Metadata`, `Wal`, `WalText`, `WalCodec`, `WalFields`, `WalFile`, `Framing` model the parts: splitting,
  the table with its ordered queries and counters, journal events, the journal text, NBD messages.
- `Store` has the durable state and its seven kinds of atomic effect (put, overwrite, set the length of or
  remove a chunk file, upsert a row, append an event, put an object). `Operations` gives, for each operation of
  the engine, the exact sequence of effects it performs from a given state. A crash performs a prefix of
  that sequence, with an in-place write possibly torn or left short; then come any number of boots that die
  while they recover, with files lost in between, and one that lasts.
- `Engine.CacheEngine`, `Metadata.MetadataDb`, `WalFile.Journal` and `NbdServer.Socket` are the classes,
  with the source's loops over rows, spans, events and requests. Every engine method is proved to
  perform exactly the effects that `Operations` gives for it (`Performed`), and to add exactly the lines of
  the events it logs to the journal file (`Extends`). So it inherits the theorems below as long as that file
  is sound, that is, does not end in an unfinished line; `Restart` says what follows when it does.
  `Loops` and `Headroom` have what the loops need.
- `Volume` is the specification: an array of cells, each a known byte or, where a crash cut a write
  before it was acknowledged, unknown. `Safety` ties the stores to it with one invariant per level:
  `Represents` between operations, `Recoverable` after every single effect, `Salvageable` after any
  loss of local files.
- `Serving`, `Success`, `Records`, `Uploads`, `CacheLimit` and `Repairs` say what each operation does and answers
  in every state whatever, invariant or not, on the rows, files, objects and records before and after it:
  when it succeeds, how it fails, what it leaves. `Discipline` has the order of the effects within an operation.
- `Transparency`, `Writing`, `Recovery`, `Runs`, `Guards`, `Exactness`, `Requests`, `Eviction`, `Agreement`,
  `History`, `Durability`, `Availability`, `Wholeness`, `RowShapes`, `Lengths`, `Accounting`, `Failures`, `LiveLoss`,
  `Freshness`, `WalTorn`, `WalMerge`, `TornAppends` and `Nbd` prove the theorems; `NewVolume` puts those about
  runs together, from the creation of a volume on. `Witnesses` and `MergedRun` show, by such runs, what goes
  wrong without the guards, on volumes of one or two chunks that `SmallVolume` follows.

## What holds, and what does not

The engine refines the array over every run of reads, guarded writes, syncs, evictions, fscks and
reopens, interleaved with crashes at any effect and in the recoveries that follow, losses of any local
files followed by fsck or reopen, files that vanish unnoticed unless they were the only copy, and cloud
outages (`Runs.EngineRefinesArray`). Without crashes it is exactly a byte array
(`Availability.CrashFreeRunIsArray`), and so is the NBD device (`Nbd.ConnectionIsDevice`). A volume may be
created over a cloud that already holds objects, which then are its first contents.

A write succeeds if and only if its range is in the volume and each of its spans, in its turn, covers its whole
chunk, or finds its chunk not in Error and either Clean or Dirty with its file, or obtainable from the cloud
(`Success.WriteSucceedsExactly`). `Availability.ReadExactly` is the like for reads. A write or a sync that succeeds,
and a fetch, leave the cache within its maximum or with nothing that could be evicted (`Records.WritesExactly`,
`Uploads.SyncsExactly`, `Serving.EnsuresExactly`), and a read keeps it so. The bytes that this goes by are those of
the files of the cached chunks, as long as no crash leaves a file short and no file vanishes unnoticed; without
crashes they are all the bytes on disk (`Accounting.NewVolumeAccounted`).

The repository's README promises (README.md:33-43) that a write that was acknowledged survives. The
code keeps that promise for a span if and only if two conditions hold before the call
(`Exactness.SpanExact`), luck aside, and for a request if and only if they hold for each of its spans
in turn (`Requests.WriteExact`):

- *Room.* A partial write fetches its chunk, and the eviction after the fetch may take that very chunk
  away; the write then recreates the file filled with zeroes. It happens exactly when the fetch leaves
  the cache above its maximum and what may not be evicted leaves no room for the chunk below the low
  watermark (`Eviction.FetchedSurvivesExactly`). It does harm where those zeroes are not what the rest of
  the chunk holds (`Witnesses.RoomIsNeeded`).
- *Freshness.* A refetch forgets a chunk's generation, so the next partial write restarts at 1. If that
  generation is already journaled as uploaded, a reopened engine takes the chunk for Clean, and may
  drop the write (`Witnesses.FreshnessIsNeeded`).

Room is a condition of its own only for a volume created over a populated cloud. From an empty one,
whatever needs room and was ever written is stale as well, so that freshness alone suffices, with any
cache size (`NewVolume.FreshnessSuffices`).

`Guards.CallerWriteGuard` is what a caller can check for a whole request. Two of the
guards one might expect are weaker here. Freshness of one write is only needed in the exact form
`NotStale`; the stronger `Fresh` is used where journal and states are proved to agree. That Dirty rows be
journaled is no guard at all: the invariant says that a Dirty or Uploading file without a record holds
nothing that was promised. Such a chunk can get stuck in Uploading, though: exactly when it has no
record, and two crashes are enough (`Witnesses.StuckUploading`, `Witnesses.StuckReached`).

Five more promises are conditional.

- *Reads after a loss.* A live engine that is not told of a lost file fetches the chunk again. What it then
  reads is right if and only if the chunk was not Dirty, or the cloud happens to have what its file held
  (`LiveLoss.ServesExactly`, `LiveLoss.ReadsExactly`); else it is what was there before the write
  (`Witnesses.UnnoticedLossReadsZeroes`). Told by `fsck` or an open, it reports an Error instead
  (`Recovery.NoSilentLoss`).
- *Readable chunks.* A crash between the truncation of a chunk file and its `set_len`, or in a write that
  recreates a file, leaves it short. Reads of it then fail, without the chunk being in Error
  (`Witnesses.ShortFileUnreadable`), exactly as `Availability.ReadExactly` says. No other step makes a file or an
  object short (`Wholeness.StepKeepsWhole`).
- *Opening after a torn append.* A crash in an append leaves a journal that no engine can open, if the line in
  the file stops short of its last value; in every other case the volume is recovered
  (`TornAppends.TornAppend`, `Restart.OpenAfterTornAppend`).
- *Appends.* An append adds exactly its event if and only if the file does not end in an unfinished line
  (`WalFile.AppendExactly`). A crash that loses just the newline of a record leaves one, and nothing repairs it
  on open. The file still reads, and the engine opens it; but the next record lands on the same line. After
  a WriteBegin or a LocalCommitted the file cannot be read any more, and after a CloudCommitted the two
  make one CloudCommitted, for the chunk of the second and the generation of the first
  (`WalMerge.AppendsAfterLoss`): an upload that may never have happened, and that can lose an acknowledged
  write (`MergedRun.LostNewlineLosesWrite`).
- *Journal and states.* What is journaled and Dirty is still to be uploaded, always. That what is Clean or Missing
  was uploaded according to the journal fails if a sync crashes just before that record and the file is
  lost before the next boot (`Witnesses.DownLossDisagrees`, `Agreement.RecoveryAgreesExactly`); the data are safe.

## Model

| member | source | states |
|---|---|---|
| Mapper.Split | src/volume/mapper.rs:11-48 | split succeeds exactly for a non-zero chunk size and a range inside the volume, u64 overflow included, and then returns the request's pieces |
| Mapper.Cut | src/volume/mapper.rs:26-47 | the loop of split, against the recursive cutting of the range |
| Mapper.SplitIsTheTiling | src/volume/mapper.rs:26-47 | a list of spans is what split returns if and only if it tiles the request: non-empty spans, left to right, no gap or overlap, consecutive chunks, starting at 0 after the first |
| Mapper.PiecesFit | src/volume/mapper.rs:31-45 | every span fits its chunk, even a short last one, lies where the request says, and overflows nothing |
| Mapper.SpansCover | src/volume/mapper.rs:11-48 | an in-range request is covered chunk after chunk, in terms of chunk starts and lengths |
| Mapper.ChunksCoverVolume | src/cache/engine.rs:489-499 | the chunk lengths up to total_chunks add up to the volume, and exactly those chunks are non-empty |
| Metadata.Listing | src/metadata.rs:170-182 | a query lists each selected chunk once, ordered by its key and then by chunk id |
| Metadata.CachedBytesUpsert | src/metadata.rs:196-222 | how replacing one row changes the cached-byte total |
| Metadata.MetadataDb.GetChunk | src/metadata.rs:104-118 | the row of the chunk, if there is one |
| Metadata.MetadataDb.UpsertChunk | src/metadata.rs:120-157 | replaces or inserts exactly that row |
| Metadata.MetadataDb.UpdateAccess | src/metadata.rs:159-168 | changes the access time of an existing row and nothing else; does nothing without a row |
| Metadata.MetadataDb.QueryDirty | src/metadata.rs:170-172 | the Dirty rows and no others, each once with its present contents, oldest dirty first, then by chunk id |
| Metadata.MetadataDb.QueryEvictable | src/metadata.rs:174-178 | the Clean unpinned rows and no others, each once with its present contents, least recently used first, then by chunk id |
| Metadata.MetadataDb.QueryAll | src/metadata.rs:180-182 | all rows, each once with its present contents, by chunk id |
| Metadata.AnswerIsListing | src/metadata.rs:170-182 | such an answer is unique: the ordering leaves a query no choice |
| Metadata.MetadataDb.GroupByState | src/metadata.rs:185-194 | row count and byte sum of every state |
| Metadata.MetadataDb.Stats | src/metadata.rs:184-231 | the five counters equal sums and counts over the table, independently of the grouping |
| Wal.LatestLocalIsMax | src/cache/engine.rs:322-333 | the latest local generation is attained by a LocalCommitted record and exceeded by none |
| Wal.SyncedIsExact | src/cache/engine.rs:334-340 | a generation counts as uploaded if and only if a CloudCommitted record says so |
| Wal.SummaryIgnoresOrder | src/cache/engine.rs:319-343 | what recovery reads from the journal depends on which records occur, not on order or duplication |
| Wal.CompactionKeepsSummary | src/journal/wal.rs:90-102 | a subset that keeps the records of a chunk's latest local generation keeps its summary |
| Wal.ReopenedTxidIsFresh | src/journal/wal.rs:41-50 | a reopened journal goes on right after the largest recorded transaction id, at 1 if there is none |
| Wal.AppendKeepsWellFormed | src/cache/engine.rs:130-166 | the events the engine appends keep the journal well formed: txids increase, after is before + 1, every LocalCommitted closes a WriteBegin |
| WalText.ParseDecimal | src/journal/wal.rs:189-193 | every u64 written in decimal parses back |
| WalText.ParsePrefix | src/journal/wal.rs:189-193 | every non-empty prefix of a written number parses, to no larger a number |
| WalText.DecimalAt | src/journal/wal.rs:105-133 | each character of a written number is the digit of its place, without leading zeroes |
| WalText.EscapeEach | src/journal/wal.rs:128-132 | escaping turns each space into %20 and leaves every other character |
| WalText.EscapeRoundTrip | src/journal/wal.rs:128-159 | unescaping undoes escaping if and only if the text holds no literal %20 |
| WalCodec.DecodeEvent | src/journal/wal.rs:135-187 | the token loop computes the decoding function, errors included |
| WalCodec.EncodeText | src/journal/wal.rs:105-133 | the text of each event: its type, and its fields by name, in that order, with one space between them |
| WalCodec.DecodeEncode | src/journal/wal.rs:105-187 | an encodable event decodes to itself |
| WalCodec.DigestIsCarriable | src/checksum.rs:3-6 | every checksum of the form sha256_hex writes survives the journal |
| WalTorn.RoundTripExactly | src/journal/wal.rs:105-187 | an event with u64 fields round-trips if and only if its checksum has no literal %20 and no white space but plain spaces |
| WalTorn.TornLine | src/journal/wal.rs:135-187 | a strict prefix of an encoded line reads if and only if it reaches into the last value, by a digit if that is a number; and then as the event, its last field as far as it got |
| WalTorn.TornLineClaimsNoMore | src/journal/wal.rs:135-193 | a torn line that decodes has the same kind and fields, and its last field is no larger, or a prefix |
| WalFields.DecodesExactly | src/journal/wal.rs:135-187 | any line whatever is an event if and only if each of its words has an equals sign, and a number after it where it names one, and the last words to name the type and each field of that type say so; other words and the order do not matter |
| WalFields.ParsesExactly | src/journal/wal.rs:189-193 | a number is read from its decimal digits behind any zeroes and at most one plus sign, and from nothing else |
| WalFile.ReadEventsFrom | src/journal/wal.rs:74-88 | the line loop computes the reading function; blank lines are skipped and the first bad line rejects the file |
| WalFile.LineByLine | src/journal/wal.rs:74-88 | any file, line by line: a blank line is skipped, any other is an event or spoils the file; the last line may lack its newline |
| WalFile.AppendReads | src/journal/wal.rs:60-68 | appending to a complete file adds exactly the event to what it reads as |
| WalFile.AppendExactly | src/journal/wal.rs:60-88 | appending adds exactly its event if and only if the file does not end in an unfinished non-blank line |
| WalFile.JournalRoundTrip | src/journal/wal.rs:60-88 | a journal written from scratch reads back as exactly its events |
| WalFile.TornJournal | src/journal/wal.rs:60-88 | after a torn append, exactly: as before if nothing of the line is there, rejected if it stops short of its last value, else one more record that claims no more; with the whole line but its newline, exactly the event |
| TornAppends.TornAppend | src/journal/wal.rs:35-88 | a crash inside any append of any operation: the journal file can be read again exactly under that condition, and then the volume is recovered as after any other crash at that point, whatever the torn line is taken for |
| Restart.OpenAfterTornAppend | src/cache/engine.rs:62-83 | an engine that opens what is left fails exactly under that condition, or represents the volume as of the crash |
| WalMerge.MergedLine | src/journal/wal.rs:60-88 | two records on one line are rejected, or, if the first is a CloudCommitted, read as one CloudCommitted of the second one's chunk and the first one's generation |
| WalMerge.LostNewline | src/journal/wal.rs:60-88 | take the last newline from any journal the engine wrote: it reads as before, and the next append of any record does not add it, spoiling the file unless the last record was a CloudCommitted |
| WalMerge.MergedWrite | src/journal/wal.rs:60-88 | after an upload record that lost its newline, the next write's WriteBegin reads as an upload of its chunk |
| WalMerge.MergedSummary | src/cache/engine.rs:319-343 | what recovery then reads of the written chunk, next to what it would have read without the crash |
| WalMerge.FalseUpload | src/journal/wal.rs:60-88 | a concrete file in which a write of chunk 5 looks uploaded |
| WalMerge.AppendsAfterLoss | src/journal/wal.rs:60-88 | what a file that lost its last newline reads as, after any number of appends: rejected, or one merged record in place of two |
| MergedRun.LostNewlineLosesWrite | src/cache/engine.rs:62-226 | a run from the creation of a volume: a write, an upload whose record loses its newline in a crash, a write of another chunk, an open, a lost file; and the second write reads as zeroes |
| WalFile.Journal.constructor | src/journal/wal.rs:35-52 | a new journal is empty and starts at txid 1 |
| WalFile.Journal.Open | src/journal/wal.rs:35-52 | fails exactly on a file that does not read; else resumes above every recorded txid |
| WalFile.Journal.NextTxid | src/journal/wal.rs:54-58 | hands out the next txid and advances |
| WalFile.Journal.Append | src/journal/wal.rs:60-68 | the file grows by the encoded line; for an event the line can carry, the file gains exactly that event if and only if its last line was not left open |
| WalFile.Journal.ReadEvents | src/journal/wal.rs:70-72 | what the file reads as, errors included, which is exactly the events appended unless a line was left open |
| WalFile.Journal.Compact | src/journal/wal.rs:90-102 | the file reads as exactly the events kept, and is ready for the next append |
| Store.LookAfter | src/cache/engine.rs:120-166 | effects are local: one chunk's files, row, object and records change and no other's |
| Writing.FreshIsNotStale | src/cache/engine.rs:125-130 | a generation that is at least every journaled one makes the write safe from being taken for uploaded |
| Writing.CommitExact | src/cache/engine.rs:125-166 | a committed span leaves exactly the written volume if and only if its generation is not stale, or the cloud already holds the new contents |
| Writing.SpanCrash | src/cache/engine.rs:115-167 | a crash at any effect of a span, the in-place write torn or not, can only damage that span |
| Writing.SpanDone | src/cache/engine.rs:115-167 | a guarded span replaces exactly its bytes |
| Writing.SpansDone | src/cache/engine.rs:115-167 | a request replaces exactly the bytes of the spans it acknowledged, all of them if and only if it succeeds |
| Writing.SpansCrash | src/cache/engine.rs:115-167 | a crash in the span loop keeps acknowledged spans, leaves the one in flight unknown, and all else as it was |
| Writing.WriteCorrect | src/cache/engine.rs:107-170 | write_at, successful or not, replaces exactly a prefix of its range, its final eviction changing nothing |
| Writing.WriteCrash | src/cache/engine.rs:107-170 | crash safety of the whole of write_at, at every effect and in its final eviction |
| Exactness.SpanExact | src/cache/engine.rs:115-167 | on the state before the call: a span write is safe if and only if there is room for its chunk and its generation is fresh, or luck has it |
| Exactness.GuardExact | src/cache/engine.rs:115-167 | the guard that the run theorems ask of a span is exactly room and freshness on the state before the call |
| Requests.WriteExact | src/cache/engine.rs:107-170 | a whole write_at leaves exactly its acknowledged prefix replaced if and only if every span it wrote was safe in its turn; nothing later in the request mends an unsafe one |
| Exactness.NoRoomExact | src/cache/engine.rs:142-145 | a write over a chunk evicted by its own fetch is right if and only if the rest of the chunk was zeroes (and its generation fresh) |
| Exactness.PreparedLook | src/cache/engine.rs:117-129 | where preparing a span leaves its chunk: with a file if and only if it is replaced whole, resident, or has room; with generation 0 after a refetch |
| Guards.CallerGuardIsWriteGuard | src/cache/engine.rs:107-170 | room and freshness checked once before the call make every span of the request safe when its turn comes |
| Guards.SpanHeld | src/cache/engine.rs:115-167 | one span write raises the bytes that eviction may not touch by no more than its chunk |
| Guards.RecoveryRefreshes | src/cache/engine.rs:345-377 | recovery gives a journaled chunk with a file its latest generation back |
| Witnesses.WithoutRoom | src/cache/engine.rs:142-145 | without room, an acknowledged partial write leaves zeroes in the rest of its chunk |
| Witnesses.RoomIsNeeded | src/cache/engine.rs:459-467 | a run from the creation of a volume over an object 7, 8, with a cache of one byte: a fresh write of 9 over the first byte succeeds, and the second byte then reads 0 |
| Witnesses.StaleTurnsClean | src/cache/engine.rs:345-357 | every stale write, acknowledged, is Clean after a reopen, while the cloud still holds the old contents |
| Witnesses.FreshnessIsNeeded | src/cache/engine.rs:125-166 | a run from the creation of an empty volume, with room: write 7, 8; sync; lose the file; write 9; reopen; lose the file; all succeed, and the volume reads 7, 8 |
| Witnesses.StuckUploading | src/cache/engine.rs:316-379 | recovery leaves a chunk Uploading if and only if it was, with its file and path there and no LocalCommitted record; sync does not visit it |
| Witnesses.StuckReached | src/cache/engine.rs:130-221 | a write cut before its LocalCommitted and a sync cut after its first upsert leave a new volume so |
| Witnesses.LostNewlineTurnsClean | src/cache/engine.rs:319-377 | when recovery makes of the merged upload record a Clean chunk: exactly if the write's generation is that of the other upload, or had been uploaded |
| LiveLoss.ServesExactly | src/cache/engine.rs:415-468 | after a loss that the engine was not told of, what a chunk serves is as promised if and only if it was not a Dirty file that went, or the cloud has what it held |
| LiveLoss.ReadsExactly | src/cache/engine.rs:89-105 | a successful read after such a loss, chunk after chunk: right if and only if no promised byte of the range was in a lost Dirty file, but for those that the cloud has |
| Witnesses.UnnoticedLossReadsZeroes | src/cache/engine.rs:415-468 | a run from the creation of a volume: write 7, 8; the file vanishes; the read returns 0, 0 |
| Witnesses.ShortFileUnreadable | src/cache/engine.rs:470-480 | a run from the creation of a volume: a crash between truncating a chunk file and its set_len; the chunk is not in Error, and its read fails |
| Wholeness.StepKeepsWhole | src/cache/engine.rs:89-480 | no step but a crash inside a write makes a file or an object shorter or longer than its chunk |
| Wholeness.WholeOverRuns | src/cache/engine.rs:89-480 | the same over whole runs |
| Wholeness.WholeReadSucceeds | src/cache/engine.rs:89-105 | while they are whole, a read succeeds if its chunks are not in Error, the cloud answers and they fit below the low watermark |
| RowShapes.RowsShapedOverRuns | src/cache/engine.rs:89-480 | after every possible run, crashes included: exactly Clean, Dirty and Uploading rows have a path, and only they a size; exactly the last two a dirty time; a remote generation is the local one; nothing is pinned or Fetching; all time stamps are in the past |
| Lengths.StepFits | src/cache/engine.rs:89-480 | every step keeps files, and the sizes in the rows, as long as their chunks, but for a crash right after a truncation or inside a write that creates its file |
| Accounting.RecoveredSizes | src/cache/engine.rs:345-377 | after recover, fsck and open the row of every journaled chunk with a file has that file's size |
| Accounting.SizesOverRuns | src/cache/engine.rs:89-480 | over every possible run in which no crash leaves a file short and no file vanishes unnoticed, every cached row has its file and its size, and the cached bytes are the bytes of those files |
| Accounting.DiskOverRuns | src/cache/engine.rs:89-480 | without crashes the files on disk are exactly those of the cached chunks, the cached bytes are all their bytes, and the checksums in the rows are theirs |
| Accounting.NewVolumeAccounted | src/cache/engine.rs:33-480 | the three from the creation of a volume on, over any objects |
| Discipline.EffectsInOrder | src/cache/engine.rs:89-480 | in every operation, each in-place write stands between the WriteBegin of its place and length and the Dirty row and LocalCommitted of that generation; an upload is recorded only once object and row are there; files go before their rows say so, and come before |
| Transparency.EvictTransparent | src/cache/engine.rs:228-261 | eviction, cut anywhere or run to its end, leaves the volume as it was |
| Transparency.CleanIsReplaceable | src/cache/engine.rs:236-258 | filled up to the chunk length, a Clean file equals its object, or zeroes; evicting and refetching it is the identity on the contents |
| Transparency.EnsureTransparent | src/cache/engine.rs:415-468 | fetching a chunk, with the eviction it triggers, cut anywhere, leaves the volume as it was |
| Transparency.EnsureLook | src/cache/engine.rs:415-468 | where fetching leaves its own chunk: untouched if resident, else fetched and Clean, or evicted again |
| Transparency.ReadCorrect | src/cache/engine.rs:89-105 | read_at leaves the volume as it was, and the bytes it returns are the volume's |
| Transparency.SyncTransparent | src/cache/engine.rs:177-226 | uploading, cut anywhere or failing, leaves the volume as it was |
| Transparency.EvictTouches | src/cache/engine.rs:228-261 | eviction touches evictable Clean chunks only; Dirty, Uploading and Fetching ones are never evicted |
| Recovery.RecoverLook | src/cache/engine.rs:316-379 | recovery of a chunk is a function of its file, row and journal summary, time stamps and visiting order aside |
| Recovery.RecoverRepresents | src/cache/engine.rs:316-379 | from any salvageable state recovery restores the volume |
| Recovery.FsckLook | src/cache/engine.rs:274-314 | fsck, which validates twice, leaves each chunk exactly as recover does |
| Recovery.FsckRepresents | src/cache/engine.rs:274-314 | from any salvageable state fsck restores the volume |
| Recovery.RecoverErrors | src/cache/engine.rs:381-413 | exactly when recovery leaves a chunk in Error |
| Repairs.RecoverRepairs | src/cache/engine.rs:316-413 | in every state, row by row: of a journaled chunk with a file, size and checksum of the file, latest generation, Clean or Dirty by the records, stamped with the time of that; of one whose file is lost, Error if it had the only copy, else Missing; any other is as it was |
| Repairs.FsckRepairs | src/cache/engine.rs:274-314 | the same of fsck |
| Repairs.OpenRepairs | src/cache/engine.rs:62-83 | the same of open |
| Repairs.FindingsExactly | src/cache/engine.rs:274-314 | fsck reports a chunk if and only if its row was in a state that has a file and path or file were not there, with that state and the one it is put in, each once, by chunk id |
| Recovery.CrashDuringRecovery | src/cache/engine.rs:316-379 | a crash inside recovery, followed by recovery, is harmless |
| Recovery.RecoveryDependsOnSummary | src/cache/engine.rs:316-379 | states with equal files, rows and summaries recover to equal rows |
| Recovery.RecoveryIdempotent | src/cache/engine.rs:316-379 | recovering twice is recovering once |
| Recovery.CompactionHarmless | src/journal/wal.rs:90-102 | recovery after a compaction that keeps the summaries leaves the same rows |
| Recovery.NoSilentLoss | src/cache/engine.rs:316-413 | after any loss of files, found by open, recover or fsck, the volume is as before, and the chunks newly in Error are exactly the lost Dirty or Uploading ones |
| Recovery.LossFound | src/cache/engine.rs:62-83 | open, recover and fsck all leave such a loss recovered |
| Runs.StepRepresents | src/cache/engine.rs:89-379 | one step of any kind takes the engine from its volume to the expected one |
| Runs.CutTransparently | src/cache/engine.rs:177-379 | a read, sync, eviction, fsck or open cut at any effect is recoverable to the volume from before |
| Runs.CrashRepresents | src/cache/engine.rs:62-379 | any operation crashed at any effect, then any number of boots cut in their recovery with files lost in between, then one that lasts: the expected volume |
| Runs.BootsKeep | src/cache/engine.rs:316-379 | such boots keep everything that can be salvaged, and without losses everything |
| Runs.VanishingIsSafe | src/cache/engine.rs:415-468 | files that are not the only copy can vanish unnoticed |
| Runs.EngineRefinesArray | src/cache/engine.rs:89-379 | the refinement theorem over whole runs with crashes, failed boots, losses noticed or not, and outages; reads return no other bytes |
| Runs.FreshVolume | src/cache/engine.rs:33-60 | a new volume over an empty backend is all zeroes |
| Runs.CreatedExactly | src/cache/engine.rs:33-60 | which volumes can be created over a given backend: exactly those that the objects of its chunks, or zeroes, allow; other objects do not matter |
| Runs.CreatedRepresents | src/cache/engine.rs:33-60 | over objects no longer than their chunks a new volume is what those hold, filled with zeroes |
| Availability.CrashFreeRunIsArray | src/cache/engine.rs:89-314 | without crashes and losses the engine is exactly a byte array |
| Availability.OnlyLossMakesErrors | src/cache/engine.rs:187-199 | no step puts a chunk in Error unless files are lost and the loss is noticed |
| Availability.ReadSucceeds | src/cache/engine.rs:89-105 | a sufficient condition on the state before: when every chunk of an in-range read is not in Error, has no short file, can be fetched and fits below the low watermark, it returns Ok with all its bytes |
| Availability.ReadExactly | src/cache/engine.rs:89-105 | read_at succeeds if and only if the range is in the volume and the chunk of each span in its turn is not in Error and is resident with a file long enough, or can be fetched into a cache with room for it |
| Serving.EnsuresExactly | src/cache/engine.rs:415-468 | in every state: it succeeds if and only if the chunk is not in Error and is held or obtainable, fails with the kind of error that fits, fetches exactly if the chunk is not held, into a Clean row without generation, and then evicts to within the limit; else nothing changes |
| Serving.ReadFailsAs | src/cache/engine.rs:89-105 | the error of a read that fails: of the range, or of the first span that is not served in its turn |
| Serving.ReadKeepsLimit | src/cache/engine.rs:89-105 | a read never takes the cache over its limit |
| Serving.ReadMakesRecent | src/cache/engine.rs:102 | a read that succeeds makes its chunks the most recently used, so that every other cached chunk goes before them |
| Success.WriteSucceedsExactly | src/cache/engine.rs:107-170 | in every state: write_at succeeds if and only if the range is in the volume and each span in its turn covers its whole chunk, or finds it not in Error and held or obtainable; else it fails with the error of the first that does not |
| Success.WriteSucceeds | src/cache/engine.rs:107-170 | on the state before the call: it succeeds if each span covers its chunk, or finds it not in Error and obtainable or held and Dirty; and only if each does, or finds it held and Clean |
| Records.WritesExactly | src/cache/engine.rs:107-170 | in every state: each span up to the first refused left its two records, with the next txids, its place and length and the next generation, its bytes in the file and a Dirty row, dirty since later than those before it; no other chunk did more than get evicted; on Ok the cache is within its limit |
| Uploads.SyncsExactly | src/cache/engine.rs:177-226 | in every state: the Dirty chunks are uploaded longest dirty first, up to the first without path or file or that the cloud refuses; each is then Clean, with its file as object, its generation and checksum in row and record; how it stops and with which error; on Ok the count is the bytes of the files, and the cache is within its limit |
| Eviction.EvictExact | src/cache/engine.rs:228-261 | eviction takes exactly the shortest sufficient prefix in access order, or all; its counter is exact and never saturates; afterwards the cache is within its maximum or nothing is evictable |
| CacheLimit.EvictsExactly | src/cache/engine.rs:228-261 | in every state: above the maximum the Clean unpinned chunks go, by last access and then id, none that need not, until the low watermark or until none is left; each keeps generations and checksum and loses its file; the count is theirs; the cache is within its limit |
| Eviction.FetchedSurvivesExactly | src/cache/engine.rs:433-467 | a fetched chunk survives its own fetch if and only if there was room for it |
| Eviction.FetchedSurvives | src/cache/engine.rs:433-467 | the sufficient condition on the state before: held bytes plus the chunk fit below the low watermark |
| Agreement.StepAgrees | src/cache/engine.rs:125-221 | every fresh step keeps journal and states in agreement, on the Dirty chunks always, on Clean and Missing ones unless files are lost while the machine is down |
| Agreement.JournalAgreesOverRuns | src/cache/engine.rs:125-376 | over fresh runs, crashes included, the latest journaled generation is not uploaded when the row is Dirty, and is when it is Clean or Missing unless files were lost while the machine was down |
| Agreement.RecoveryAgreesExactly | src/cache/engine.rs:316-379 | recovery restores full agreement if and only if no journaled, Clean or Missing chunk without a file lacks its upload record |
| Witnesses.DownLossDisagrees | src/cache/engine.rs:177-226 | a run from the creation of a volume that leaves such a chunk |
| Agreement.DirtyStaysDirty | src/cache/engine.rs:345-377 | so recovery never turns an acknowledged, not uploaded write Clean |
| History.JournalWellFormedOverRuns | src/cache/engine.rs:130-166 | the journal is well formed and its next txid fresh after every run, guarded or not |
| NewVolume.EveryRun | src/cache/engine.rs:33-379 | all of it from the creation of a volume on, over any objects that fit: the array that started as those, reads that agree with it, journal well formed and in agreement with the states |
| NewVolume.FreshnessSuffices | src/cache/engine.rs:33-379 | from an empty backend the same holds over every possible run whose writes are fresh, with any cache size and no other guard |
| Freshness.FreshRunGuarded | src/cache/engine.rs:115-167 | while only journaled chunks hold promised bytes other than zero, every fresh write of a run has room, or needs none |
| Durability.SyncDurable | src/cache/engine.rs:177-226 | sync succeeds exactly when the cloud takes every Dirty chunk; then the count is the bytes of their files, nothing is Dirty, and the cloud determines the volume |
| Durability.CacheDisposableAfterSync | src/cache/engine.rs:177-226 | after a successful sync any files may be lost: the volume is as before, and a chunk is newly in Error if and only if it lost its file and was Uploading before the sync |
| Durability.DirectoryDisposableAfterSync | src/cache/engine.rs:33-60 | after a successful sync the whole cache directory may be lost: a volume created anew over the same cloud is the same, if and only if the cloud has what is promised of the chunks that were in Error |
| Failures.ErrorPersists | src/cache/engine.rs:415-421 | a chunk in Error without a file stays so through every step that does not overwrite it whole |
| Failures.ErrorPersistsOverRuns | src/cache/engine.rs:415-421 | the same over whole runs |
| Failures.BrokenReadsFail | src/cache/engine.rs:415-421 | every read that touches such a chunk fails |
| Failures.WrittenChunksAreDirty | src/cache/engine.rs:115-167 | every chunk whose span was acknowledged is Dirty and journaled when write_at returns, failed or not |
| Headroom.WriteHeadroom | src/metadata.rs:143-154 | a write of m bytes uses up at most m of the txids and generations that SQLite and the journal can still hold |
| Engine.CacheEngine.constructor | src/cache/engine.rs:33-60 | a new engine keeps the objects the backend already holds, and represents the volume that those make up |
| Engine.CacheEngine.FetchChunk | src/cloud/local_mock.rs:46-59 | no object, an object of the right size, or an error |
| Engine.CacheEngine.UploadChunk | src/cloud/local_mock.rs:61-66 | stores the object and returns its checksum, or fails with nothing stored |
| Engine.CacheEngine.ChunkLen | src/cache/engine.rs:489-493 | the length of a chunk, short at the end of the volume and 0 beyond |
| Engine.CacheEngine.TotalChunks | src/cache/engine.rs:495-499 | the number of chunks, whose lengths add up to the volume |
| Engine.CacheEngine.EvictIfNeeded | src/cache/engine.rs:228-261 | performs exactly the eviction effects, which is what CacheLimit.EvictsExactly says, counts the chunks that went, and keeps the volume |
| Engine.CacheEngine.EvictRows | src/cache/engine.rs:236-259 | its loop |
| Engine.CacheEngine.EnsureChunkForRead | src/cache/engine.rs:415-468 | performs exactly the fetch effects or fails with none; when it succeeds, how it fails and what it leaves, told on the states: a chunk that was fetched, and a cache within its limit |
| Engine.CacheEngine.ReadAt | src/cache/engine.rs:89-105 | performs exactly the read effects; what it returns agrees with the volume, which it keeps; fails on a range outside the volume; keeps the cache within its limit |
| Engine.CacheEngine.ReadInto | src/cache/engine.rs:96-104 | its loop, filling the buffer in place |
| Engine.CacheEngine.PrepareEmptyChunk | src/cache/engine.rs:470-480 | truncates the chunk file and then sets its length, before anything is logged |
| Engine.CacheEngine.CommitSpan | src/cache/engine.rs:125-166 | logs WriteBegin, writes in place, upserts the Dirty row, logs LocalCommitted, in that order and with those fields; the journal file gets exactly those lines, and reads as what was logged if it was sound |
| Engine.CacheEngine.WriteAt | src/cache/engine.rs:107-170 | succeeds exactly as Success.WriteSucceedsExactly says, and leaves what Records.WritesExactly says, on Ok with the cache within its limit; adds exactly the lines of its records to the journal file, which reads as what was logged if it was sound; under the caller's guard replaces exactly the acknowledged prefix, all of it if and only if Ok |
| Engine.CacheEngine.WriteLoop | src/cache/engine.rs:115-167 | its loop, journal file included |
| Engine.CacheEngine.SyncRow | src/cache/engine.rs:179-222 | one row of sync: no path, no file, upload refused, or uploaded and logged, with the row, object, record and error of each; the journal file as in CommitSpan |
| Engine.CacheEngine.SyncDirty | src/cache/engine.rs:177-226 | what Uploads.SyncsExactly says, on Ok with the cache within its limit; adds exactly the lines of its records to the journal file, which reads as what was logged if it was sound; keeps the volume; on Ok nothing is Dirty and the count is the bytes of the files |
| Engine.CacheEngine.SyncLoop | src/cache/engine.rs:178-223 | its loop, journal file included |
| Engine.CacheEngine.ValidateRow | src/cache/engine.rs:277-310 | if and only if the row claims a file and path or file are not there, gives the row up and reports the chunk, its state and its new one, Error or Missing; else it changes and reports nothing |
| Engine.CacheEngine.ValidateLocalChunkFiles | src/cache/engine.rs:381-413 | performs exactly the validation effects; its findings are those of Repairs.FindingsExactly |
| Engine.CacheEngine.Scan | src/cache/engine.rs:319-343 | fails exactly if the journal does not read; else the two maps are the latest generations and the uploaded ones |
| Engine.CacheEngine.RebuildRow | src/cache/engine.rs:345-377 | gives a journaled chunk with a file the row that file and journal make: its size and checksum, the latest generation, Clean or Dirty; without a file, changes nothing |
| Engine.CacheEngine.Recover | src/cache/engine.rs:316-379 | repairs every row as Repairs.RecoverRepairs says, sizes included, in some order of the map, and restores the volume; if the journal does not read it fails once the files are validated |
| Engine.CacheEngine.RebuildRows | src/cache/engine.rs:345-377 | its loop over the map, in some order that visits each journaled chunk once |
| Engine.CacheEngine.Fsck | src/cache/engine.rs:274-314 | reports exactly the lost files, in terms of the rows and files before the call; repairs every row as recover does; restores the volume; fails exactly if the journal does not read |
| Engine.CacheEngine.Open | src/cache/engine.rs:62-83 | on any journal file: fails exactly if it does not read; else repairs every row and recovers the volume, also when the file's last line lost its newline |
| Restart.WriteThenOpen | src/cache/engine.rs:62-170 | write_at and then an open: with a sound journal file the acknowledged bytes are found; with one that had lost its last newline, the open fails unless that record was of an upload, and then finds another journal |
| Framing.ReadNumber | src/device/nbd_linux.rs:115-125 | a number written big-endian reads back |
| Framing.BigEndianAt | src/device/nbd_linux.rs:115-125 | byte i of a number is its quotient by the power of 256 that leaves the bytes after it, modulo 256 |
| Framing.RequestLayout | src/device/nbd_linux.rs:108-125 | where each field of a request lies on the wire, byte by byte, the magic included |
| Framing.ParsesExactly | src/device/nbd_linux.rs:108-140 | on the bytes: fewer than 28 end the stream, another magic is refused, a payload follows command 1 only, and what is left after it |
| Framing.ParseBytes | src/device/nbd_linux.rs:108-140 | a request at the front of a stream is read back, leaving the rest |
| Framing.ParsedIs | src/device/nbd_linux.rs:108-140 | a request that was read is exactly the bytes consumed: 28, and the payload of a WRITE only |
| Framing.ParseReplyBytes | src/device/nbd_linux.rs:207-212 | a client reads a reply back, with data after a successful READ only |
| Framing.ReplyLayout | src/device/nbd_linux.rs:207-212 | where each field of a reply lies on the wire, byte by byte |
| Nbd.StaysAligned | src/device/nbd_linux.rs:104-178 | after any requests, however they end, the next one is served as if it came first |
| Nbd.Connection | src/device/nbd_linux.rs:104-178 | a connection closed by DISC: one reply per request, in order, under its handle and with the error that its command can have, none for DISC, and the client can tell them apart |
| Nbd.EveryStream | src/device/nbd_linux.rs:104-178 | every byte stream splits into requests and a rest at which the loop stops, and how it stops |
| Nbd.HangUp | src/device/nbd_linux.rs:99-106 | a hang-up that poll reports before all requests are read ends the loop well, with exactly the requests read so far answered |
| Nbd.DeviceRefinesArray | src/device/nbd_linux.rs:127-176 | guarded requests are answered as by a flat block device: READ, WRITE and WRITE_ZEROES with 0 or EIO, and never with 0 outside it; FLUSH and TRIM with 0; any other command with EINVAL and no effect |
| Nbd.SureWriteAnswered | src/device/nbd_linux.rs:137-148 | a WRITE or WRITE_ZEROES is answered 0 if and only if write_at succeeds, on the condition of Success.WriteSucceedsExactly, and 5 otherwise; 0 for sure on that of Success.WriteSucceeds |
| Nbd.SureWritesAnswered | src/device/nbd_linux.rs:99-179 | so no such write of a connection is refused |
| Nbd.ConnectionIsDevice | src/device/nbd_linux.rs:99-179 | from bytes to bytes: what the client reads back is what a flat block device answers |
| NbdServer.Socket.WriteReply | src/device/nbd_linux.rs:207-212 | sends magic, error and handle, big-endian |
| NbdServer.ReadRequest | src/device/nbd_linux.rs:108-140 | takes one request from the stream: end of stream, bad magic, short payload or a request |
| NbdServer.HandleRequest | src/device/nbd_linux.rs:127-176 | does what one request asks and sends its one reply: handle, data, and 0 or 5 for READ, WRITE and WRITE_ZEROES, 0 for FLUSH and TRIM, 22 for any other; the journal file gets exactly the lines of what was logged |
| NbdServer.ServeRequests | src/device/nbd_linux.rs:99-179 | the loop drives the engine and the socket exactly as the byte-stream specification says, whenever the client hangs up; the journal file gets exactly the lines of what was logged |

## Left out

- The S3 client, its runtime and configuration: network I/O. The cloud is a map; `down` names the chunks it fails on.
- A cloud that fails half-way through one call: an outage begins and ends between operations.
- Real files, tmp files, renames and fsync: file effects are atomic and durable, but for torn in-place writes, and happen in the order in which they are issued.
- SQLite and its pragmas, its errors, and the i64 conversions: the table is a map with atomic upserts. Txids and generations have to leave headroom below 2^63.
- I/O errors of local files other than a missing or short file.
- SHA-256: an uninterpreted function whose results look as sha256_hex writes them; nothing is decided from a checksum.
- `now_ns`: a clock that is ahead of every time stamp handed out. Two writes in one nanosecond, or a clock set back, are not modelled.
- A `local_path` other than the chunk's own path: a row only says whether it is set.
- Engine.CacheEngine.Open: reopens the same object, where the program makes a new one in a new process; an outage in the middle is not modelled.
- `flush`: it checkpoints SQLite and changes nothing in the model; FLUSH and DISC only reply or end.
- `status`, manifests, their validation and paths: what validation checks (non-zero sizes and cache, a low watermark within the maximum) is assumed of a configuration.
- The text of fsck's findings: a finding is the chunk, its old state and its new one.
- NBD device set-up, ioctls, threads and poll timeouts: the loop sees the bytes the client sends, and a number of polls after which it is told to stop.
- The Fetching state as a reachable state: no code sets it. It is handled wherever the code mentions it.
- All-or-nothing writes: a span in flight when a crash comes is left unknown; the code promises no more.
- The CLI, the volume registry, size parsing and printing.
