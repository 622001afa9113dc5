/** The engine across a restart: what a process that opens the volume finds of what another one did. */
module Restart {
  import opened Wrappers
  import opened Mapper
  import opened Wal
  import opened WalCodec
  import opened WalText
  import opened WalTorn
  import opened WalFile
  import opened WalMerge
  import opened Store
  import opened Volume
  import opened Operations
  import opened Safety
  import opened Writing
  import opened Guards
  import opened Runs
  import opened Headroom
  import opened Engine
  import opened TornAppends

  // ---------------------------------------------------------------- a write, then an open

  lemma {:induction false} JournalGrows(s: State, t: seq<Effect>)
    ensures |Run(s, t).journal| >= |s.journal|
    ensures (exists k :: 0 <= k < |t| && t[k].Append?) ==> |Run(s, t).journal| > |s.journal|
    decreases t
  {
    if t != [] {
      JournalGrows(Apply(s, t[0]), t[1..]);
      assert forall k :: 0 < k < |t| ==> t[k] == t[1..][k - 1];
    }
  }

  lemma SpanLogs(cfg: Config, s: State, sp: Span, data: seq<byte>)
    requires Within(sp, data) && WriteSpan(cfg, s, sp, data).Ok?
    ensures exists k :: 0 <= k < |WriteSpan(cfg, s, sp, data).value| && WriteSpan(cfg, s, sp, data).value[k].Append?
  {
    hide Run, Prepare, WriteSpan, Look;
    WriteSpanIs(cfg, s, sp, data);
    var a := Prepare(cfg, s, sp).value;
    var b := Commit(cfg, Run(s, a), sp, SpanData(sp, data));
    assert (a + b)[|a|] == b[0] && b[0].Append?;
  }

  /** A write that acknowledges anything logs something. */
  lemma AcknowledgedIsLogged(cfg: Config, s: State, offset: nat, data: seq<byte>)
    requires Acknowledged(cfg, s, offset, data) > 0
    ensures |Run(s, Write(cfg, s, offset, data).trace).journal| > |s.journal|
  {
    hide Run, WriteSpan, Evict;
    var spans := Spans(offset, |data|, cfg.geo).value;
    SpansWithin(offset, data, cfg.geo);
    var t := WriteSpan(cfg, s, spans[0], data).value;
    SpanLogs(cfg, s, spans[0], data);
    var k :| 0 <= k < |t| && t[k].Append?;
    var whole := Write(cfg, s, offset, data).trace;
    assert t <= WriteSpans(cfg, s, spans, data).trace <= whole;
    assert whole[k] == t[k];
    JournalGrows(s, whole);
  }

  /**
   * `write_at`, and then a new process opens the volume. If the journal file was sound, that finds every
   * acknowledged byte. If the file had lost the newline of its last record, in a crash before, then once
   * the write has acknowledged anything the volume opens only if that record was of an upload; and even
   * then the journal is not the one that was written.
   */
  method WriteThenOpen(engine: CacheEngine, offset: nat, data: seq<byte>)
    returns (w: Result<()>, r: Result<()>, ghost order: seq<nat>)
    requires engine.Valid() && offset <= U64_MAX && |data| <= U64_MAX && HasHeadroom(engine.Now(), |data|)
    modifies engine`files, engine`clock, engine`trace, engine.db, engine.journal
    ensures w == Write(engine.cfg, old(engine.Now()), offset, data).result
    ensures old(engine.journal.Sound()) ==> r.Ok?
    ensures old(engine.journal.Sound()) ==>
              forall v :: Represents(engine.cfg, old(engine.Now()), v)
                          && CallerWriteGuard(engine.cfg, old(engine.Now()), offset, |data|) ==>
                var done := Acknowledged(engine.cfg, old(engine.Now()), offset, data);
                && done <= |data| && (done > 0 ==> offset + done <= |v|)
                && Represents(engine.cfg, engine.Now(), if done == 0 then v else Put(v, offset, data[..done]))
    ensures old(OpenEnded(engine.journal.text, engine.journal.events))
            && Acknowledged(engine.cfg, old(engine.Now()), offset, data) > 0 ==>
              var events := old(engine.journal.events);
              && (r.Ok? <==> events[|events| - 1].CloudCommitted?)
              && (r.Ok? ==>
                    engine.journal.events
                    != Run(old(engine.Now()), Write(engine.cfg, old(engine.Now()), offset, data).trace).journal)
  {
    hide Run, Represents, Salvageable, Write, CallerWriteGuard, Acknowledged, Put, Reopened, ReadText, LastLine,
         Extends, HasHeadroom, IsOrder, OpenEnded, MergedEvent;
    ghost var s0, text0 := engine.Now(), engine.journal.text;
    w := engine.WriteAt(offset, data);
    ghost var s1, text1 := engine.Now(), engine.journal.text;
    engine.SoFar(s0, old(engine.trace), Write(engine.cfg, s0, offset, data).trace);
    if Acknowledged(engine.cfg, s0, offset, data) > 0 {
      AcknowledgedIsLogged(engine.cfg, s0, offset, data);
      if OpenEnded(text0, s0.journal) {
        AppendsAfterLoss(text0, s0.journal, text1, s1.journal);
        MergedIsOther(s0.journal, s1.journal, text0, text1);
      }
    }
    AlwaysSalvageable(engine.cfg, s1);
    r, order := engine.Open();
  }

  lemma AlwaysSalvageable(cfg: Config, s: State)
    ensures forall v :: Represents(cfg, s, v) ==> Salvageable(cfg, s, v)
  {
    hide Represents, Salvageable, Recoverable;
    forall v | Represents(cfg, s, v)
      ensures Salvageable(cfg, s, v)
    {
      SettledIsSafe(cfg, s, v);
      SafeIsSalvageable(cfg, s, v);
    }
  }

  lemma MergedIsOther(events: seq<Event>, events': seq<Event>, text: string, text': string)
    requires OpenEnded(text, events) && Extends(text, events, text', events') && |events'| > |events|
    ensures var r := ReadsAfter(events, events'[|events|..]);
            (r.Ok? <==> events[|events| - 1].CloudCommitted?) && r != Ok(events')
  {
    hide MergedEvent;
    var more := events'[|events|..];
    if events[|events| - 1].CloudCommitted? {
      assert |ReadsAfter(events, more).value| == |events| + |more| - 1;
    }
  }

  // ---------------------------------------------------------------- an append cut short, then an open

  lemma SameStores(cfg: Config, a: State, b: State, v: Cells)
    requires a.files == b.files && a.rows == b.rows && a.cloud == b.cloud && a.journal == b.journal
    requires Salvageable(cfg, b, v)
    ensures Salvageable(cfg, a, v)
  {
    forall c: nat
      ensures ChunkSalvageable(cfg, a, v, c)
    {
      assert ChunkSalvageable(cfg, b, v, c) && Look(a, c) == Look(b, c);
    }
  }

  /**
   * An engine opens what a crash has left in which m bytes of a journal line reached the file. It fails if
   * and only if those stop short of the line's last value; else it recovers the volume as of the crash.
   */
  method OpenAfterTornAppend(engine: CacheEngine, ghost s: State, ghost v: Cells, ghost op: Op, ghost k: nat,
      ghost text: string, ghost m: nat)
    returns (r: Result<()>, ghost order: seq<nat>)
    requires engine.Valid() && Appending(engine.cfg, s, v, op, k)
    requires Complete(text) && ReadText(text) == Ok(AtCrash(engine.cfg, s, op, k).journal)
    requires var e := TraceOf(engine.cfg, s, op)[k].event;
             && Encodable(e) && (e.CloudCommitted? ==> Solid(e.checksum)) && m <= |Encode(e)|
             && engine.journal.text == TornText(text, e, m)
    requires var s1 := AtCrash(engine.cfg, s, op, k);
             engine.files == s1.files && engine.db.rows == s1.rows && engine.cloud == s1.cloud
    modifies engine`clock, engine`trace, engine.db, engine.journal
    ensures r.Ok? <==> m == 0 || m >= ReadsFrom(TraceOf(engine.cfg, s, op)[k].event)
    ensures r.Ok? ==> Represents(engine.cfg, engine.Now(), CutVolume(engine.cfg, s, v, op, k))
  {
    hide Run, Represents, Salvageable, ReadText, Reopened, IsOrder, CutVolume, ReadsFrom, TraceOf, TornText, Encode,
         Complete, Encodable, AtCrash;
    TornAppend(engine.cfg, s, v, op, k, text, m);
    if ReadText(engine.journal.text).Ok? {
      SameStores(engine.cfg, engine.Found(),
                 AtCrash(engine.cfg, s, op, k).(journal := ReadText(engine.journal.text).value),
                 CutVolume(engine.cfg, s, v, op, k));
    }
    r, order := engine.Open();
  }
}
