/**
 * What an unfinished last line does to the next record. A crash that loses just the newline of a record
 * leaves a file that reads well; the next append then completes that line instead of starting one.
 */
module WalMerge {
  import opened Wrappers
  import opened Mapper
  import opened Wal
  import opened WalText
  import opened WalCodec
  import opened WalTorn
  import opened WalFile

  // ---------------------------------------------------------------- two records on one line

  /** The token that the end of one record and the start of the next become. */
  function Glued(e1: Event, e2: Event): string { LastValue(e1) + ("type=" + TypeName(e2)) }

  function MergedPairs(e1: Event, e2: Event): seq<Pair> {
    Init(e1) + [Pair(LastKey(e1), Glued(e1, e2))] + PairsOf(e2)[1..]
  }

  lemma {:induction false} LineOfConcat(a: seq<Pair>, p: Pair, q: Pair, b: seq<Pair>)
    ensures Line(a + [p]) + Line([q] + b) == Line(a + [Pair(p.key, p.value + q.Token())] + b)
    decreases |a|
  {
    var m := Pair(p.key, p.value + q.Token());
    if a == [] {
      assert [] + [p] == [p] && a + [m] + b == [m] + b;
      assert ([q] + b)[1..] == b && ([m] + b)[1..] == b;
      assert p.Token() + q.Token() == m.Token();
    } else {
      LineOfConcat(a[1..], p, q, b);
      assert (a + [p])[1..] == a[1..] + [p];
      assert (a + [m] + b)[1..] == a[1..] + [m] + b;
      var t, x, y := a[0].Token(), Line(a[1..] + [p]), Line([q] + b);
      assert (t + " " + x) + y == t + " " + (x + y);
    }
  }

  lemma TypeFirst(e: Event)
    ensures PairsOf(e) != [] && PairsOf(e) == [Pair("type", TypeName(e))] + PairsOf(e)[1..]
  {
  }

  lemma TwoOnOneLine(e1: Event, e2: Event)
    ensures Encode(e1) + Encode(e2) == Line(MergedPairs(e1, e2))
  {
    hide Line, Init, PairsOf;
    PairsSplit(e1);
    TypeFirst(e2);
    LineOfConcat(Init(e1), Pair(LastKey(e1), LastValue(e1)), Pair("type", TypeName(e2)), PairsOf(e2)[1..]);
    assert "type" + "=" + TypeName(e2) == "type=" + TypeName(e2);
  }

  lemma GluedSolid(e1: Event, e2: Event)
    requires Encodable(e1) && Encodable(e2)
    ensures Solid(Glued(e1, e2))
  {
    hide PairsOf, Init, KeyLike, Decimal, Solid, LastValue;
    PairsGood(e1);
    PairsSplit(e1);
    PairsGood(e2);
    TypeFirst(e2);
    var p1, q := Pair(LastKey(e1), LastValue(e1)), Pair("type", TypeName(e2));
    assert PairsOf(e1)[|Init(e1)|] == p1 && GoodPair(p1);
    assert PairsOf(e2)[0] == q && GoodPair(q);
    TokenSolid(q);
    assert "type" + "=" + TypeName(e2) == "type=" + TypeName(e2);
    SolidConcat(LastValue(e1), "type=" + TypeName(e2));
  }

  lemma MergedGood(e1: Event, e2: Event)
    requires Encodable(e1) && Encodable(e2)
    ensures GoodPairs(MergedPairs(e1, e2)) && Solid(Glued(e1, e2))
  {
    hide PairsOf, Init, KeyLike, Decimal, Solid, LastValue, Glued;
    PairsGood(e1);
    PairsSplit(e1);
    PairsGood(e2);
    TypeFirst(e2);
    GluedSolid(e1, e2);
    PairsGoodInit(e1);
    assert PairsOf(e1)[|Init(e1)|] == Pair(LastKey(e1), LastValue(e1)) && GoodPair(PairsOf(e1)[|Init(e1)|]);
    GoodConcat(Init(e1), Pair(LastKey(e1), Glued(e1, e2)), PairsOf(e2));
  }

  lemma GoodConcat(a: seq<Pair>, p: Pair, b: seq<Pair>)
    requires GoodPairs(a) && GoodPair(p) && GoodPairs(b) && b != []
    ensures GoodPairs(a + [p] + b[1..])
  {
    hide GoodPair;
    var all := a + [p] + b[1..];
    forall i | 0 <= i < |all|
      ensures GoodPair(all[i])
    {
      if i > |a| {
        assert all[i] == b[i - |a|];
      }
    }
  }

  lemma DecodeLineIs(ps: seq<Pair>)
    requires GoodPairs(ps)
    ensures Decode(Line(ps)) == DecodePairs(ps)
  {
    TokensOfLine(ps);
    AbsorbLine(NO_FIELDS, ps);
  }

  lemma AbsorbAfter(f: Fields, n: nat)
    requires n <= U64_MAX
    ensures Absorb(f, Pair("after_generation", Decimal(n))) == Ok(f.(after := Some(n)))
  {
    hide Decimal, ParseU64;
    KeysDistinct();
    ParseDecimal(n);
  }

  lemma AbsorbChecksum(f: Fields, w: string)
    ensures Absorb(f, Pair("checksum", w)) == Ok(f.(checksum := Some(Unescape(w))))
  {
    KeysDistinct();
  }

  /** The fields of a record, its type aside, overwrite what was there. */
  function TailFields(f: Fields, e: Event): Fields {
    match e
    case WriteBegin(txid, c, off, len, before, after) =>
      f.(txid := Some(txid), chunkId := Some(c), offsetInChunk := Some(off), length := Some(len),
         before := Some(before), after := Some(after))
    case LocalCommitted(txid, c, after) => f.(txid := Some(txid), chunkId := Some(c), after := Some(after))
    case CloudCommitted(c, g, sum) =>
      f.(chunkId := Some(c), generation := Some(g), checksum := Some(Unescape(Escape(sum))))
  }

  lemma AbsorbTail(f: Fields, e: Event)
    requires FieldsFit(e)
    ensures AbsorbPairs(f, PairsOf(e)[1..]) == Ok(TailFields(f, e))
  {
    hide Absorb, AbsorbPairs, Decimal, Unescape, Escape;
    var ps := PairsOf(e)[1..];
    match e
    case WriteBegin(txid, c, off, len, before, after) =>
      var f3 := f.(txid := Some(txid), chunkId := Some(c), offsetInChunk := Some(off));
      AbsorbNumber(f, txid);
      AbsorbNumber(f.(txid := Some(txid)), c);
      AbsorbNumber(f.(txid := Some(txid), chunkId := Some(c)), off);
      AbsorbThree(ps[..3], f);
      AbsorbNumber(f3, len);
      AbsorbNumber(f3.(length := Some(len)), before);
      AbsorbAfter(f3.(length := Some(len), before := Some(before)), after);
      AbsorbThree(ps[3..], f3);
      AbsorbConcat(f, ps[..3], ps[3..]);
      assert ps == ps[..3] + ps[3..];
    case LocalCommitted(txid, c, after) =>
      AbsorbNumber(f, txid);
      AbsorbNumber(f.(txid := Some(txid)), c);
      AbsorbAfter(f.(txid := Some(txid), chunkId := Some(c)), after);
      AbsorbThree(ps, f);
    case CloudCommitted(c, g, sum) =>
      AbsorbNumber(f, c);
      AbsorbNumber(f.(chunkId := Some(c)), g);
      AbsorbChecksum(f.(chunkId := Some(c), generation := Some(g)), Escape(sum));
      AbsorbThree(ps, f);
  }

  lemma GluedIsNoNumber(n: nat, kind: string)
    ensures ParseU64(Decimal(n) + ("type=" + kind)).None?
  {
    DecimalFacts(n);
    var d, s := Decimal(n), Decimal(n) + ("type=" + kind);
    assert s[0] == d[0] && IsDigit(d[0]);
    assert s[|d|] == 't';
  }

  /** The upload record that a merged line reads as: the chunk of the second record, the generation of the first. */
  function MergedEvent(e1: Event, e2: Event): Event
    requires e1.CloudCommitted?
  {
    if e2.CloudCommitted? then e2 else CloudCommitted(e2.chunkId, e1.generation, Unescape(Glued(e1, e2)))
  }

  /**
   * Two records on one line. After a WriteBegin or a LocalCommitted, the line, and so the whole file, is
   * rejected. After a CloudCommitted it reads as one CloudCommitted: as the second record alone if that is
   * one as well, and else as an upload that never happened.
   */
  lemma MergedLine(e1: Event, e2: Event)
    requires Encodable(e1) && Encodable(e2)
    ensures Decode(Encode(e1) + Encode(e2)) == if e1.CloudCommitted? then Ok(MergedEvent(e1, e2)) else Err(Corrupt)
  {
    hide Decode, Encode, Line, GoodPairs, AbsorbPairs, Absorb, PairsOf, Decimal, Unescape, Escape, ParseU64;
    TwoOnOneLine(e1, e2);
    MergedGood(e1, e2);
    DecodeLineIs(MergedPairs(e1, e2));
    MergedDecodes(e1, e2);
  }

  lemma MergedDecodes(e1: Event, e2: Event)
    requires Encodable(e1) && Encodable(e2)
    ensures DecodePairs(MergedPairs(e1, e2)) == if e1.CloudCommitted? then Ok(MergedEvent(e1, e2)) else Err(Corrupt)
  {
    hide AbsorbPairs, Absorb, PairsOf, Init, Decimal, Unescape, Escape, ParseU64;
    TypeFirst(e2);
    var w, tail := Glued(e1, e2), PairsOf(e2)[1..];
    var last := Pair(LastKey(e1), w);
    assert MergedPairs(e1, e2) == (Init(e1) + [last]) + tail;
    AbsorbConcat(NO_FIELDS, Init(e1) + [last], tail);
    AbsorbConcat(NO_FIELDS, Init(e1), [last]);
    AbsorbInit(e1);
    AbsorbOne(InitFields(e1), last);
    if e1.CloudCommitted? {
      AbsorbChecksum(InitFields(e1), w);
      var f := InitFields(e1).(checksum := Some(Unescape(w)));
      AbsorbTail(f, e2);
      TypesDistinct();
      if e2.CloudCommitted? {
        EscapeRoundTrip(e2.checksum);
      }
    } else {
      GluedIsNoNumber(e1.after, TypeName(e2));
      AbsorbBadAfter(InitFields(e1), w);
    }
  }

  lemma AbsorbBadAfter(f: Fields, w: string)
    requires ParseU64(w).None?
    ensures Absorb(f, Pair("after_generation", w)) == Err(Corrupt)
  {
    hide ParseU64;
    KeysDistinct();
  }

  // ---------------------------------------------------------------- the file afterwards

  /** The next append to a journal whose last record, e1, lost its newline. */
  lemma MergedFile(text: string, events: seq<Event>, e1: Event, e2: Event)
    requires Complete(text) && ReadText(text) == Ok(events) && Encodable(e1) && Encodable(e2)
    ensures ReadText(text + Encode(e1)) == Ok(events + [e1])
    ensures var after := text + Encode(e1) + Encode(e2) + "\n";
            && Complete(after)
            && ReadText(after) == if e1.CloudCommitted? then Ok(events + [MergedEvent(e1, e2)]) else Err(Corrupt)
  {
    hide Decode, Encode, ReadText, Encodable, Blank, OnlyPlainSpaces, MergedEvent;
    WholeLine(text, events, e1);
    MergedLine(e1, e2);
    MergedIsPlain(e1, e2);
    var line := Encode(e1) + Encode(e2);
    LineReads(line);
    ReadConcat(text, line + "\n");
    assert text + Encode(e1) + Encode(e2) + "\n" == text + (line + "\n");
  }

  lemma LineReads(line: string)
    requires OnlyPlainSpaces(line) && line != "" && !Blank(line)
    ensures ReadText(line + "\n") == match Decode(line) case Err(e) => Err(e) case Ok(ev) => Ok([ev])
  {
    hide Decode, Lines;
    OneLine(line);
    DecodeOne(line);
  }

  lemma MergedIsPlain(e1: Event, e2: Event)
    requires Encodable(e1) && Encodable(e2)
    ensures var line := Encode(e1) + Encode(e2); OnlyPlainSpaces(line) && line != "" && !Blank(line)
  {
    hide Encode;
    EncodePlain(e1);
    EncodePlain(e2);
    var i :| 0 <= i < |Encode(e1)| && !IsSpace(Encode(e1)[i]);
    assert (Encode(e1) + Encode(e2))[i] == Encode(e1)[i];
  }

  /**
   * So an append does not always add its event, even to a journal the engine wrote itself: take the
   * newline from the end of any journal, and the next record of any kind is lost or spoils the file.
   */
  lemma LostNewline(events: seq<Event>, e: Event)
    requires events != [] && AllEncodable(events) && Encodable(e)
    ensures TextOf(events) != ""
    ensures var text := TextOf(events)[..|TextOf(events)| - 1];
            && ReadText(text) == Ok(events)
            && ReadText(text + Encode(e) + "\n") != Ok(events + [e])
            && (!events[|events| - 1].CloudCommitted? ==> ReadText(text + Encode(e) + "\n").Err?)
  {
    hide ReadText, Encode, Complete, Encodable;
    var n := |events| - 1;
    JournalRoundTrip(events[..n]);
    MergedFile(TextOf(events[..n]), events[..n], events[n], e);
    assert events == events[..n] + [events[n]];
    assert TextOf(events)[..|TextOf(events)| - 1] == TextOf(events[..n]) + Encode(events[n]);
    if events[n].CloudCommitted? {
      assert |events[..n] + [MergedEvent(events[n], e)]| != |events + [e]|;
    }
  }

  /** An upload record that lost its newline, and the two records of the next write. */
  predicate NextWrite(up: Event, begin: Event, done: Event) {
    && up.CloudCommitted? && Acknowledges(begin, done)
    && Encodable(up) && Encodable(begin) && Encodable(done)
  }

  /**
   * After such a crash, the journal of the next write says that the chunk written was uploaded, in the
   * generation that the other upload had: the WriteBegin has turned into that claim.
   */
  lemma MergedWrite(text: string, events: seq<Event>, up: Event, begin: Event, done: Event)
    requires Complete(text) && ReadText(text) == Ok(events) && NextWrite(up, begin, done)
    ensures var file := text + Encode(up) + Encode(begin) + "\n" + Encode(done) + "\n";
            ReadText(file) == Ok(events + [MergedEvent(up, begin)] + [done])
  {
    hide Decode, Encode, Lines, Encodable, ReadText;
    MergedFile(text, events, up, begin);
    AppendReads(text + Encode(up) + Encode(begin) + "\n", events + [MergedEvent(up, begin)], done);
  }

  /** What recovery then makes of the written chunk, and what it should have made of it. */
  lemma MergedSummary(events: seq<Event>, up: Event, begin: Event, done: Event)
    requires NextWrite(up, begin, done)
    ensures var c, g := done.chunkId, Max(LatestLocal(events, done.chunkId).GetOr(0), done.after);
            && Summarize(events + [MergedEvent(up, begin)] + [done], c)
               == Summary(Some(g), g == up.generation || g in Synced(events, c))
            && Summarize(events + [up] + [begin] + [done], c)
               == Summary(Some(g), (up.chunkId == c && g == up.generation) || g in Synced(events, c))
  {
    hide Unescape;
    var c := done.chunkId;
    var m := MergedEvent(up, begin);
    Snoc(events, m, c);
    Snoc(events + [m], done, c);
    Snoc(events, up, c);
    Snoc(events + [up], begin, c);
    Snoc(events + [up] + [begin], done, c);
  }

  /** For one: chunk 0 is uploaded, and its record loses its newline; chunk 5 is written, and looks uploaded. */
  lemma FalseUpload(text: string, events: seq<Event>, sum: string)
    requires Complete(text) && ReadText(text) == Ok(events) && LatestLocal(events, 5).None? && DigestLike(sum)
    ensures var file := text + Encode(CloudCommitted(0, 1, sum)) + Encode(WriteBegin(2, 5, 0, 1, 0, 1)) + "\n"
                        + Encode(LocalCommitted(2, 5, 1)) + "\n";
            ReadText(file).Ok? && Summarize(ReadText(file).value, 5) == Summary(Some(1), true)
  {
    hide Decode, Encode, Lines, ReadText, MergedEvent, LatestLocal, Synced;
    var up, begin, done := CloudCommitted(0, 1, sum), WriteBegin(2, 5, 0, 1, 0, 1), LocalCommitted(2, 5, 1);
    DigestIsCarriable(sum);
    MergedWrite(text, events, up, begin, done);
    MergedSummary(events, up, begin, done);
  }

  /** The file reads well, but its last record has lost its newline. */
  ghost predicate OpenEnded(text: string, events: seq<Event>) {
    events != [] && exists before :: EndsOpen(before, text, events)
  }

  predicate EndsOpen(before: string, text: string, events: seq<Event>)
    requires events != []
  {
    var last := events[|events| - 1];
    && Complete(before) && ReadText(before) == Ok(events[..|events| - 1])
    && Encodable(last) && text == before + Encode(last)
  }

  /** What such a file reads as once one or more records were appended to it. */
  function ReadsAfter(events: seq<Event>, more: seq<Event>): Result<seq<Event>>
    requires events != [] && more != []
  {
    var last := events[|events| - 1];
    if last.CloudCommitted? then Ok(events[..|events| - 1] + [MergedEvent(last, more[0])] + more[1..]) else Err(Corrupt)
  }

  /**
   * For good: whatever and how much is appended to such a file, it is rejected as a whole, unless its
   * last record was a CloudCommitted; and then it has a merged record in place of two.
   */
  lemma AppendsAfterLoss(text: string, events: seq<Event>, text': string, events': seq<Event>)
    requires OpenEnded(text, events) && Extends(text, events, text', events') && |events'| > |events|
    ensures ReadText(text') == ReadsAfter(events, events'[|events|..])
  {
    hide ReadText, Encode, Complete, Encodable, MergedEvent, TextOf;
    var more := events'[|events|..];
    var before :| EndsOpen(before, text, events);
    var last, rest := events[|events| - 1], more[1..];
    MergedFile(before, events[..|events| - 1], last, more[0]);
    assert more == [more[0]] + rest;
    TextOfConcat([more[0]], rest);
    OneText(more[0]);
    JournalRoundTrip(rest);
    var after := before + Encode(last) + Encode(more[0]) + "\n";
    assert text' == after + TextOf(rest);
    ReadConcat(after, TextOf(rest));
  }

  lemma OneText(e: Event)
    ensures TextOf([e]) == Encode(e) + "\n"
  {
    hide Encode;
    assert [e][..0] == [];
    assert TextOf([e]) == "" + Encode(e) + "\n";
  }
}
