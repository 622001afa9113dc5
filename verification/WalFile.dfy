/** The journal file as text: reading it, appending to it, compacting it, and finding its end torn. */
module WalFile {
  import opened Wrappers
  import opened Wal
  import opened WalText
  import opened WalCodec
  import opened WalTorn

  /** The index of the first newline, or the length of the text. */
  function NewlineAt(s: string): (n: nat)
    ensures n <= |s| && (forall i :: 0 <= i < n ==> s[i] != '\n') && (n < |s| ==> s[n] == '\n')
  {
    if s == "" || s[0] == '\n' then 0 else 1 + NewlineAt(s[1..])
  }

  function StripCR(s: string): string {
    if |s| > 0 && s[|s| - 1] == '\r' then s[..|s| - 1] else s
  }

  /** `BufRead::lines`: newlines are dropped, with the carriage return before them; a last line may lack one. */
  function Lines(s: string): seq<string>
    decreases |s|
  {
    if s == "" then []
    else
      var n := NewlineAt(s);
      if n == |s| then [s] else [StripCR(s[..n])] + Lines(s[n + 1..])
  }

  function DecodeLines(lines: seq<string>): Result<seq<Event>>
    decreases lines
  {
    if lines == [] then Ok([])
    else if Blank(lines[0]) then DecodeLines(lines[1..])
    else
      match Decode(lines[0])
      case Err(e) => Err(e)
      case Ok(ev) =>
        match DecodeLines(lines[1..])
        case Err(e) => Err(e)
        case Ok(rest) => Ok([ev] + rest)
  }

  /** `read_events_from`. */
  function ReadText(text: string): Result<seq<Event>> { DecodeLines(Lines(text)) }

  method ReadEventsFrom(text: string) returns (r: Result<seq<Event>>)
    ensures r == ReadText(text)
  {
    var events: seq<Event> := [];
    var rest := Lines(text);
    assert forall more: seq<Event> :: [] + more == more;
    while rest != []
      invariant ReadText(text) == match DecodeLines(rest) case Err(e) => Err(e) case Ok(more) => Ok(events + more)
      decreases |rest|
    {
      if !Blank(rest[0]) {
        var d := DecodeEvent(rest[0]);
        if d.Err? {
          return Err(d.error);
        }
        assert forall more: seq<Event> :: events + ([d.value] + more) == (events + [d.value]) + more;
        events := events + [d.value];
      }
      rest := rest[1..];
    }
    assert events + [] == events;
    return Ok(events);
  }

  // ---------------------------------------------------------------- appending

  /** Empty, or ending with a newline. */
  predicate Complete(text: string) { text == "" || text[|text| - 1] == '\n' }

  lemma NewlineOfConcat(a: string, b: string)
    requires exists i :: 0 <= i < |a| && a[i] == '\n'
    ensures NewlineAt(a + b) == NewlineAt(a) < |a|
  {
    var n, m := NewlineAt(a), NewlineAt(a + b);
    assert (a + b)[n] == a[n];
    assert forall i :: 0 <= i < |a| ==> (a + b)[i] == a[i];
  }

  lemma LinesUnfold(s: string)
    requires s != ""
    ensures var n := NewlineAt(s); Lines(s) == if n == |s| then [s] else [StripCR(s[..n])] + Lines(s[n + 1..])
  {
    hide StripCR, NewlineAt;
  }

  lemma {:induction false} LinesConcat(a: string, b: string)
    requires Complete(a)
    ensures Lines(a + b) == Lines(a) + Lines(b)
    decreases |a|
  {
    hide Lines, StripCR, NewlineAt;
    if a == "" {
      assert a + b == b;
      NoLines();
    } else {
      assert a[|a| - 1] == '\n';
      NewlineOfConcat(a, b);
      var n := NewlineAt(a);
      assert (a + b)[..n] == a[..n] && (a + b)[n + 1..] == a[n + 1..] + b;
      LinesUnfold(a);
      LinesUnfold(a + b);
      LinesConcat(a[n + 1..], b);
    }
  }

  lemma NoLines()
    ensures Lines("") == [] && DecodeLines([]) == Ok([])
  {
  }

  /** What the events of two parts of a file make together. */
  function Joined(a: Result<seq<Event>>, b: Result<seq<Event>>): Result<seq<Event>> {
    match a
    case Err(e) => Err(e)
    case Ok(x) => (match b case Err(e) => Err(e) case Ok(y) => Ok(x + y))
  }

  function DecodeLine(line: string): Result<seq<Event>> {
    if Blank(line) then Ok([]) else (match Decode(line) case Err(e) => Err(e) case Ok(ev) => Ok([ev]))
  }

  lemma DecodeUnfold(lines: seq<string>)
    requires lines != []
    ensures DecodeLines(lines) == Joined(DecodeLine(lines[0]), DecodeLines(lines[1..]))
  {
    hide Decode, Blank;
    match DecodeLines(lines[1..])
    case Err(_) =>
    case Ok(y) => assert [] + y == y;
  }

  lemma JoinedAgain(a: Result<seq<Event>>, b: Result<seq<Event>>, c: Result<seq<Event>>)
    ensures Joined(Joined(a, b), c) == Joined(a, Joined(b, c))
    ensures Joined(Ok([]), c) == c && Joined(c, Ok([])) == c
  {
    if a.Ok? && b.Ok? && c.Ok? {
      assert (a.value + b.value) + c.value == a.value + (b.value + c.value);
    }
    if c.Ok? {
      assert [] + c.value == c.value && c.value + [] == c.value;
    }
  }

  lemma {:induction false} DecodeLinesConcat(a: seq<string>, b: seq<string>)
    ensures DecodeLines(a + b) == Joined(DecodeLines(a), DecodeLines(b))
    decreases |a|
  {
    hide DecodeLines, DecodeLine, Joined;
    if a == [] {
      assert a + b == b;
      NoLines();
      JoinedAgain(Ok([]), Ok([]), DecodeLines(b));
    } else {
      assert (a + b)[0] == a[0] && (a + b)[1..] == a[1..] + b;
      DecodeUnfold(a);
      DecodeUnfold(a + b);
      DecodeLinesConcat(a[1..], b);
      JoinedAgain(DecodeLine(a[0]), DecodeLines(a[1..]), DecodeLines(b));
    }
  }

  lemma ReadConcat(text: string, more: string)
    requires Complete(text)
    ensures ReadText(text + more) == Joined(ReadText(text), ReadText(more))
  {
    hide Lines, DecodeLines, Joined, Complete;
    LinesConcat(text, more);
    DecodeLinesConcat(Lines(text), Lines(more));
  }

  /**
   * A file is read line by line: a blank line is skipped, any other is an event or spoils the file. A newline
   * ends a line, with the carriage return before it; the last line may lack one.
   */
  lemma LineByLine(line: string, rest: string)
    requires '\n' !in line
    ensures var r, d := ReadText(line + "\n" + rest), Decode(StripCR(line));
            if Blank(line) then r == ReadText(rest)
            else if d.Err? then r == Err(d.error)
            else if ReadText(rest).Err? then r == ReadText(rest)
            else r == Ok([d.value] + ReadText(rest).value)
    ensures !Blank(line) ==>
              var r, d := ReadText(line), Decode(line); if d.Err? then r == Err(d.error) else r == Ok([d.value])
    ensures Blank(line) ==> ReadText(line) == Ok([])
  {
    hide *;
    FirstLine(line, rest);
    OnlyLine(line);
    BlankLine(line);
  }

  lemma FirstLine(line: string, rest: string)
    requires '\n' !in line
    ensures ReadText(line + "\n" + rest)
         == if Blank(StripCR(line)) then ReadText(rest)
            else if Decode(StripCR(line)).Err? then Err(Decode(StripCR(line)).error)
            else if ReadText(rest).Err? then ReadText(rest)
            else Ok([Decode(StripCR(line)).value] + ReadText(rest).value)
  {
    hide Decode, StripCR, Blank, Lines, NewlineAt;
    var text := line + "\n" + rest;
    NewlineFirst(line, rest);
    LinesUnfold(text);
    assert text[..|line|] == line && text[|line| + 1..] == rest;
    var all := [StripCR(line)] + Lines(rest);
    assert all[0] == StripCR(line) && all[1..] == Lines(rest);
  }

  lemma OnlyLine(line: string)
    requires '\n' !in line
    ensures ReadText(line)
         == if Blank(line) then Ok([]) else if Decode(line).Err? then Err(Decode(line).error)
            else Ok([Decode(line).value])
  {
    hide Decode, Lines, NewlineAt, Blank;
    NoLines();
    if line == "" {
      EmptyIsBlank();
    } else {
      NewlineNowhere(line);
      LinesUnfold(line);
      assert [line][1..] == [];
      if !Blank(line) {
        DecodeOne(line);
      }
    }
  }

  lemma EmptyIsBlank()
    ensures Blank("")
  {
  }

  lemma NewlineFirst(line: string, rest: string)
    requires '\n' !in line
    ensures NewlineAt(line + "\n" + rest) == |line| < |line + "\n" + rest|
  {
    var text := line + "\n" + rest;
    assert text[|line|] == '\n' && forall i :: 0 <= i < |line| ==> text[i] == line[i];
  }

  lemma NewlineNowhere(line: string)
    requires '\n' !in line
    ensures NewlineAt(line) == |line|
  {
  }

  lemma BlankLine(line: string)
    ensures Blank(StripCR(line)) <==> Blank(line)
  {
    if |line| > 0 && line[|line| - 1] == '\r' {
      var s := line[..|line| - 1];
      assert line == s + "\r";
      assert forall i :: 0 <= i < |s| ==> line[i] == s[i];
    }
  }

  /** The only white space in a line of good tokens is the plain space between them. */
  lemma {:induction false} LinePlain(pairs: seq<Pair>)
    requires GoodPairs(pairs)
    ensures OnlyPlainSpaces(Line(pairs))
    ensures pairs != [] ==> Line(pairs) != "" && !IsSpace(Line(pairs)[0])
    decreases |pairs|
  {
    if pairs != [] {
      TokenSolid(pairs[0]);
      var t := pairs[0].Token();
      if |pairs| > 1 {
        LinePlain(pairs[1..]);
        assert Line(pairs) == t + " " + Line(pairs[1..]);
      }
      assert Line(pairs)[0] == t[0];
    }
  }

  lemma EncodePlain(e: Event)
    requires e.CloudCommitted? ==> OnlyPlainSpaces(e.checksum)
    ensures OnlyPlainSpaces(Encode(e)) && Encode(e) != "" && !Blank(Encode(e))
  {
    PairsGood(e);
    LinePlain(PairsOf(e));
  }

  lemma OneLine(s: string)
    requires OnlyPlainSpaces(s) && s != ""
    ensures Lines(s + "\n") == [s] && Lines(s) == [s]
  {
    assert NewlineAt(s) == |s| by {
      assert forall i :: 0 <= i < |s| ==> s[i] != '\n';
    }
    var t := s + "\n";
    assert t[|s|] == '\n' && forall i :: 0 <= i < |s| ==> t[i] == s[i] != '\n';
    assert NewlineAt(t) == |s|;
    assert t[..|s|] == s && t[|s| + 1..] == "" && s[|s| - 1] != '\r';
  }

  lemma DecodeOne(s: string)
    requires !Blank(s)
    ensures DecodeLines([s]) == match Decode(s) case Err(e) => Err(e) case Ok(ev) => Ok([ev])
  {
    assert [s][1..] == [];
    match Decode(s)
    case Err(_) =>
    case Ok(ev) => assert [ev] + [] == [ev];
  }

  /** Appending a line adds exactly its event to what the file reads as. */
  lemma AppendReads(text: string, events: seq<Event>, e: Event)
    requires Complete(text) && ReadText(text) == Ok(events) && Encodable(e)
    ensures Complete(text + Encode(e) + "\n") && ReadText(text + Encode(e) + "\n") == Ok(events + [e])
  {
    hide Encode, Decode;
    EncodePlain(e);
    OneLine(Encode(e));
    DecodeOne(Encode(e));
    DecodeEncode(e);
    ReadConcat(text, Encode(e) + "\n");
    assert text + (Encode(e) + "\n") == text + Encode(e) + "\n";
  }

  // ---------------------------------------------------------------- appending to a line left open

  /** Where the last line starts: after the last newline. */
  function LineStart(text: string): (k: nat)
    ensures k <= |text| && Complete(text[..k]) && forall i :: k <= i < |text| ==> text[i] != '\n'
  {
    if text == "" || text[|text| - 1] == '\n' then
      assert text[..|text|] == text;
      |text|
    else
      var k := LineStart(text[..|text| - 1]);
      assert text[..|text| - 1][..k] == text[..k];
      k
  }

  /** What follows the last newline. */
  function LastLine(text: string): string { text[LineStart(text)..] }

  lemma {:induction false} BlankPrefix(p: string, s: string)
    requires Blank(p)
    ensures Tokens(p + s) == Tokens(s)
    decreases |p|
  {
    if p == "" {
      assert p + s == s;
    } else {
      assert (p + s)[1..] == p[1..] + s;
      BlankPrefix(p[1..], s);
    }
  }

  lemma OpenLine(p: string, s: string)
    requires OnlyPlainSpaces(s) && s != "" && !IsSpace(s[|s| - 1]) && forall i :: 0 <= i < |p| ==> p[i] != '\n'
    ensures Lines(p + s + "\n") == [p + s]
  {
    var q := p + s;
    var t := q + "\n";
    assert q[|q| - 1] == s[|s| - 1];
    assert t[|q|] == '\n';
    forall i | 0 <= i < |q|
      ensures t[i] == q[i] && q[i] != '\n'
    {
      if i >= |p| {
        assert q[i] == s[i - |p|];
      }
    }
    assert NewlineAt(t) == |q|;
    assert t[..|q|] == q && t[|q| + 1..] == "";
  }

  lemma {:induction false} LineEndsSolid(pairs: seq<Pair>)
    requires GoodPairs(pairs) && pairs != []
    ensures Line(pairs) != "" && !IsSpace(Line(pairs)[|Line(pairs)| - 1])
    decreases |pairs|
  {
    if |pairs| > 1 {
      LineEndsSolid(pairs[1..]);
      var rest := Line(pairs[1..]);
      assert Line(pairs) == pairs[0].Token() + " " + rest;
      assert Line(pairs)[|Line(pairs)| - 1] == rest[|rest| - 1];
    } else {
      TokenSolid(pairs[0]);
    }
  }

  /** A record appended to a line left open is read as part of that line, if the line is not blank. */
  lemma OpenLineMerges(p: string, e: Event)
    requires Encodable(e) && forall i :: 0 <= i < |p| ==> p[i] != '\n'
    ensures Blank(p) ==> ReadText(p + Encode(e) + "\n") == Ok([e])
    ensures var r := ReadText(p + Encode(e) + "\n"); r.Ok? ==> |r.value| == 1
  {
    hide Decode, Tokens, Lines;
    EncodePlain(e);
    PairsGood(e);
    LineEndsSolid(PairsOf(e));
    OpenLine(p, Encode(e));
    var q := p + Encode(e);
    assert q[|p|..] == Encode(e);
    assert !Blank(q) by {
      var i :| 0 <= i < |Encode(e)| && !IsSpace(Encode(e)[i]);
      assert q[|p| + i] == Encode(e)[i];
    }
    DecodeOne(q);
    if Blank(p) {
      BlankPrefix(p, Encode(e));
      SameTokens(q, Encode(e));
      DecodeEncode(e);
    }
  }

  lemma SameTokens(a: string, b: string)
    requires Tokens(a) == Tokens(b)
    ensures Decode(a) == Decode(b)
  {
  }

  lemma OpenLineReads(p: string)
    requires p != "" && forall i :: 0 <= i < |p| ==> p[i] != '\n'
    ensures Blank(p) ==> ReadText(p) == Ok([])
    ensures !Blank(p) && ReadText(p).Ok? ==> |ReadText(p).value| == 1
  {
    assert NewlineAt(p) == |p|;
    LinesUnfold(p);
    DecodeUnfold([p]);
    NoLines();
    hide Decode, Lines, Blank;
    assert [p][1..] == [];
    JoinedAgain(Ok([]), Ok([]), DecodeLine(p));
  }

  /**
   * `append`, exactly. On a journal that reads, an append adds exactly its event if and only if the
   * file does not end in the middle of a line, white space aside. A crash that loses just the newline
   * of a record leaves such a line: it reads well, and the next append spoils it.
   */
  lemma AppendExactly(text: string, events: seq<Event>, e: Event)
    requires ReadText(text) == Ok(events) && Encodable(e)
    ensures ReadText(text + Encode(e) + "\n") == Ok(events + [e]) <==> Blank(LastLine(text))
  {
    hide ReadText, Encode, Encodable, LineStart, Complete, Joined;
    var p := LastLine(text);
    var a := text[..LineStart(text)];
    var more := p + Encode(e) + "\n";
    assert text == a + p && text + Encode(e) + "\n" == a + more;
    ReadConcat(a, p);
    ReadConcat(a, more);
    if p == "" {
      assert a == text && more == Encode(e) + "\n";
      EmptyReads();
    } else {
      OpenLineReads(p);
    }
    OpenLineMerges(p, e);
    OneMore(ReadText(a), ReadText(p), ReadText(more), events, e, Blank(p));
  }

  lemma OneMore(a: Result<seq<Event>>, p: Result<seq<Event>>, more: Result<seq<Event>>, events: seq<Event>,
        e: Event, blank: bool)
    requires Joined(a, p) == Ok(events) && (more.Ok? ==> |more.value| == 1)
    requires blank ==> p == Ok([]) && more == Ok([e])
    requires !blank && p.Ok? ==> |p.value| == 1
    ensures Joined(a, more) == Ok(events + [e]) <==> blank
  {
    if blank {
      assert events == a.value + [] == a.value;
    } else if more.Ok? {
      assert |a.value + more.value| != |events + [e]|;
    }
  }

  lemma ClosedLine(s: string)
    ensures Blank(LastLine(s + "\n"))
  {
  }

  lemma CompleteIsClosed(text: string)
    requires Complete(text)
    ensures Blank(LastLine(text))
  {
  }

  /** The text of a journal written from scratch. */
  function TextOf(events: seq<Event>): string {
    if events == [] then "" else TextOf(events[..|events| - 1]) + Encode(events[|events| - 1]) + "\n"
  }

  predicate AllEncodable(events: seq<Event>) { forall i :: 0 <= i < |events| ==> Encodable(events[i]) }

  lemma EmptyReads()
    ensures Complete("") && ReadText("") == Ok([])
  {
  }

  /** Whole-journal round trip. */
  lemma {:induction false} JournalRoundTrip(events: seq<Event>)
    requires AllEncodable(events)
    ensures Complete(TextOf(events)) && ReadText(TextOf(events)) == Ok(events)
    decreases |events|
  {
    hide ReadText, Encode, Complete, Encodable;
    if events == [] {
      EmptyReads();
    } else {
      var n := |events| - 1;
      JournalRoundTrip(events[..n]);
      AppendReads(TextOf(events[..n]), events[..n], events[n]);
      assert events == events[..n] + [events[n]];
    }
  }

  /**
   * A crash in the middle of an append, exactly: with nothing of the line in the file, the journal reads as
   * before; with the line cut short of its last value, it is rejected as a whole; and from there on, up to
   * the whole line without its newline, it has one more record, of the same kind as the one being
   * written and claiming no larger generation.
   */
  lemma TornJournal(text: string, events: seq<Event>, e: Event, m: nat)
    requires Complete(text) && ReadText(text) == Ok(events)
    requires Encodable(e) && (e.CloudCommitted? ==> Solid(e.checksum)) && m <= |Encode(e)|
    ensures var r := ReadText(text + Encode(e)[..m]);
            if m == 0 then r == Ok(events)
            else if m < ReadsFrom(e) then r.Err?
            else r.Ok? && |r.value| == |events| + 1 && r.value[..|events|] == events && NoLarger(e, r.value[|events|])
    ensures m == |Encode(e)| ==> m >= ReadsFrom(e) && ReadText(text + Encode(e)[..m]) == Ok(events + [e])
  {
    if m == |Encode(e)| {
      WholeLine(text, events, e);
      WholeReads(e);
      assert Encode(e)[..m] == Encode(e) && (events + [e])[..|events|] == events;
    } else if m == 0 {
      assert text + Encode(e)[..0] == text;
    } else {
      CutLine(text, events, e, m);
    }
  }

  /** A record that lost just its newline still reads. */
  lemma WholeLine(text: string, events: seq<Event>, e: Event)
    requires Complete(text) && ReadText(text) == Ok(events) && Encodable(e)
    ensures ReadText(text + Encode(e)) == Ok(events + [e]) && NoLarger(e, e)
  {
    hide Decode, Encode, Lines;
    EncodePlain(e);
    OneLine(Encode(e));
    DecodeOne(Encode(e));
    DecodeEncode(e);
    ReadConcat(text, Encode(e));
  }

  lemma CutLine(text: string, events: seq<Event>, e: Event, m: nat)
    requires Complete(text) && ReadText(text) == Ok(events)
    requires Encodable(e) && (e.CloudCommitted? ==> Solid(e.checksum)) && 0 < m < |Encode(e)|
    ensures var r := ReadText(text + Encode(e)[..m]);
            if m < ReadsFrom(e) then r.Err?
            else r.Ok? && |r.value| == |events| + 1 && r.value[..|events|] == events && NoLarger(e, r.value[|events|])
  {
    hide Decode, Encode, Lines, ReadsFrom;
    var p := Encode(e)[..m];
    ReadConcat(text, p);
    EncodePlain(e);
    WholeReads(e);
    assert OnlyPlainSpaces(p);
    assert p[0] == 't' && !IsSpace(p[0]);
    OneLine(p);
    DecodeOne(p);
    TornLine(e, m);
    TornLineClaimsNoMore(e, m);
  }

  lemma {:induction false} TextOfConcat(a: seq<Event>, b: seq<Event>)
    ensures TextOf(a + b) == TextOf(a) + TextOf(b)
    decreases |b|
  {
    hide Encode;
    if b == [] {
      assert a + b == a;
    } else {
      var n := |b| - 1;
      TextOfConcat(a, b[..n]);
      assert (a + b)[..|a + b| - 1] == a + b[..n] && (a + b)[|a + b| - 1] == b[n];
    }
  }

  /** The file got exactly the lines of the events that were appended. */
  ghost predicate Extends(text0: string, events0: seq<Event>, text: string, events: seq<Event>) {
    && |events0| <= |events| && events[..|events0|] == events0
    && AllEncodable(events[|events0|..])
    && text == text0 + TextOf(events[|events0|..])
  }

  lemma ExtendsSelf(text: string, events: seq<Event>)
    ensures Extends(text, events, text, events)
  {
    assert events[|events|..] == [] && text + "" == text;
  }

  lemma ExtendsByOne(text: string, events: seq<Event>, e: Event)
    requires Encodable(e)
    ensures Extends(text, events, text + Encode(e) + "\n", events + [e])
  {
    hide Encode, Encodable;
    var more := (events + [e])[|events|..];
    assert more == [e] && [e][..0] == [];
    assert TextOf(more) == "" + Encode(e) + "\n" == Encode(e) + "\n";
  }

  lemma ExtendsTrans(text0: string, events0: seq<Event>, text1: string, events1: seq<Event>, text2: string,
        events2: seq<Event>)
    requires Extends(text0, events0, text1, events1) && Extends(text1, events1, text2, events2)
    ensures Extends(text0, events0, text2, events2)
  {
    hide Encodable, TextOf;
    var a, b := events1[|events0|..], events2[|events1|..];
    assert events2[|events0|..] == a + b && events2 == events1 + b;
    TextOfConcat(a, b);
  }

  // ---------------------------------------------------------------- the journal object

  /** `Journal`: the file and the next transaction id. */
  class Journal {
    var text: string
    var nextTxid: nat
    /** The events appended to what the file was opened with. */
    ghost var events: seq<Event>

    /** The file reads as those events. */
    ghost predicate Valid()
      reads this
    {
      ReadText(text) == Ok(events)
    }

    /** And it will after the next append, too. */
    ghost predicate Sound()
      reads this
    {
      Valid() && Blank(LastLine(text))
    }

    /** A new, empty file. */
    constructor ()
      ensures Sound() && events == [] && nextTxid == 1
    {
      text, nextTxid, events := "", 1, [];
    }

    /**
     * `Journal::open` on an existing file: fails if the file does not read, else transaction ids
     * resume above every recorded one.
     */
    method Open(file: string) returns (r: Result<()>)
      modifies this
      ensures r.Ok? <==> ReadText(file).Ok?
      ensures r.Ok? ==> Valid() && text == file && nextTxid == ReopenedTxid(events)
      ensures r.Err? ==> text == old(text) && events == old(events) && nextTxid == old(nextTxid)
    {
      var read := ReadEventsFrom(file);
      if read.Err? {
        return Err(read.error);
      }
      var evs := read.value;
      var top := 0;
      var i := 0;
      while i < |evs|
        invariant 0 <= i <= |evs| && top + 1 == ReopenedTxid(evs[..i])
      {
        assert evs[..i + 1][..i] == evs[..i];
        match evs[i] {
          case WriteBegin(txid, _, _, _, _, _) => top := Max(top, txid);
          case LocalCommitted(txid, _, _) => top := Max(top, txid);
          case CloudCommitted(_, _, _) =>
        }
        i := i + 1;
      }
      assert evs[..|evs|] == evs;
      text, events, nextTxid := file, evs, top + 1;
      return Ok(());
    }

    method NextTxid() returns (txid: nat)
      modifies this`nextTxid
      ensures txid == old(nextTxid) && nextTxid == txid + 1
    {
      txid := nextTxid;
      nextTxid := nextTxid + 1;
    }

    /**
     * Adds a line, for any event of u64 fields; if the line can carry the event, the file gains exactly
     * that if and only if its last line was not left open.
     */
    method Append(e: Event)
      requires FieldsFit(e)
      modifies this`text, this`events
      ensures text == old(text) + Encode(e) + "\n" && events == old(events) + [e]
      ensures old(Valid()) && Encodable(e) ==> (Valid() <==> Blank(LastLine(old(text))))
      ensures old(Sound()) && Encodable(e) ==> Sound()
    {
      hide ReadText, Encode, Encodable;
      if Encodable(e) && ReadText(text) == Ok(events) {
        AppendExactly(text, events, e);
      }
      ClosedLine(text + Encode(e));
      text := text + Encode(e) + "\n";
      events := events + [e];
    }

    method ReadEvents() returns (r: Result<seq<Event>>)
      ensures r == ReadText(text)
      ensures Valid() ==> r == Ok(events)
    {
      r := ReadEventsFrom(text);
    }

    /** The file is replaced by one that holds exactly the events to keep. */
    method Compact(keep: seq<Event>)
      requires AllEncodable(keep)
      modifies this`text, this`events
      ensures Sound() && events == keep
    {
      hide ReadText, Encode, Complete, Encodable;
      var tmp := "";
      var i := 0;
      while i < |keep|
        invariant 0 <= i <= |keep| && tmp == TextOf(keep[..i])
      {
        assert keep[..i + 1][..i] == keep[..i];
        tmp := tmp + Encode(keep[i]) + "\n";
        i := i + 1;
      }
      assert keep[..|keep|] == keep;
      JournalRoundTrip(keep);
      CompleteIsClosed(tmp);
      text := tmp;
      events := keep;
    }
  }
}
