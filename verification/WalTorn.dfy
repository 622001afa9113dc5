/**
 * Damaged and exact journal text: which checksums survive, and what a last line cut short by a crash
 * can be taken for.
 */
module WalTorn {
  import opened Wrappers
  import opened Wal
  import opened WalText
  import opened WalCodec

  // ---------------------------------------------------------------- exactly which events survive

  lemma {:induction false} TokensAreSolid(s: string)
    ensures forall t :: t in Tokens(s) ==> Solid(t)
    decreases |s|
  {
    if s != "" {
      if IsSpace(s[0]) {
        TokensAreSolid(s[1..]);
      } else {
        TokensAreSolid(s[WordLen(s)..]);
      }
    }
  }

  lemma {:induction false} UnescapeOnlyPlain(s: string)
    requires Solid(s)
    ensures OnlyPlainSpaces(Unescape(s))
    decreases |s|
  {
    if s == "" {
    } else if At20(s) {
      assert Solid(s[3..]);
      UnescapeOnlyPlain(s[3..]);
    } else {
      assert Solid(s[1..]);
      UnescapeOnlyPlain(s[1..]);
    }
  }

  predicate PlainChecksum(f: Fields) { f.checksum.Some? ==> OnlyPlainSpaces(f.checksum.value) }

  lemma AbsorbPlain(f: Fields, token: string)
    requires PlainChecksum(f) && Solid(token) && SplitOnce(token).Some?
    ensures Absorb(f, SplitOnce(token).value).Ok? ==> PlainChecksum(Absorb(f, SplitOnce(token).value).value)
  {
    var p := SplitOnce(token).value;
    assert Solid(p.value);
    UnescapeOnlyPlain(p.value);
  }

  lemma {:induction false} AbsorbAllPlain(f: Fields, tokens: seq<string>)
    requires PlainChecksum(f) && forall t :: t in tokens ==> Solid(t)
    ensures AbsorbTokens(f, tokens).Ok? ==> PlainChecksum(AbsorbTokens(f, tokens).value)
    decreases tokens
  {
    if tokens != [] {
      assert tokens[0] in tokens && forall t :: t in tokens[1..] ==> t in tokens;
      if SplitOnce(tokens[0]).Some? {
        AbsorbPlain(f, tokens[0]);
        var r := Absorb(f, SplitOnce(tokens[0]).value);
        if r.Ok? {
          AbsorbAllPlain(r.value, tokens[1..]);
        }
      }
    }
  }

  /** No line ever decodes to a checksum with white space other than plain spaces. */
  lemma DecodedIsPlain(line: string)
    ensures Decode(line).Ok? && Decode(line).value.CloudCommitted? ==> OnlyPlainSpaces(Decode(line).value.checksum)
  {
    TokensAreSolid(line);
    AbsorbAllPlain(NO_FIELDS, Tokens(line));
  }

  /** An event with u64 fields survives writing and reading if and only if its checksum can be carried. */
  lemma RoundTripExactly(e: Event)
    requires FieldsFit(e)
    ensures Decode(Encode(e)) == Ok(e) <==> Encodable(e)
  {
    if Encodable(e) {
      DecodeEncode(e);
    } else {
      DecodedIsPlain(Encode(e));
      if OnlyPlainSpaces(e.checksum) {
        NotCarried(e);
      }
    }
  }

  lemma NotCarried(e: Event)
    requires FieldsFit(e) && e.CloudCommitted? && OnlyPlainSpaces(e.checksum) && !No20(e.checksum)
    ensures Decode(Encode(e)) != Ok(e)
  {
    hide Decode, Line, Init, PairsOf, Escape, Unescape;
    PairsSplit(e);
    EscapeSolid(e.checksum);
    EscapeRoundTrip(e.checksum);
    DecodeWithLast(e, LastValue(e));
  }

  // ---------------------------------------------------------------- lines cut short

  /** Cutting a line after m characters leaves k whole tokens and j characters of the next one. */
  datatype Cut = Cut(k: nat, j: nat)

  function CutAt(pairs: seq<Pair>, m: nat): Cut
    requires pairs != [] && m <= |Line(pairs)|
    decreases |pairs|
  {
    var n := |pairs[0].Token()|;
    if |pairs| == 1 || m <= n then Cut(0, m)
    else
      assert Line(pairs) == pairs[0].Token() + " " + Line(pairs[1..]);
      var rest := CutAt(pairs[1..], m - n - 1);
      Cut(rest.k + 1, rest.j)
  }

  function Part(q: string): seq<string> { if q == "" then [] else [q] }

  lemma TokensOfSolid(q: string)
    requires Solid(q)
    ensures Tokens(q) == Part(q)
  {
    if q != "" {
      TokensOfWord(q, "");
      assert q + "" == q;
    }
  }

  lemma {:induction false} TokensOfCut(pairs: seq<Pair>, m: nat)
    requires pairs != [] && GoodPairs(pairs) && m <= |Line(pairs)|
    ensures var cut := CutAt(pairs, m);
            && cut.k < |pairs| && cut.j <= |pairs[cut.k].Token()|
            && Tokens(Line(pairs)[..m]) == TokensOf(pairs[..cut.k]) + Part(pairs[cut.k].Token()[..cut.j])
            && (m < |Line(pairs)| ==> cut.k < |pairs| - 1 || cut.j < |pairs[cut.k].Token()|)
    decreases |pairs|
  {
    hide Tokens, Line, Solid, Part, GoodPair;
    CutInFirst(pairs, m);
    if |pairs| > 1 && m > |pairs[0].Token()| {
      var m1 := m - |pairs[0].Token()| - 1;
      LineCons(pairs, m1);
      TokensOfCut(pairs[1..], m1);
      var cut := CutAt(pairs[1..], m1);
      assert CutAt(pairs, m) == Cut(cut.k + 1, cut.j);
      assert pairs[..cut.k + 1][1..] == pairs[1..][..cut.k];
    }
  }

  lemma CutInFirst(pairs: seq<Pair>, m: nat)
    requires pairs != [] && GoodPairs(pairs) && m <= |Line(pairs)|
    ensures |pairs| == 1 ==> |Line(pairs)| == |pairs[0].Token()|
    ensures |pairs| > 1 ==> |pairs[0].Token()| < |Line(pairs)|
    ensures m <= |pairs[0].Token()| ==> Tokens(Line(pairs)[..m]) == TokensOf(pairs[..0]) + Part(pairs[0].Token()[..m])
  {
    var t := pairs[0].Token();
    TokenSolid(pairs[0]);
    if m <= |t| {
      assert Line(pairs)[..m] == t[..m];
      assert Solid(t[..m]);
      TokensOfSolid(t[..m]);
      assert pairs[..0] == [];
    }
  }

  /** Beyond the first token, cutting a line is cutting the rest of it. */
  lemma LineCons(pairs: seq<Pair>, m: nat)
    requires |pairs| > 1 && GoodPairs(pairs)
    ensures |Line(pairs)| == |pairs[0].Token()| + 1 + |Line(pairs[1..])|
    ensures m <= |Line(pairs[1..])| ==>
              Tokens(Line(pairs)[..|pairs[0].Token()| + 1 + m]) == [pairs[0].Token()] + Tokens(Line(pairs[1..])[..m])
  {
    hide Tokens, Line, Solid;
    var t, rest := pairs[0].Token(), Line(pairs[1..]);
    TokenSolid(pairs[0]);
    LineStep(pairs);
    if m <= |rest| {
      CutTail(t, rest, m);
      TokensOfWord(t, " " + rest[..m]);
      SpaceFirst(rest[..m]);
    }
  }

  lemma LineStep(pairs: seq<Pair>)
    requires |pairs| > 1
    ensures Line(pairs) == pairs[0].Token() + " " + Line(pairs[1..])
  {
  }

  lemma CutTail(t: string, rest: string, m: nat)
    requires m <= |rest|
    ensures (t + " " + rest)[..|t| + 1 + m] == t + (" " + rest[..m])
  {
  }

  lemma SpaceFirst(s: string)
    ensures Tokens(" " + s) == Tokens(s)
  {
    assert (" " + s)[1..] == s;
  }

  lemma {:induction false} AbsorbTokensConcat(f: Fields, a: seq<string>, b: seq<string>)
    ensures AbsorbTokens(f, a + b)
         == match AbsorbTokens(f, a) case Err(e) => Err(e) case Ok(f') => AbsorbTokens(f', b)
    decreases |a|
  {
    if a == [] {
      assert a + b == b;
    } else {
      assert (a + b)[0] == a[0] && (a + b)[1..] == a[1..] + b;
      match SplitOnce(a[0])
      case None =>
      case Some(p) =>
        match Absorb(f, p)
        case Err(_) =>
        case Ok(f') => AbsorbTokensConcat(f', a[1..], b);
    }
  }

  /** A token cut inside its key, or right after it, has no `=` and is rejected. */
  lemma CutInKey(p: Pair, j: nat)
    requires GoodPair(p) && 0 < j <= |p.key|
    ensures SplitOnce(p.Token()[..j]) == None
  {
    var q := p.Token()[..j];
    assert forall i :: 0 <= i < j ==> q[i] == p.key[i];
  }

  lemma CutInValue(p: Pair, j: nat)
    requires GoodPair(p) && |p.key| < j <= |p.Token()|
    ensures var w := p.value[..j - |p.key| - 1]; p.Token()[..j] == Pair(p.key, w).Token() && GoodPair(Pair(p.key, w))
  {
  }

  /** The cut line, as tokens, and what they decode to. */
  lemma DecodeCut(pairs: seq<Pair>, m: nat)
    requires pairs != [] && GoodPairs(pairs) && m <= |Line(pairs)|
    ensures var cut := CutAt(pairs, m);
            && cut.k < |pairs| && cut.j <= |pairs[cut.k].Token()|
            && (m < |Line(pairs)| ==> cut.k < |pairs| - 1 || cut.j < |pairs[cut.k].Token()|)
            && var p := pairs[cut.k];
               (cut.j == 0 ==> Decode(Line(pairs)[..m]) == DecodePairs(pairs[..cut.k]))
               && (0 < cut.j <= |p.key| ==> Decode(Line(pairs)[..m]).Err?)
               && (|p.key| < cut.j ==>
                     Decode(Line(pairs)[..m])
                         == DecodePairs(pairs[..cut.k] + [Pair(p.key, p.value[..cut.j - |p.key| - 1])]))
  {
    hide Tokens, TokensOf, Line, AbsorbTokens, AbsorbPairs, Finish, Solid;
    TokensOfCut(pairs, m);
    var cut := CutAt(pairs, m);
    assert GoodPairs(pairs[..cut.k]) && GoodPair(pairs[cut.k]);
    DecodePart(pairs[..cut.k], pairs[cut.k], cut.j, Line(pairs)[..m]);
  }

  lemma DecodePart(whole: seq<Pair>, p: Pair, j: nat, line: string)
    requires GoodPairs(whole) && GoodPair(p) && j <= |p.Token()|
    requires Tokens(line) == TokensOf(whole) + Part(p.Token()[..j])
    ensures j == 0 ==> Decode(line) == DecodePairs(whole)
    ensures 0 < j <= |p.key| ==> Decode(line).Err?
    ensures |p.key| < j ==> Decode(line) == DecodePairs(whole + [Pair(p.key, p.value[..j - |p.key| - 1])])
  {
    hide Tokens, TokensOf, Finish, Absorb;
    AbsorbLine(NO_FIELDS, whole);
    if j == 0 {
      assert TokensOf(whole) + [] == TokensOf(whole);
    } else {
      AbsorbTokensConcat(NO_FIELDS, TokensOf(whole), [p.Token()[..j]]);
      if j <= |p.key| {
        CutInKey(p, j);
      } else {
        var last := Pair(p.key, p.value[..j - |p.key| - 1]);
        CutInValue(p, j);
        AbsorbConcat(NO_FIELDS, whole, [last]);
        SingleToken(last);
      }
    }
  }

  lemma SingleToken(p: Pair)
    requires GoodPair(p)
    ensures forall f :: AbsorbTokens(f, [p.Token()]) == AbsorbPairs(f, [p])
  {
    TokenSolid(p);
    forall f: Fields
      ensures AbsorbTokens(f, [p.Token()]) == AbsorbPairs(f, [p])
    {
      assert [p.Token()][1..] == [] && [p][1..] == [];
    }
  }

  function DecodePairs(pairs: seq<Pair>): Result<Event> {
    match AbsorbPairs(NO_FIELDS, pairs)
    case Err(e) => Err(e)
    case Ok(f) => Finish(f)
  }

  // ---------------------------------------------------------------- a missing last field

  function TypeName(e: Event): string {
    match e
    case WriteBegin(_, _, _, _, _, _) => "write_begin"
    case LocalCommitted(_, _, _) => "local_committed"
    case CloudCommitted(_, _, _) => "cloud_committed"
  }

  /** The tokens name the event's type once, first, and do not have its last field. */
  predicate Lacking(e: Event, f: Fields) {
    f.eventType == Some(TypeName(e)) && (if e.CloudCommitted? then f.checksum.None? else f.after.None?)
  }

  predicate Middle(e: Event, p: Pair) {
    KeyOf(p.key) != Type && KeyOf(p.key) != KeyOf(LastKey(e))
  }

  lemma {:induction false} StillLacking(e: Event, f: Fields, pairs: seq<Pair>)
    requires Lacking(e, f) && forall i :: 0 <= i < |pairs| ==> Middle(e, pairs[i])
    ensures AbsorbPairs(f, pairs).Ok? ==> Lacking(e, AbsorbPairs(f, pairs).value)
    decreases |pairs|
  {
    KeysDistinct();
    if pairs != [] {
      assert Middle(e, pairs[0]);
      var r := Absorb(f, pairs[0]);
      if r.Ok? {
        StillLacking(e, r.value, pairs[1..]);
      }
    }
  }

  lemma LackingFails(e: Event, f: Fields)
    requires Lacking(e, f)
    ensures Finish(f).Err?
  {
    TypesDistinct();
  }

  lemma MiddlePairs(e: Event)
    ensures |Init(e)| >= 3 && Init(e)[0] == Pair("type", TypeName(e))
    ensures forall i :: 0 < i < |Init(e)| ==> Middle(e, Init(e)[i])
  {
    KeysDistinct();
  }

  /** Some tokens of an event, its type first, the last of them possibly with another value, do not decode. */
  lemma PartialFails(e: Event, pairs: seq<Pair>)
    requires pairs == [] || pairs[0].key == "type"
    requires |pairs| > 1 ==> pairs[0].value == TypeName(e)
    requires forall i :: 0 < i < |pairs| ==> Middle(e, pairs[i])
    ensures DecodePairs(pairs).Err?
  {
    if pairs != [] {
      AbsorbType(NO_FIELDS, pairs[0].value);
      var f := NO_FIELDS.(eventType := Some(pairs[0].value));
      assert Absorb(NO_FIELDS, pairs[0]) == Ok(f);
      assert AbsorbPairs(NO_FIELDS, pairs) == AbsorbPairs(f, pairs[1..]);
      if |pairs| > 1 {
        StillLacking(e, f, pairs[1..]);
        var r := AbsorbPairs(f, pairs[1..]);
        if r.Ok? {
          LackingFails(e, r.value);
        }
      } else {
        assert pairs[1..] == [];
      }
    }
  }

  // ---------------------------------------------------------------- torn last lines

  /** The line was cut in its last value: it reads as the event with the first i characters of that value. */
  predicate CutInLast(e: Event, line: string) {
    exists i :: 0 <= i < |LastValue(e)| && Decode(line) == WithLast(e, LastValue(e)[..i])
  }

  /** Where a cut falls, seen from the last token. */
  lemma {:induction false} CutNearEnd(init: seq<Pair>, last: Pair, m: nat)
    requires m <= |Line(init + [last])|
    ensures |Line(init + [last])| >= |last.Token()|
    ensures var cut, start := CutAt(init + [last], m), |Line(init + [last])| - |last.Token()|;
            if m >= start then cut == Cut(|init|, m - start) else cut.k < |init|
    decreases |init|
  {
    var ps := init + [last];
    if init == [] {
      assert ps == [last];
    } else {
      assert ps[1..] == init[1..] + [last] && ps[0] == init[0];
      var n := |ps[0].Token()|;
      assert Line(ps) == ps[0].Token() + " " + Line(ps[1..]);
      assert |Line(ps)| == n + 1 + |Line(ps[1..])|;
      if m > n {
        CutNearEnd(init[1..], last, m - n - 1);
      } else {
        CutNearEnd(init[1..], last, 0);
      }
    }
  }

  /** How many bytes of the line have to be there for it to read: all but the last value, and a digit of a number. */
  function ReadsFrom(e: Event): int {
    |Encode(e)| - |LastValue(e)| + if e.CloudCommitted? then 0 else 1
  }

  lemma WholeReads(e: Event)
    ensures ReadsFrom(e) <= |Encode(e)| && Encode(e) != "" && Encode(e)[0] == 't'
  {
    hide Line, Decimal;
    if !e.CloudCommitted? {
      DecimalFacts(e.after);
    }
    StartsWithType(PairsOf(e));
  }

  lemma StartsWithType(pairs: seq<Pair>)
    requires pairs != [] && pairs[0].key == "type"
    ensures Line(pairs) != "" && Line(pairs)[0] == 't'
  {
    assert pairs[0].Token()[0] == 't';
  }

  lemma WithLastReads(e: Event, i: nat)
    requires FieldsFit(e) && i <= |LastValue(e)|
    ensures WithLast(e, LastValue(e)[..i]).Ok? <==> e.CloudCommitted? || i > 0
  {
    hide ParseU64, Decimal;
    if !e.CloudCommitted? {
      ParsePrefix(e.after, i);
    }
  }

  lemma CutBeforeLast(e: Event, k: nat, q: Option<string>)
    requires k <= |Init(e)| && (q.Some? ==> k < |Init(e)|)
    ensures var whole := PairsOf(e)[..k];
            DecodePairs(if q.None? then whole else whole + [Pair(PairsOf(e)[k].key, q.value)]).Err?
  {
    PairsSplit(e);
    MiddlePairs(e);
    var whole := PairsOf(e)[..k];
    var ps := if q.None? then whole else whole + [Pair(PairsOf(e)[k].key, q.value)];
    assert forall i :: 0 <= i < k ==> ps[i] == Init(e)[i];
    forall i | 0 < i < |ps|
      ensures Middle(e, ps[i])
    {
      assert Middle(e, Init(e)[i]);
    }
    PartialFails(e, ps);
  }

  /**
   * A torn line, any strict prefix of an encoded one, exactly: it reads if and only if it reaches into its
   * last value, by a digit if that is a number; and then as the event that was being written, but for its
   * last field, whose text is as far as it got.
   */
  lemma TornLine(e: Event, m: nat)
    requires FieldsFit(e) && (e.CloudCommitted? ==> OnlyPlainSpaces(e.checksum)) && m < |Encode(e)|
    ensures Decode(Encode(e)[..m]).Ok? <==> m >= ReadsFrom(e)
    ensures m >= ReadsFrom(e) ==>
              Decode(Encode(e)[..m]) == WithLast(e, LastValue(e)[..m - (|Encode(e)| - |LastValue(e)|)])
    ensures m >= ReadsFrom(e) ==> CutInLast(e, Encode(e)[..m])
  {
    hide Decode, DecodePairs, Init, WithLast, Line, CutAt;
    PairsGood(e);
    PairsSplit(e);
    DecodeCut(PairsOf(e), m);
    var cut := CutAt(PairsOf(e), m);
    var p := PairsOf(e)[cut.k];
    var n := |Init(e)|;
    var last := Pair(LastKey(e), LastValue(e));
    CutNearEnd(Init(e), last, m);
    assert |last.Token()| == |last.key| + 1 + |last.value|;
    if cut.j == 0 {
      CutBeforeLast(e, cut.k, None);
    } else if cut.j > |p.key| {
      var i := cut.j - |p.key| - 1;
      if cut.k < n {
        CutBeforeLast(e, cut.k, Some(p.value[..i]));
      } else {
        assert p == last && i < |LastValue(e)|;
        TornLast(e, i);
        WithLastReads(e, i);
        assert PairsOf(e)[..n] == Init(e);
      }
    }
  }

  lemma TornLast(e: Event, i: nat)
    requires FieldsFit(e) && i <= |LastValue(e)| && Solid(LastValue(e))
    ensures DecodePairs(Init(e) + [Pair(LastKey(e), LastValue(e)[..i])]) == WithLast(e, LastValue(e)[..i])
  {
    var w := LastValue(e)[..i];
    AbsorbInit(e);
    AbsorbConcat(NO_FIELDS, Init(e), [Pair(LastKey(e), w)]);
    AbsorbOne(InitFields(e), Pair(LastKey(e), w));
    FinishWithLast(e, w);
  }

  /** What a reader may take a torn line for: the same record, with no larger generation. */
  predicate NoLarger(e: Event, d: Event) {
    match e
    case WriteBegin(txid, chunkId, offsetInChunk, length, before, after) =>
      d.WriteBegin? && d.after <= after && d == WriteBegin(txid, chunkId, offsetInChunk, length, before, d.after)
    case LocalCommitted(txid, chunkId, after) =>
      d.LocalCommitted? && d.after <= after && d == LocalCommitted(txid, chunkId, d.after)
    case CloudCommitted(chunkId, generation, checksum) =>
      d.CloudCommitted? && d.checksum <= checksum && d == CloudCommitted(chunkId, generation, d.checksum)
  }

  lemma At20Prefix(s: string, i: nat, k: nat)
    requires k <= i <= |s|
    ensures At20(s[..i][k..]) ==> At20(s[k..])
  {
    var a, b := s[..i][k..], s[k..];
    assert forall j :: 0 <= j < |a| ==> a[j] == b[j];
  }

  lemma No20Prefix(s: string, i: nat)
    requires No20(s) && i <= |s|
    ensures No20(s[..i])
  {
    forall k | 0 <= k <= i
      ensures !At20(s[..i][k..])
    {
      At20Prefix(s, i, k);
    }
  }

  /** In particular a torn LocalCommitted never claims a larger generation than was being recorded. */
  lemma TornLineClaimsNoMore(e: Event, m: nat)
    requires Encodable(e) && (e.CloudCommitted? ==> Solid(e.checksum)) && m < |Encode(e)|
    ensures Decode(Encode(e)[..m]).Ok? ==> NoLarger(e, Decode(Encode(e)[..m]).value)
  {
    TornLine(e, m);
    var r := Decode(Encode(e)[..m]);
    if r.Ok? {
      assert CutInLast(e, Encode(e)[..m]);
      var i :| 0 <= i < |LastValue(e)| && r == WithLast(e, LastValue(e)[..i]);
      if e.CloudCommitted? {
        EscapeKeepsSolid(e.checksum);
        No20Prefix(e.checksum, i);
        UnescapeShrinks(e.checksum[..i]);
      } else {
        ParsePrefix(e.after, i);
      }
    }
  }
}
