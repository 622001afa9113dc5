/**
 * What `decode_event` makes of any line whatever, told on its words: which words are refused, which word
 * decides each field, and which fields an event needs.
 */
module WalFields {
  import opened Wrappers
  import opened Mapper
  import opened Wal
  import opened WalText
  import opened WalCodec

  // ---------------------------------------------------------------- numbers

  predicate AllZeroes(s: string) { forall i :: 0 <= i < |s| ==> s[i] == '0' }

  /** A number of at least one digit is the written number, behind zeroes. */
  lemma {:induction false} DigitsAreDecimal(s: string) returns (k: nat)
    requires AllDigits(s) && s != ""
    ensures k < |s| && AllZeroes(s[..k]) && s[k..] == Decimal(DigitsValue(s))
    decreases |s|
  {
    var m := |s| - 1;
    var d := DigitValue(s[m]);
    k := m;
    if DigitsValue(s[..m]) == 0 {
      ZeroValue(s[..m]);
      assert s[m..] == [DigitChar(d)];
    } else {
      assert s[..m] != "";
      k := DigitsAreDecimal(s[..m]);
      assert s[..m][..k] == s[..k];
      assert s[k..] == s[..m][k..] + [s[m]];
      assert DigitsValue(s) / 10 == DigitsValue(s[..m]) && DigitsValue(s) % 10 == d;
    }
  }

  lemma {:induction false} ZeroValue(s: string)
    requires AllDigits(s) && DigitsValue(s) == 0
    ensures AllZeroes(s)
    decreases |s|
  {
    if s != "" {
      ZeroValue(s[..|s| - 1]);
    }
  }

  lemma {:induction false} BehindZeroes(z: string, s: string)
    requires AllZeroes(z) && AllDigits(s)
    ensures AllDigits(z + s) && DigitsValue(z + s) == DigitsValue(s)
    decreases |s|
  {
    if s == "" {
      assert z + s == z;
      ZeroesValue(z);
    } else {
      BehindZeroes(z, s[..|s| - 1]);
      assert (z + s)[..|z + s| - 1] == z + s[..|s| - 1];
    }
  }

  lemma {:induction false} ZeroesValue(z: string)
    requires AllZeroes(z)
    ensures AllDigits(z) && DigitsValue(z) == 0
    decreases |z|
  {
    if z != "" {
      ZeroesValue(z[..|z| - 1]);
    }
  }

  /**
   * A u64 is read from its decimal digits, with any zeroes and at most one plus sign before them, and from
   * nothing else.
   */
  lemma ParsesExactly(s: string, n: nat)
    ensures ParseU64(s) == Some(n) <==>
              n <= U64_MAX && exists z :: AllZeroes(z) && (s == z + Decimal(n) || s == "+" + (z + Decimal(n)))
  {
    hide Decimal, DigitsValue, AllDigits;
    if ParseU64(s) == Some(n) {
      var z := ParsedText(s, n);
      assert AllZeroes(z);
    }
    if n <= U64_MAX {
      forall z | AllZeroes(z) && (s == z + Decimal(n) || s == "+" + (z + Decimal(n)))
        ensures ParseU64(s) == Some(n)
      {
        TextParsed(z, n);
      }
    }
  }

  lemma ParsedText(s: string, n: nat) returns (z: string)
    requires ParseU64(s) == Some(n)
    ensures n <= U64_MAX && AllZeroes(z) && (s == z + Decimal(n) || s == "+" + (z + Decimal(n)))
  {
    hide Decimal, DigitsValue;
    var digits := if |s| > 0 && s[0] == '+' then s[1..] else s;
    var k := DigitsAreDecimal(digits);
    z := digits[..k];
    assert digits == z + Decimal(n);
    assert s == digits || s == "+" + digits;
  }

  lemma TextParsed(z: string, n: nat)
    requires n <= U64_MAX && AllZeroes(z)
    ensures ParseU64(z + Decimal(n)) == Some(n) && ParseU64("+" + (z + Decimal(n))) == Some(n)
  {
    hide Decimal, DigitsValue;
    DecimalFacts(n);
    BehindZeroes(z, Decimal(n));
    var digits := z + Decimal(n);
    assert IsDigit(digits[0]);
    assert ("+" + digits)[0] == '+' && ("+" + digits)[1..] == digits;
  }

  // ---------------------------------------------------------------- fields

  /** The word gives the field `name` a value: it is name=value. */
  predicate Names(word: string, name: string) { |word| > |name| && word[..|name| + 1] == name + "=" }

  /** The value that the last of the words to name the field gives it. */
  function ValueOf(words: seq<string>, name: string): Option<string> {
    if words == [] then None
    else
      var later := ValueOf(words[1..], name);
      if later.Some? then later
      else if Names(words[0], name) then Some(words[0][|name| + 1..]) else None
  }

  function NumberOf(words: seq<string>, name: string): Option<nat> {
    var v := ValueOf(words, name);
    if v.Some? then ParseU64(v.value) else None
  }

  predicate IsNumber(name: string) {
    name == "txid" || name == "chunk_id" || name == "offset_in_chunk" || name == "length"
    || name == "before_generation" || name == "after_generation" || name == "generation"
  }

  /** The word has an equals sign, and a number after it if it names a field that is one. */
  ghost predicate GoodWord(word: string) {
    '=' in word && forall name :: IsNumber(name) && Names(word, name) ==> ParseU64(word[|name| + 1..]).Some?
  }

  ghost predicate GoodWords(words: seq<string>) { forall i :: 0 <= i < |words| ==> GoodWord(words[i]) }

  /** The words say the event: its type, and each of its fields. */
  predicate Says(words: seq<string>, e: Event) {
    match e
    case WriteBegin(txid, chunkId, offsetInChunk, length, before, after) =>
      && ValueOf(words, "type") == Some("write_begin")
      && NumberOf(words, "txid") == Some(txid) && NumberOf(words, "chunk_id") == Some(chunkId)
      && NumberOf(words, "offset_in_chunk") == Some(offsetInChunk) && NumberOf(words, "length") == Some(length)
      && NumberOf(words, "before_generation") == Some(before) && NumberOf(words, "after_generation") == Some(after)
    case LocalCommitted(txid, chunkId, after) =>
      && ValueOf(words, "type") == Some("local_committed")
      && NumberOf(words, "txid") == Some(txid) && NumberOf(words, "chunk_id") == Some(chunkId)
      && NumberOf(words, "after_generation") == Some(after)
    case CloudCommitted(chunkId, generation, checksum) =>
      && ValueOf(words, "type") == Some("cloud_committed")
      && NumberOf(words, "chunk_id") == Some(chunkId) && NumberOf(words, "generation") == Some(generation)
      && ValueOf(words, "checksum").Some? && checksum == Unescape(ValueOf(words, "checksum").value)
  }

  lemma EqualsIn(word: string)
    ensures '=' in word <==> SplitOnce(word).Some?
  {
    if i :| 0 <= i < |word| && word[i] == '=' {
      assert EqualsAt(word) <= i;
    }
  }

  lemma KeyNames(word: string, name: string)
    requires SplitOnce(word).Some? && '=' !in name
    ensures SplitOnce(word).value.key == name <==> Names(word, name)
    ensures Names(word, name) ==> SplitOnce(word).value.value == word[|name| + 1..]
  {
    var n := EqualsAt(word);
    if Names(word, name) {
      assert word[..|name| + 1][|name|] == '=' && word[|name|] == '=';
      assert forall i :: 0 <= i < |name| ==> word[..|name| + 1][i] == name[i] && word[i] != '=';
      assert n == |name|;
      assert word[..n] == word[..|name| + 1][..n] == name;
    }
    if word[..n] == name {
      assert word[..n + 1] == word[..n] + [word[n]];
    }
  }

  lemma KeyIs(key: string)
    ensures KeyOf(key) == Type <==> key == "type"
    ensures KeyOf(key) == Txid <==> key == "txid"
    ensures KeyOf(key) == ChunkId <==> key == "chunk_id"
    ensures KeyOf(key) == OffsetInChunk <==> key == "offset_in_chunk"
    ensures KeyOf(key) == Length <==> key == "length"
    ensures KeyOf(key) == Before <==> key == "before_generation"
    ensures KeyOf(key) == After <==> key == "after_generation"
    ensures KeyOf(key) == Generation <==> key == "generation"
    ensures KeyOf(key) == Checksum <==> key == "checksum"
  {
    KeysDistinct();
  }

  /** The fields once the words are absorbed: where a word names one, by the last that does. */
  function Merged(f: Fields, words: seq<string>): Fields {
    Fields(TextOr(words, "type", f.eventType), NumberOr(words, "txid", f.txid), NumberOr(words, "chunk_id", f.chunkId),
           NumberOr(words, "offset_in_chunk", f.offsetInChunk), NumberOr(words, "length", f.length),
           NumberOr(words, "before_generation", f.before), NumberOr(words, "after_generation", f.after),
           NumberOr(words, "generation", f.generation), ChecksumOr(words, f.checksum))
  }

  function TextOr(words: seq<string>, name: string, was: Option<string>): Option<string> {
    if ValueOf(words, name).Some? then ValueOf(words, name) else was
  }

  function NumberOr(words: seq<string>, name: string, was: Option<nat>): Option<nat> {
    if ValueOf(words, name).Some? then NumberOf(words, name) else was
  }

  function ChecksumOr(words: seq<string>, was: Option<string>): Option<string> {
    var v := ValueOf(words, "checksum");
    if v.Some? then Some(Unescape(v.value)) else was
  }

  /** One word, which is key=value: it decides its own field, unless a later word does. */
  lemma OrNext(words: seq<string>, name: string, p: Pair)
    requires words != [] && SplitOnce(words[0]) == Some(p) && '=' !in name
    ensures forall was :: NumberOr(words, name, was)
                       == NumberOr(words[1..], name, if p.key == name then ParseU64(p.value) else was)
    ensures forall was :: TextOr(words, name, was)
                       == TextOr(words[1..], name, if p.key == name then Some(p.value) else was)
    ensures name == "checksum" ==>
              forall was :: ChecksumOr(words, was)
                         == ChecksumOr(words[1..], if p.key == name then Some(Unescape(p.value)) else was)
  {
    hide ParseU64, Unescape;
    KeyNames(words[0], name);
  }

  lemma NoEquals()
    ensures '=' !in "type" && '=' !in "txid" && '=' !in "chunk_id" && '=' !in "length" && '=' !in "offset_in_chunk"
    ensures '=' !in "generation" && '=' !in "checksum" && '=' !in "before_generation" && '=' !in "after_generation"
  {
    hide Solid;
    KeysGood();
  }

  lemma AbsorbGood(p: Pair)
    ensures Absorb(NO_FIELDS, p).Ok? <==> (IsNumber(p.key) ==> ParseU64(p.value).Some?)
  {
    hide ParseU64, Unescape, KeyOf;
    KeyIs(p.key);
  }

  lemma WordIsGood(word: string)
    ensures GoodWord(word) <==> SplitOnce(word).Some? && Absorb(NO_FIELDS, SplitOnce(word).value).Ok?
  {
    hide ParseU64, Absorb, Names, EqualsAt, IsNumber, SplitOnce;
    EqualsIn(word);
    if SplitOnce(word).Some? {
      var p := SplitOnce(word).value;
      AbsorbGood(p);
      forall name | IsNumber(name)
        ensures Names(word, name) <==> p.key == name
        ensures Names(word, name) ==> |name| < |word| && p.value == word[|name| + 1..]
      {
        NumberHasNoEquals(name);
        KeyNames(word, name);
        NamesIsLonger(word, name);
      }
    }
  }

  lemma NamesIsLonger(word: string, name: string)
    ensures Names(word, name) ==> |name| < |word|
  {
  }

  lemma NumberHasNoEquals(name: string)
    requires IsNumber(name)
    ensures '=' !in name
  {
    NoEquals();
  }

  lemma AbsorbAny(f: Fields, g: Fields, p: Pair)
    ensures Absorb(f, p).Ok? <==> Absorb(g, p).Ok?
    ensures Absorb(f, p).Err? ==> Absorb(f, p).error == Corrupt
  {
  }

  lemma MergedNext(f: Fields, words: seq<string>, p: Pair)
    requires words != [] && SplitOnce(words[0]) == Some(p) && Absorb(f, p).Ok?
    ensures Merged(f, words) == Merged(Absorb(f, p).value, words[1..])
  {
    hide SplitOnce, KeyOf, NumberOr, TextOr, ChecksumOr, ParseU64, Unescape;
    NoEquals();
    KeyIs(p.key);
    OrNext(words, "type", p);
    OrNext(words, "txid", p);
    OrNext(words, "chunk_id", p);
    OrNext(words, "offset_in_chunk", p);
    OrNext(words, "length", p);
    OrNext(words, "before_generation", p);
    OrNext(words, "after_generation", p);
    OrNext(words, "generation", p);
    OrNext(words, "checksum", p);
  }

  lemma MergedNone(f: Fields)
    ensures Merged(f, []) == f
  {
  }

  lemma {:induction false} AbsorbsExactly(f: Fields, words: seq<string>)
    ensures AbsorbTokens(f, words) == if GoodWords(words) then Ok(Merged(f, words)) else Err(Corrupt)
    decreases |words|
  {
    hide GoodWord, Absorb, SplitOnce, Merged;
    if words == [] {
      MergedNone(f);
    } else {
      WordIsGood(words[0]);
      assert GoodWords(words) <==> GoodWord(words[0]) && GoodWords(words[1..]) by {
        assert forall i :: 0 < i < |words| ==> words[i] == words[1..][i - 1];
      }
      if SplitOnce(words[0]).Some? {
        var p := SplitOnce(words[0]).value;
        AbsorbAny(f, NO_FIELDS, p);
        if Absorb(f, p).Ok? {
          AbsorbsExactly(Absorb(f, p).value, words[1..]);
          MergedNext(f, words, p);
        }
      }
    }
  }

  /**
   * `decode_event`, exactly: a line is an event if and only if every word of it is good and they say the event,
   * each field by the last word that names it; words that name anything else do not matter, nor does the
   * order. Any other line is corrupt.
   */
  lemma DecodesExactly(line: string, e: Event)
    ensures Decode(line) == Ok(e) <==> GoodWords(Tokens(line)) && Says(Tokens(line), e)
    ensures Decode(line).Err? ==> Decode(line).error == Corrupt
  {
    hide AbsorbTokens, GoodWords, Tokens, ValueOf, ParseU64, Unescape;
    AbsorbsExactly(NO_FIELDS, Tokens(line));
    TypesDistinct();
    FinishSays(Tokens(line), e);
  }

  lemma FinishSays(words: seq<string>, e: Event)
    ensures Finish(Merged(NO_FIELDS, words)) == Ok(e) <==> Says(words, e)
    ensures Finish(Merged(NO_FIELDS, words)).Err? ==> Finish(Merged(NO_FIELDS, words)).error == Corrupt
  {
    hide ValueOf, ParseU64, Unescape;
    TypesDistinct();
  }
}
