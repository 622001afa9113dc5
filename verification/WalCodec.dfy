/** `encode_event` and `decode_event`: the line of a journal event, and its round trip. */
module WalCodec {
  import opened Wrappers
  import opened Mapper
  import opened Wal
  import opened WalText

  // ---------------------------------------------------------------- lines of key=value tokens

  datatype Pair = Pair(key: string, value: string) {
    function Token(): string { key + "=" + value }
  }

  function Line(pairs: seq<Pair>): string {
    if pairs == [] then ""
    else if |pairs| == 1 then pairs[0].Token()
    else pairs[0].Token() + " " + Line(pairs[1..])
  }

  function PairsOf(e: Event): seq<Pair> {
    match e
    case WriteBegin(txid, chunkId, offsetInChunk, length, before, after) =>
      [ Pair("type", "write_begin"), Pair("txid", Decimal(txid)), Pair("chunk_id", Decimal(chunkId)),
        Pair("offset_in_chunk", Decimal(offsetInChunk)), Pair("length", Decimal(length)),
        Pair("before_generation", Decimal(before)), Pair("after_generation", Decimal(after)) ]
    case LocalCommitted(txid, chunkId, after) =>
      [ Pair("type", "local_committed"), Pair("txid", Decimal(txid)), Pair("chunk_id", Decimal(chunkId)),
        Pair("after_generation", Decimal(after)) ]
    case CloudCommitted(chunkId, generation, checksum) =>
      [ Pair("type", "cloud_committed"), Pair("chunk_id", Decimal(chunkId)), Pair("generation", Decimal(generation)),
        Pair("checksum", Escape(checksum)) ]
  }

  /** `encode_event`. */
  function Encode(e: Event): string { Line(PairsOf(e)) }

  /** A field and what follows it, on a line. */
  function Field(before: string, key: string, value: string, rest: string): string {
    before + key + "=" + value + rest
  }

  /** The line from pair i on, with the space before it. */
  function From(pairs: seq<Pair>, i: nat): string { if i < |pairs| then " " + Line(pairs[i..]) else "" }

  lemma FieldAfter(before: string, key: string, value: string, rest: string)
    ensures before + (key + "=" + value + rest) == Field(before, key, value, rest)
  {
    var t := key + "=" + value;
    assert before + (t + rest) == (before + t) + rest;
    assert before + (key + "=" + value) == before + key + "=" + value;
  }

  lemma LineFirst(pairs: seq<Pair>)
    requires pairs != []
    ensures Line(pairs) == pairs[0].key + "=" + pairs[0].value + From(pairs, 1)
  {
    if |pairs| == 1 {
      assert pairs[0].Token() + "" == pairs[0].Token();
    } else {
      assert pairs[0].Token() + " " + Line(pairs[1..]) == pairs[0].Token() + (" " + Line(pairs[1..]));
    }
  }

  lemma FromNext(pairs: seq<Pair>, i: nat)
    requires i < |pairs|
    ensures From(pairs[i..], 1) == From(pairs, i + 1)
    ensures From(pairs, i) == " " + Line(pairs[i..])
  {
    assert pairs[i..][1..] == pairs[i + 1..];
  }

  lemma LineFrom(pairs: seq<Pair>, i: nat)
    ensures i < |pairs| ==> From(pairs, i) == Field(" ", pairs[i].key, pairs[i].value, From(pairs, i + 1))
    ensures pairs != [] ==> Line(pairs) == Field("", pairs[0].key, pairs[0].value, From(pairs, 1))
  {
    hide Line, From, Field;
    if i < |pairs| {
      FromNext(pairs, i);
      LineFirst(pairs[i..]);
      FieldAfter(" ", pairs[i].key, pairs[i].value, From(pairs, i + 1));
    }
    if pairs != [] {
      LineFirst(pairs);
      FieldAfter("", pairs[0].key, pairs[0].value, From(pairs, 1));
      assert "" + Line(pairs) == Line(pairs);
    }
  }

  /** The text of an event: its type and its fields by name, in this order, with one space between them. */
  lemma EncodeText(e: Event)
    ensures e.WriteBegin? ==>
              Encode(e)
              == Field("", "type", "write_begin",
                       Field(" ", "txid", Decimal(e.txid),
                             Field(" ", "chunk_id", Decimal(e.chunkId),
                                   Field(" ", "offset_in_chunk", Decimal(e.offsetInChunk),
                                         Field(" ", "length", Decimal(e.length),
                                               Field(" ", "before_generation", Decimal(e.before),
                                                     Field(" ", "after_generation", Decimal(e.after), "")))))))
    ensures e.LocalCommitted? ==>
              Encode(e)
              == Field("", "type", "local_committed",
                       Field(" ", "txid", Decimal(e.txid),
                             Field(" ", "chunk_id", Decimal(e.chunkId),
                                   Field(" ", "after_generation", Decimal(e.after), ""))))
    ensures e.CloudCommitted? ==>
              Encode(e)
              == Field("", "type", "cloud_committed",
                       Field(" ", "chunk_id", Decimal(e.chunkId),
                             Field(" ", "generation", Decimal(e.generation),
                                   Field(" ", "checksum", Escape(e.checksum), ""))))
  {
    hide Decimal, Escape, Field, From, Line;
    var ps := PairsOf(e);
    FromEnd(ps);
    LineFrom(ps, 1);
    LineFrom(ps, 2);
    LineFrom(ps, 3);
    if e.WriteBegin? {
      LineFrom(ps, 4);
      LineFrom(ps, 5);
      LineFrom(ps, 6);
    }
  }

  lemma FromEnd(pairs: seq<Pair>)
    ensures From(pairs, |pairs|) == ""
  {
  }

  /** The number of leading characters that are not white space. */
  function WordLen(s: string): (n: nat)
    ensures n <= |s| && Solid(s[..n]) && (n < |s| ==> IsSpace(s[n]))
  {
    if s == "" || IsSpace(s[0]) then 0
    else
      var n := 1 + WordLen(s[1..]);
      assert s[..n] == [s[0]] + s[1..][..n - 1];
      n
  }

  /** `split_whitespace`. */
  function Tokens(s: string): seq<string>
    decreases |s|
  {
    if s == "" then []
    else if IsSpace(s[0]) then Tokens(s[1..])
    else [s[..WordLen(s)]] + Tokens(s[WordLen(s)..])
  }

  /** The index of the first `=`, or the length of the text. */
  function EqualsAt(s: string): (n: nat)
    ensures n <= |s| && (forall i :: 0 <= i < n ==> s[i] != '=') && (n < |s| ==> s[n] == '=')
  {
    if s == "" || s[0] == '=' then 0 else 1 + EqualsAt(s[1..])
  }

  /** `split_once('=')`. */
  function SplitOnce(token: string): Option<Pair> {
    var n := EqualsAt(token);
    if n < |token| then Some(Pair(token[..n], token[n + 1..])) else None
  }

  // ---------------------------------------------------------------- decoding

  datatype Fields = Fields(
    eventType: Option<string>,
    txid: Option<nat>,
    chunkId: Option<nat>,
    offsetInChunk: Option<nat>,
    length: Option<nat>,
    before: Option<nat>,
    after: Option<nat>,
    generation: Option<nat>,
    checksum: Option<string>)

  const NO_FIELDS := Fields(None, None, None, None, None, None, None, None, None)

  datatype Key = Type | Txid | ChunkId | OffsetInChunk | Length | Before | After | Generation | Checksum | Other

  function KeyOf(key: string): Key {
    if key == "type" then Type
    else if key == "txid" then Txid
    else if key == "chunk_id" then ChunkId
    else if key == "offset_in_chunk" then OffsetInChunk
    else if key == "length" then Length
    else if key == "before_generation" then Before
    else if key == "after_generation" then After
    else if key == "generation" then Generation
    else if key == "checksum" then Checksum
    else Other
  }

  /** One pass of the loop of `decode_event`, on a token already split. */
  function Absorb(f: Fields, p: Pair): Result<Fields> {
    match KeyOf(p.key)
    case Type => Ok(f.(eventType := Some(p.value)))
    case Checksum => Ok(f.(checksum := Some(Unescape(p.value))))
    case Other => Ok(f)
    case Txid => if ParseU64(p.value).None? then Err(Corrupt) else Ok(f.(txid := ParseU64(p.value)))
    case ChunkId => if ParseU64(p.value).None? then Err(Corrupt) else Ok(f.(chunkId := ParseU64(p.value)))
    case OffsetInChunk => if ParseU64(p.value).None? then Err(Corrupt) else Ok(f.(offsetInChunk := ParseU64(p.value)))
    case Length => if ParseU64(p.value).None? then Err(Corrupt) else Ok(f.(length := ParseU64(p.value)))
    case Before => if ParseU64(p.value).None? then Err(Corrupt) else Ok(f.(before := ParseU64(p.value)))
    case After => if ParseU64(p.value).None? then Err(Corrupt) else Ok(f.(after := ParseU64(p.value)))
    case Generation => if ParseU64(p.value).None? then Err(Corrupt) else Ok(f.(generation := ParseU64(p.value)))
  }

  function AbsorbTokens(f: Fields, tokens: seq<string>): Result<Fields>
    decreases tokens
  {
    if tokens == [] then Ok(f)
    else
      match SplitOnce(tokens[0])
      case None => Err(Corrupt)
      case Some(p) =>
        match Absorb(f, p)
        case Err(e) => Err(e)
        case Ok(f') => AbsorbTokens(f', tokens[1..])
  }

  function Finish(f: Fields): Result<Event> {
    if f.eventType == Some("write_begin") then
      if f.txid.Some? && f.chunkId.Some? && f.offsetInChunk.Some? && f.length.Some? && f.before.Some?
          && f.after.Some? then
        Ok(WriteBegin(f.txid.value, f.chunkId.value, f.offsetInChunk.value, f.length.value, f.before.value,
                      f.after.value))
      else Err(Corrupt)
    else if f.eventType == Some("local_committed") then
      if f.txid.Some? && f.chunkId.Some? && f.after.Some? then
        Ok(LocalCommitted(f.txid.value, f.chunkId.value, f.after.value))
      else Err(Corrupt)
    else if f.eventType == Some("cloud_committed") then
      if f.chunkId.Some? && f.generation.Some? && f.checksum.Some? then
        Ok(CloudCommitted(f.chunkId.value, f.generation.value, f.checksum.value))
      else Err(Corrupt)
    else Err(Corrupt)
  }

  function DecodeTokens(tokens: seq<string>): Result<Event> {
    match AbsorbTokens(NO_FIELDS, tokens)
    case Err(e) => Err(e)
    case Ok(f) => Finish(f)
  }

  /** `decode_event`. */
  function Decode(line: string): Result<Event> { DecodeTokens(Tokens(line)) }

  /** `decode_event`, as a loop that fills the fields token by token. */
  method DecodeEvent(line: string) returns (r: Result<Event>)
    ensures r == Decode(line)
  {
    var f := NO_FIELDS;
    var rest := Tokens(line);
    while rest != []
      invariant AbsorbTokens(f, rest) == AbsorbTokens(NO_FIELDS, Tokens(line))
      decreases |rest|
    {
      match SplitOnce(rest[0]) {
        case None => return Err(Corrupt);
        case Some(p) =>
          match Absorb(f, p) {
            case Err(e) => return Err(e);
            case Ok(f') =>
              f := f';
              rest := rest[1..];
          }
      }
    }
    return Finish(f);
  }

  // ---------------------------------------------------------------- tokens of a line

  predicate KeyLike(key: string) { Solid(key) && forall i :: 0 <= i < |key| ==> key[i] != '=' }

  predicate GoodPair(p: Pair) { KeyLike(p.key) && Solid(p.value) }

  predicate GoodPairs(pairs: seq<Pair>) { forall i :: 0 <= i < |pairs| ==> GoodPair(pairs[i]) }

  lemma TokenSolid(p: Pair)
    requires GoodPair(p)
    ensures Solid(p.Token()) && p.Token() != "" && SplitOnce(p.Token()) == Some(p)
  {
    var t := p.Token();
    SolidConcat(p.key + "=", p.value);
    SolidConcat(p.key, "=");
    assert t[|p.key|] == '=';
    assert EqualsAt(t) == |p.key|;
    assert t[..|p.key|] == p.key && t[|p.key| + 1..] == p.value;
  }

  lemma WordLenOf(w: string, rest: string)
    requires Solid(w) && (rest == "" || IsSpace(rest[0]))
    ensures WordLen(w + rest) == |w|
  {
    var t := w + rest;
    assert forall i :: 0 <= i < |w| ==> t[i] == w[i];
    assert rest != "" ==> t[|w|] == rest[0];
    var n := WordLen(t);
    assert forall i :: 0 <= i < n ==> t[..n][i] == t[i];
  }

  lemma TokensOfWord(w: string, rest: string)
    requires Solid(w) && w != "" && (rest == "" || IsSpace(rest[0]))
    ensures Tokens(w + rest) == [w] + Tokens(rest)
  {
    WordLenOf(w, rest);
    assert (w + rest)[0] == w[0];
    assert (w + rest)[..|w|] == w && (w + rest)[|w|..] == rest;
  }

  function TokensOf(pairs: seq<Pair>): seq<string> {
    if pairs == [] then [] else [pairs[0].Token()] + TokensOf(pairs[1..])
  }

  /** A line is split back into the tokens it was made of. */
  lemma {:induction false} TokensOfLine(pairs: seq<Pair>)
    requires GoodPairs(pairs)
    ensures Tokens(Line(pairs)) == TokensOf(pairs)
    decreases |pairs|
  {
    if pairs != [] {
      TokenSolid(pairs[0]);
      if |pairs| == 1 {
        assert pairs[1..] == [] && Line(pairs) == pairs[0].Token() + "";
        TokensOfWord(pairs[0].Token(), "");
      } else {
        TokensOfLine(pairs[1..]);
        var rest := " " + Line(pairs[1..]);
        assert Line(pairs) == pairs[0].Token() + rest;
        TokensOfWord(pairs[0].Token(), rest);
        assert rest[1..] == Line(pairs[1..]);
      }
    }
  }

  function AbsorbPairs(f: Fields, pairs: seq<Pair>): Result<Fields>
    decreases pairs
  {
    if pairs == [] then Ok(f)
    else
      match Absorb(f, pairs[0])
      case Err(e) => Err(e)
      case Ok(f') => AbsorbPairs(f', pairs[1..])
  }

  lemma {:induction false} AbsorbLine(f: Fields, pairs: seq<Pair>)
    requires GoodPairs(pairs)
    ensures AbsorbTokens(f, TokensOf(pairs)) == AbsorbPairs(f, pairs)
    decreases |pairs|
  {
    if pairs != [] {
      TokenSolid(pairs[0]);
      assert TokensOf(pairs)[1..] == TokensOf(pairs[1..]);
      match Absorb(f, pairs[0])
      case Err(_) =>
      case Ok(f') => AbsorbLine(f', pairs[1..]);
    }
  }

  // ---------------------------------------------------------------- round trip of one event

  predicate FieldsFit(e: Event) {
    match e
    case WriteBegin(txid, chunkId, offsetInChunk, length, before, after) =>
      txid <= U64_MAX && chunkId <= U64_MAX && offsetInChunk <= U64_MAX && length <= U64_MAX && before <= U64_MAX
          && after <= U64_MAX
    case LocalCommitted(txid, chunkId, after) => txid <= U64_MAX && chunkId <= U64_MAX && after <= U64_MAX
    case CloudCommitted(chunkId, generation, _) => chunkId <= U64_MAX && generation <= U64_MAX
  }

  /** A checksum that the journal can carry: no literal %20, and no white space but plain spaces. */
  predicate Carriable(checksum: string) { No20(checksum) && OnlyPlainSpaces(checksum) }

  predicate Encodable(e: Event) { FieldsFit(e) && (e.CloudCommitted? ==> Carriable(e.checksum)) }

  lemma EncodableFits(e: Event)
    requires Encodable(e)
    ensures FieldsFit(e)
  {
  }

  predicate IsHex(ch: char) { '0' <= ch <= '9' || 'a' <= ch <= 'f' }

  /** The shape of every `sha256_hex` result: a prefix and 64 hexadecimal digits. */
  predicate DigestLike(sum: string) {
    |sum| == 71 && sum[..7] == "sha256:" && forall i :: 7 <= i < |sum| ==> IsHex(sum[i])
  }

  /** So every checksum the engine writes survives the journal, and no torn one is mistaken. */
  lemma DigestIsCarriable(sum: string)
    requires DigestLike(sum)
    ensures Carriable(sum) && Solid(sum)
  {
    forall i | 0 <= i < |sum|
      ensures sum[i] != '%' && !IsSpace(sum[i])
    {
      if i < 7 {
        assert sum[i] == sum[..7][i];
      }
    }
  }

  lemma KeysDistinct()
    ensures KeyOf("type") == Type && KeyOf("txid") == Txid && KeyOf("chunk_id") == ChunkId
    ensures KeyOf("offset_in_chunk") == OffsetInChunk && KeyOf("length") == Length
    ensures KeyOf("before_generation") == Before && KeyOf("after_generation") == After
    ensures KeyOf("generation") == Generation && KeyOf("checksum") == Checksum
  {
    assert "txid"[1] == 'x' && "type"[1] == 'y';
    assert "chunk_id"[1] == 'h' && "checksum"[3] == 'c' && "chunk_id"[3] == 'n';
    assert |"offset_in_chunk"| == 15 && |"length"| == 6 && |"before_generation"| == 17 && |"after_generation"| == 16;
    assert |"generation"| == 10 && |"checksum"| == 8 && |"chunk_id"| == 8 && |"txid"| == 4 && |"type"| == 4;
  }

  lemma CommonKeysGood()
    ensures KeyLike("type") && KeyLike("txid") && KeyLike("chunk_id") && KeyLike("length")
  {
  }

  lemma OtherKeysGood()
    ensures KeyLike("offset_in_chunk") && KeyLike("generation") && KeyLike("checksum")
  {
  }

  lemma GenerationKeysGood()
    ensures KeyLike("before_generation") && KeyLike("after_generation")
  {
  }

  lemma TypesSolid()
    ensures Solid("write_begin") && Solid("local_committed") && Solid("cloud_committed")
  {
  }

  lemma KeysGood()
    ensures KeyLike("type") && KeyLike("txid") && KeyLike("chunk_id") && KeyLike("offset_in_chunk") && KeyLike("length")
    ensures KeyLike("before_generation") && KeyLike("after_generation") && KeyLike("generation") && KeyLike("checksum")
    ensures Solid("write_begin") && Solid("local_committed") && Solid("cloud_committed")
  {
    hide KeyLike, Solid;
    CommonKeysGood();
    OtherKeysGood();
    GenerationKeysGood();
    TypesSolid();
  }

  lemma TypesDistinct()
    ensures "write_begin" != "local_committed" && "write_begin" != "cloud_committed"
    ensures "local_committed" != "cloud_committed"
  {
    assert "local_committed"[0] == 'l' && "cloud_committed"[0] == 'c' && "write_begin"[0] == 'w';
  }

  lemma PairsGood(e: Event)
    requires e.CloudCommitted? ==> OnlyPlainSpaces(e.checksum)
    ensures GoodPairs(PairsOf(e))
  {
    hide KeyLike, Solid, OnlyPlainSpaces;
    KeysGood();
    match e
    case WriteBegin(txid, chunkId, offsetInChunk, length, before, after) =>
      DecimalFacts(txid);
      DecimalFacts(chunkId);
      DecimalFacts(offsetInChunk);
      DecimalFacts(length);
      DecimalFacts(before);
      DecimalFacts(after);
    case LocalCommitted(txid, chunkId, after) =>
      DecimalFacts(txid);
      DecimalFacts(chunkId);
      DecimalFacts(after);
    case CloudCommitted(chunkId, generation, checksum) =>
      DecimalFacts(chunkId);
      DecimalFacts(generation);
      EscapeSolid(checksum);
  }

  lemma {:induction false} AbsorbConcat(f: Fields, a: seq<Pair>, b: seq<Pair>)
    ensures AbsorbPairs(f, a + b)
         == match AbsorbPairs(f, a) case Err(e) => Err(e) case Ok(f') => AbsorbPairs(f', b)
    decreases |a|
  {
    if a == [] {
      assert a + b == b;
    } else {
      assert (a + b)[0] == a[0] && (a + b)[1..] == a[1..] + b;
      match Absorb(f, a[0])
      case Err(_) =>
      case Ok(f') => AbsorbConcat(f', a[1..], b);
    }
  }

  /** All tokens of the event but the last, the key of the last, and its value. */
  function Init(e: Event): seq<Pair> {
    match e
    case WriteBegin(txid, chunkId, offsetInChunk, length, before, _) =>
      [ Pair("type", "write_begin"), Pair("txid", Decimal(txid)), Pair("chunk_id", Decimal(chunkId)),
        Pair("offset_in_chunk", Decimal(offsetInChunk)), Pair("length", Decimal(length)),
        Pair("before_generation", Decimal(before)) ]
    case LocalCommitted(txid, chunkId, _) =>
      [ Pair("type", "local_committed"), Pair("txid", Decimal(txid)), Pair("chunk_id", Decimal(chunkId)) ]
    case CloudCommitted(chunkId, generation, _) =>
      [ Pair("type", "cloud_committed"), Pair("chunk_id", Decimal(chunkId)), Pair("generation", Decimal(generation)) ]
  }

  function LastKey(e: Event): string {
    if e.CloudCommitted? then "checksum" else "after_generation"
  }

  function LastValue(e: Event): string {
    if e.CloudCommitted? then Escape(e.checksum) else Decimal(e.after)
  }

  lemma PairsSplit(e: Event)
    ensures PairsOf(e) == Init(e) + [Pair(LastKey(e), LastValue(e))]
  {
  }

  /** The fields known before the last token. */
  function InitFields(e: Event): Fields {
    match e
    case WriteBegin(txid, chunkId, offsetInChunk, length, before, _) =>
      NO_FIELDS.(eventType := Some("write_begin"), txid := Some(txid), chunkId := Some(chunkId),
                offsetInChunk := Some(offsetInChunk), length := Some(length), before := Some(before))
    case LocalCommitted(txid, chunkId, _) =>
      NO_FIELDS.(eventType := Some("local_committed"), txid := Some(txid), chunkId := Some(chunkId))
    case CloudCommitted(chunkId, generation, _) =>
      NO_FIELDS.(eventType := Some("cloud_committed"), chunkId := Some(chunkId), generation := Some(generation))
  }

  lemma AbsorbOne(f: Fields, p: Pair)
    ensures AbsorbPairs(f, [p]) == Absorb(f, p)
  {
    assert [p][1..] == [];
  }

  lemma AbsorbNumber(f: Fields, n: nat)
    requires n <= U64_MAX
    ensures Absorb(f, Pair("txid", Decimal(n))) == Ok(f.(txid := Some(n)))
    ensures Absorb(f, Pair("chunk_id", Decimal(n))) == Ok(f.(chunkId := Some(n)))
    ensures Absorb(f, Pair("offset_in_chunk", Decimal(n))) == Ok(f.(offsetInChunk := Some(n)))
    ensures Absorb(f, Pair("length", Decimal(n))) == Ok(f.(length := Some(n)))
    ensures Absorb(f, Pair("before_generation", Decimal(n))) == Ok(f.(before := Some(n)))
    ensures Absorb(f, Pair("generation", Decimal(n))) == Ok(f.(generation := Some(n)))
  {
    hide Decimal, ParseU64;
    KeysDistinct();
    ParseDecimal(n);
  }

  lemma AbsorbType(f: Fields, t: string)
    ensures Absorb(f, Pair("type", t)) == Ok(f.(eventType := Some(t)))
  {
    KeysDistinct();
  }

  lemma AbsorbInitWrite(e: Event)
    requires FieldsFit(e) && e.WriteBegin?
    ensures AbsorbPairs(NO_FIELDS, Init(e)) == Ok(InitFields(e))
  {
    hide Absorb, AbsorbPairs, Decimal;
    var ps := Init(e);
    var f1 := NO_FIELDS.(eventType := Some("write_begin"));
    var f3 := f1.(txid := Some(e.txid), chunkId := Some(e.chunkId));
    var f4 := f3.(offsetInChunk := Some(e.offsetInChunk));
    AbsorbType(NO_FIELDS, "write_begin");
    AbsorbNumber(f1, e.txid);
    AbsorbNumber(f1.(txid := Some(e.txid)), e.chunkId);
    AbsorbThree(ps[..3], NO_FIELDS);
    AbsorbNumber(f3, e.offsetInChunk);
    AbsorbNumber(f4, e.length);
    AbsorbNumber(f4.(length := Some(e.length)), e.before);
    AbsorbThree(ps[3..], f3);
    AbsorbConcat(NO_FIELDS, ps[..3], ps[3..]);
    assert ps == ps[..3] + ps[3..];
  }

  lemma AbsorbInit(e: Event)
    requires FieldsFit(e)
    ensures AbsorbPairs(NO_FIELDS, Init(e)) == Ok(InitFields(e))
  {
    hide Absorb, AbsorbPairs, Decimal;
    match e
    case WriteBegin(_, _, _, _, _, _) => AbsorbInitWrite(e);
    case LocalCommitted(txid, chunkId, _) =>
      AbsorbType(NO_FIELDS, "local_committed");
      AbsorbNumber(NO_FIELDS.(eventType := Some("local_committed")), txid);
      AbsorbNumber(NO_FIELDS.(eventType := Some("local_committed"), txid := Some(txid)), chunkId);
      AbsorbThree(Init(e), NO_FIELDS);
    case CloudCommitted(chunkId, generation, _) =>
      AbsorbType(NO_FIELDS, "cloud_committed");
      AbsorbNumber(NO_FIELDS.(eventType := Some("cloud_committed")), chunkId);
      AbsorbNumber(NO_FIELDS.(eventType := Some("cloud_committed"), chunkId := Some(chunkId)), generation);
      AbsorbThree(Init(e), NO_FIELDS);
  }

  lemma AbsorbThree(ps: seq<Pair>, f: Fields)
    requires |ps| == 3 && Absorb(f, ps[0]).Ok?
    requires Absorb(Absorb(f, ps[0]).value, ps[1]).Ok?
    ensures AbsorbPairs(f, ps) == Absorb(Absorb(Absorb(f, ps[0]).value, ps[1]).value, ps[2])
  {
    var f1 := Absorb(f, ps[0]).value;
    var f2 := Absorb(f1, ps[1]).value;
    AbsorbOne(f2, ps[2]);
    AbsorbConcat(f1, [ps[1]], [ps[2]]);
    AbsorbOne(f1, ps[1]);
    AbsorbConcat(f, [ps[0]], [ps[1], ps[2]]);
    AbsorbOne(f, ps[0]);
    assert [ps[1]] + [ps[2]] == [ps[1], ps[2]];
    assert ps == [ps[0]] + [ps[1], ps[2]];
  }

  /** What an event line decodes to when its last value reads `w`. */
  function WithLast(e: Event, w: string): Result<Event> {
    if e.CloudCommitted? then Ok(e.(checksum := Unescape(w)))
    else if ParseU64(w).None? then Err(Corrupt)
    else if e.WriteBegin? then Ok(WriteBegin(e.txid, e.chunkId, e.offsetInChunk, e.length, e.before, ParseU64(w).value))
    else Ok(LocalCommitted(e.txid, e.chunkId, ParseU64(w).value))
  }

  lemma DecodeWithLast(e: Event, w: string)
    requires FieldsFit(e) && Solid(w)
    ensures Decode(Line(Init(e) + [Pair(LastKey(e), w)])) == WithLast(e, w)
  {
    var ps := Init(e) + [Pair(LastKey(e), w)];
    KeysGood();
    PairsGoodInit(e);
    assert GoodPairs(ps);
    TokensOfLine(ps);
    AbsorbLine(NO_FIELDS, ps);
    AbsorbInit(e);
    AbsorbConcat(NO_FIELDS, Init(e), [Pair(LastKey(e), w)]);
    AbsorbOne(InitFields(e), Pair(LastKey(e), w));
    FinishWithLast(e, w);
  }

  lemma FinishWithLast(e: Event, w: string)
    ensures (match Absorb(InitFields(e), Pair(LastKey(e), w)) case Err(x) => Err(x) case Ok(f) => Finish(f))
         == WithLast(e, w)
  {
    KeysDistinct();
    TypesDistinct();
  }

  lemma PairsGoodInit(e: Event)
    ensures GoodPairs(Init(e))
  {
    hide KeyLike, Solid, OnlyPlainSpaces;
    KeysGood();
    match e
    case WriteBegin(txid, chunkId, offsetInChunk, length, before, _) =>
      DecimalFacts(txid);
      DecimalFacts(chunkId);
      DecimalFacts(offsetInChunk);
      DecimalFacts(length);
      DecimalFacts(before);
    case LocalCommitted(txid, chunkId, _) =>
      DecimalFacts(txid);
      DecimalFacts(chunkId);
    case CloudCommitted(chunkId, generation, _) =>
      DecimalFacts(chunkId);
      DecimalFacts(generation);
  }

  lemma LastValueReads(e: Event)
    requires Encodable(e)
    ensures Solid(LastValue(e)) && WithLast(e, LastValue(e)) == Ok(e)
  {
    hide Decimal, ParseU64, Escape, Unescape;
    if e.CloudCommitted? {
      EscapeSolid(e.checksum);
      EscapeRoundTrip(e.checksum);
    } else {
      DecimalFacts(e.after);
      ParseDecimal(e.after);
    }
  }

  /** Decoding an encoded event gives it back. */
  lemma DecodeEncode(e: Event)
    requires Encodable(e)
    ensures Decode(Encode(e)) == Ok(e)
  {
    hide Decode, Line, Init, PairsOf, WithLast, LastValue, LastKey;
    PairsSplit(e);
    LastValueReads(e);
    DecodeWithLast(e, LastValue(e));
  }
}
