/** NBD messages on the wire: big-endian numbers, request headers and simple replies. */
module Framing {
  import opened Wrappers
  import opened Mapper

  const REQUEST_MAGIC: nat := 0x2560_9513
  const REPLY_MAGIC: nat := 0x6744_6698

  const CMD_READ: nat := 0
  const CMD_WRITE: nat := 1
  const CMD_DISC: nat := 2
  const CMD_FLUSH: nat := 3
  const CMD_TRIM: nat := 4
  const CMD_WRITE_ZEROES: nat := 6

  const EIO: nat := 5
  const EINVAL: nat := 22

  // ---------------------------------------------------------------- big-endian numbers

  function Power256(k: nat): (p: nat)
    ensures p > 0
  {
    if k == 0 then 1 else 256 * Power256(k - 1)
  }

  /** `to_be_bytes` on k bytes. */
  function BigEndian(n: nat, k: nat): (b: seq<byte>)
    ensures |b| == k
  {
    if k == 0 then [] else BigEndian(n / 256, k - 1) + [(n % 256) as byte]
  }

  /** `from_be_bytes`. */
  function FromBigEndian(b: seq<byte>): nat {
    if b == [] then 0 else FromBigEndian(b[..|b| - 1]) * 256 + b[|b| - 1] as nat
  }

  lemma {:induction false} ReadNumber(n: nat, k: nat)
    requires n < Power256(k)
    ensures FromBigEndian(BigEndian(n, k)) == n
  {
    if k > 0 {
      ReadNumber(n / 256, k - 1);
      var b := BigEndian(n, k);
      assert b[..|b| - 1] == BigEndian(n / 256, k - 1);
    }
  }

  lemma {:induction false} WriteNumber(b: seq<byte>)
    ensures FromBigEndian(b) < Power256(|b|) && BigEndian(FromBigEndian(b), |b|) == b
  {
    if b != [] {
      var n := |b| - 1;
      WriteNumber(b[..n]);
      assert b == b[..n] + [b[n]];
      var hi := FromBigEndian(b[..n]);
      assert (hi * 256 + b[n] as nat) / 256 == hi && (hi * 256 + b[n] as nat) % 256 == b[n] as nat;
    }
  }

  /** Big-endian: byte i of k is the quotient by that power of 256 that leaves the bytes after it, modulo 256. */
  lemma {:induction false} BigEndianAt(n: nat, k: nat, i: nat)
    requires i < k
    ensures BigEndian(n, k)[i] as nat == n / Power256(k - 1 - i) % 256
    decreases k
  {
    if i < k - 1 {
      BigEndianAt(n / 256, k - 1, i);
      DivDiv(n, 256, Power256(k - 2 - i));
    }
  }

  lemma Widths()
    ensures Power256(2) == 0x1_0000 && Power256(4) == 0x1_0000_0000 && Power256(8) == U64_MAX + 1
  {
    assert Power256(0) == 1;
    assert Power256(1) == 256;
    assert Power256(2) == 0x1_0000;
    assert Power256(3) == 0x100_0000;
    assert Power256(4) == 0x1_0000_0000;
    assert Power256(5) == 0x100_0000_0000;
    assert Power256(6) == 0x1_0000_0000_0000;
    assert Power256(7) == 0x100_0000_0000_0000;
  }

  // ---------------------------------------------------------------- requests

  /** A request; `payload` is what follows the header. */
  datatype Request = Request(flags: nat, command: nat, handle: seq<byte>, offset: nat, length: nat,
                             payload: seq<byte>) {
    predicate Valid() {
      && flags < 0x1_0000 && command < 0x1_0000
      && |handle| == 8
      && offset <= U64_MAX && length < 0x1_0000_0000
      && |payload| == if command == CMD_WRITE then length else 0
    }

    /** The 28 bytes of the header. */
    function Header(): seq<byte> {
      BigEndian(REQUEST_MAGIC, 4) + BigEndian(flags * 0x1_0000 + command, 4) + handle + BigEndian(offset, 8)
          + BigEndian(length, 4)
    }

    function Bytes(): seq<byte> { Header() + payload }
  }

  datatype Parsed = EndOfStream | BadMagic | ShortPayload | Got(request: Request, rest: seq<byte>)

  /** The request that a header announces; the low half of the type field is the command. */
  function HeaderOf(h: seq<byte>, payload: seq<byte>): Request
    requires |h| == 28
  {
    var typeFlags := FromBigEndian(h[4..8]);
    Request(typeFlags / 0x1_0000, typeFlags % 0x1_0000, h[8..16], FromBigEndian(h[16..24]), FromBigEndian(h[24..28]),
            payload)
  }

  /** What one pass of the request loop takes from the stream: 28 bytes, and the payload for a WRITE only. */
  function Parse(input: seq<byte>): (p: Parsed)
    ensures p.Got? ==> |p.rest| < |input|
  {
    if |input| < 28 then EndOfStream
    else if FromBigEndian(input[..4]) != REQUEST_MAGIC then BadMagic
    else
      var r := HeaderOf(input[..28], []);
      if r.command != CMD_WRITE then Got(r, input[28..])
      else if |input| < 28 + r.length then ShortPayload
      else Got(r.(payload := input[28..28 + r.length]), input[28 + r.length..])
  }

  lemma HeaderParts(r: Request, tail: seq<byte>)
    requires |r.handle| == 8
    ensures |r.Header()| == 28
    ensures var b := r.Header() + tail;
            && b[..4] == BigEndian(REQUEST_MAGIC, 4)
            && b[..28] == r.Header()
            && b[..28][4..8] == BigEndian(r.flags * 0x1_0000 + r.command, 4)
            && b[..28][8..16] == r.handle
            && b[..28][16..24] == BigEndian(r.offset, 8)
            && b[..28][24..28] == BigEndian(r.length, 4)
            && b[28..] == tail
  {
    var h := r.Header();
    var b := h + tail;
    assert b[..28] == h;
    assert h[4..8] == BigEndian(r.flags * 0x1_0000 + r.command, 4);
  }

  lemma HeaderReads(r: Request)
    requires r.Valid()
    ensures |r.Header()| == 28 && HeaderOf(r.Header(), r.payload) == r
    ensures FromBigEndian(r.Header()[..4]) == REQUEST_MAGIC
  {
    hide BigEndian, FromBigEndian;
    Widths();
    HeaderParts(r, []);
    assert r.Header() + [] == r.Header() && r.Header()[..28] == r.Header();
    ReadNumber(REQUEST_MAGIC, 4);
    ReadNumber(r.flags * 0x1_0000 + r.command, 4);
    ReadNumber(r.offset, 8);
    ReadNumber(r.length, 4);
    assert (r.flags * 0x1_0000 + r.command) / 0x1_0000 == r.flags
        && (r.flags * 0x1_0000 + r.command) % 0x1_0000 == r.command;
  }

  /** A request is read back from the front of any stream that starts with it. */
  lemma ParseBytes(r: Request, rest: seq<byte>)
    requires r.Valid()
    ensures Parse(r.Bytes() + rest) == Got(r, rest)
  {
    hide FromBigEndian, BigEndian, HeaderOf;
    var input := r.Bytes() + rest;
    HeaderReads(r);
    assert input[..28] == r.Header() && input[..4] == r.Header()[..4];
    assert input[28..] == r.payload + rest;
    HeaderPayload(r.Header(), r.payload);
    if r.command == CMD_WRITE {
      assert input[28..28 + r.length] == r.payload && input[28 + r.length..] == rest;
    } else {
      assert input[28..] == rest;
    }
  }

  lemma HeaderPayload(h: seq<byte>, payload: seq<byte>)
    requires |h| == 28
    ensures HeaderOf(h, []).(payload := payload) == HeaderOf(h, payload)
  {
  }

  /** How a request lies on the wire: after the magic, flags, command, handle, offset and length, and the payload. */
  lemma RequestLayout(r: Request, i: nat)
    requires r.Valid()
    ensures var b := r.Bytes();
            && |b| == 28 + |r.payload| && b[..4] == [0x25, 0x60, 0x95, 0x13]
            && (i < 2 ==> b[4 + i] as nat == r.flags / Power256(1 - i) % 256)
            && (i < 2 ==> b[6 + i] as nat == r.command / Power256(1 - i) % 256)
            && b[8..16] == r.handle
            && (i < 8 ==> b[16 + i] as nat == r.offset / Power256(7 - i) % 256)
            && (i < 4 ==> b[24 + i] as nat == r.length / Power256(3 - i) % 256)
            && b[28..] == r.payload
  {
    hide BigEndian, FromBigEndian, Power256;
    HeaderParts(r, r.payload);
    MagicBytes();
    if i < 2 {
      TypeBytes(r.flags, r.command, i);
    }
    if i < 8 {
      BigEndianAt(r.offset, 8, i);
    }
    if i < 4 {
      BigEndianAt(r.length, 4, i);
    }
    var b := r.Bytes();
    assert forall j :: 0 <= j < 28 ==> b[..28][j] == b[j];
    assert b[..28][8..16] == b[8..16];
    assert forall j :: 0 <= j < 4 ==> b[..28][4..8][j] == b[4 + j] && b[..28][24..28][j] == b[24 + j];
    assert forall j :: 0 <= j < 8 ==> b[..28][16..24][j] == b[16 + j];
  }

  lemma MagicBytes()
    ensures BigEndian(REQUEST_MAGIC, 4) == [0x25, 0x60, 0x95, 0x13]
    ensures BigEndian(REPLY_MAGIC, 4) == [0x67, 0x44, 0x66, 0x98]
  {
    assert BigEndian(0x25, 1) == [0x25];
    assert BigEndian(0x2560, 2) == [0x25, 0x60];
    assert BigEndian(0x25_6095, 3) == [0x25, 0x60, 0x95];
    assert BigEndian(0x67, 1) == [0x67];
    assert BigEndian(0x6744, 2) == [0x67, 0x44];
    assert BigEndian(0x67_4466, 3) == [0x67, 0x44, 0x66];
  }

  lemma TypeBytes(flags: nat, command: nat, i: nat)
    requires flags < 0x1_0000 && command < 0x1_0000 && i < 2
    ensures BigEndian(flags * 0x1_0000 + command, 4)[i] as nat == flags / Power256(1 - i) % 256
    ensures BigEndian(flags * 0x1_0000 + command, 4)[2 + i] as nat == command / Power256(1 - i) % 256
  {
    hide BigEndian, Power256;
    SmallPowers();
    BigEndianAt(flags * 0x1_0000 + command, 4, i);
    BigEndianAt(flags * 0x1_0000 + command, 4, 2 + i);
    UpperHalf(flags, command);
    LowerHalf(flags, command);
  }

  lemma SmallPowers()
    ensures Power256(0) == 1 && Power256(1) == 256 && Power256(2) == 0x1_0000 && Power256(3) == 0x100_0000
  {
  }

  lemma UpperHalf(flags: nat, command: nat)
    requires command < 0x1_0000
    ensures var n := flags * 0x1_0000 + command; n / 0x1_0000 == flags && n / 0x100_0000 == flags / 256
  {
    var n := flags * 0x1_0000 + command;
    QuotientUnique(flags, command, 0x1_0000);
    DivDiv(n, 0x1_0000, 256);
  }

  lemma LowerHalf(flags: nat, command: nat)
    ensures var n := flags * 0x1_0000 + command; n / 256 % 256 == command / 256 % 256 && n % 256 == command % 256
  {
    QuotientUnique(flags * 256 + command / 256, command % 256, 256);
    DivModFacts(command, 256);
    QuotientUnique(flags + command / 256 / 256, command / 256 % 256, 256);
    DivModFacts(command / 256, 256);
  }

  /**
   * What one pass takes from the stream, exactly, told on its bytes: nothing if there are fewer than 28, a
   * payload only for command 1.
   */
  lemma ParsesExactly(input: seq<byte>)
    ensures Parse(input).EndOfStream? <==> |input| < 28
    ensures Parse(input).BadMagic? <==> |input| >= 28 && input[..4] != [0x25, 0x60, 0x95, 0x13]
    ensures Parse(input).ShortPayload? <==>
              && |input| >= 28 && input[..4] == [0x25, 0x60, 0x95, 0x13]
              && input[6..8] == [0, 1] && |input| < 28 + FromBigEndian(input[24..28])
    ensures Parse(input).Got? ==>
              Parse(input).rest == input[28 + if input[6..8] == [0, 1] then FromBigEndian(input[24..28]) else 0..]
  {
    hide FromBigEndian, BigEndian;
    if |input| >= 28 {
      MagicBytes();
      Widths();
      WriteNumber(input[..4]);
      ReadNumber(REQUEST_MAGIC, 4);
      assert input[..28][4..8] == input[4..8] && input[..28][24..28] == input[24..28];
      CommandIsOne(input[4..8]);
      assert input[4..8][2..] == input[6..8];
    }
  }

  lemma CommandIsOne(b: seq<byte>)
    requires |b| == 4
    ensures FromBigEndian(b) % 0x1_0000 == CMD_WRITE <==> b[2..] == [0, 1]
  {
    hide FromBigEndian;
    FromFour(b);
    var hi := b[0] as nat * 256 + b[1] as nat;
    assert FromBigEndian(b) == hi * 0x1_0000 + (b[2] as nat * 256 + b[3] as nat);
    assert b[2..] == [b[2], b[3]];
  }

  lemma FromFour(b: seq<byte>)
    requires |b| == 4
    ensures FromBigEndian(b) == ((b[0] as nat * 256 + b[1] as nat) * 256 + b[2] as nat) * 256 + b[3] as nat
  {
    assert b[..3][..2] == b[..2] && b[..2][..1] == b[..1] && b[..1][..0] == [];
    assert FromBigEndian(b[..1]) == b[0] as nat;
    assert FromBigEndian(b[..2]) == b[0] as nat * 256 + b[1] as nat;
    assert FromBigEndian(b[..3]) == (b[0] as nat * 256 + b[1] as nat) * 256 + b[2] as nat;
  }

  /** Conversely, a request that was read is exactly the bytes taken from the stream. */
  lemma ParsedIs(input: seq<byte>)
    requires Parse(input).Got?
    ensures var p := Parse(input); p.request.Valid() && input == p.request.Bytes() + p.rest
  {
    hide FromBigEndian, BigEndian;
    var p, h := Parse(input), input[..28];
    var typeFlags := FromBigEndian(h[4..8]);
    Widths();
    WriteNumber(h[..4]);
    WriteNumber(h[4..8]);
    WriteNumber(h[16..24]);
    WriteNumber(h[24..28]);
    assert input[..4] == h[..4];
    assert typeFlags / 0x1_0000 * 0x1_0000 + typeFlags % 0x1_0000 == typeFlags && typeFlags / 0x1_0000 < 0x1_0000;
    assert h == h[..4] + h[4..8] + h[8..16] + h[16..24] + h[24..28];
    assert p.request.Header() == h;
    assert input == h + input[28..];
  }

  /** The concatenation of the requests. */
  function Stream(rs: seq<Request>): seq<byte> {
    if rs == [] then [] else rs[0].Bytes() + Stream(rs[1..])
  }

  // ---------------------------------------------------------------- simple replies

  datatype Reply = Reply(error: nat, handle: seq<byte>, data: seq<byte>) {
    predicate Fits() { |handle| == 8 && error < 0x1_0000_0000 }

    function Bytes(): seq<byte> { BigEndian(REPLY_MAGIC, 4) + BigEndian(error, 4) + handle + data }
  }

  /** How a reply lies on the wire: after the magic, error, handle and data. */
  lemma ReplyLayout(p: Reply, i: nat)
    requires p.Fits()
    ensures var b := p.Bytes();
            && |b| == 16 + |p.data| && b[..4] == [0x67, 0x44, 0x66, 0x98]
            && (i < 4 ==> b[4 + i] as nat == p.error / Power256(3 - i) % 256)
            && b[8..16] == p.handle && b[16..] == p.data
  {
    hide BigEndian, Power256;
    MagicBytes();
    var b := p.Bytes();
    assert b[..4] == BigEndian(REPLY_MAGIC, 4) && b[8..16] == p.handle && b[16..] == p.data;
    if i < 4 {
      BigEndianAt(p.error, 4, i);
      assert b[4..8] == BigEndian(p.error, 4);
      assert b[4..8][i] == b[4 + i];
    }
  }

  function ReplyStream(ps: seq<Reply>): seq<byte> {
    if ps == [] then [] else ps[0].Bytes() + ReplyStream(ps[1..])
  }

  /** How a client reads one reply; n bytes of data follow it unless it reports an error. */
  function ParseReply(input: seq<byte>, n: nat): Option<(Reply, seq<byte>)> {
    if |input| < 16 || FromBigEndian(input[..4]) != REPLY_MAGIC then None
    else
      var error := FromBigEndian(input[4..8]);
      var m := if error == 0 then n else 0;
      if |input| < 16 + m then None else Some((Reply(error, input[8..16], input[16..16 + m]), input[16 + m..]))
  }

  lemma ParseReplyBytes(p: Reply, n: nat, rest: seq<byte>)
    requires p.Fits() && |p.data| == if p.error == 0 then n else 0
    ensures ParseReply(p.Bytes() + rest, n) == Some((p, rest))
  {
    hide FromBigEndian, BigEndian;
    Widths();
    ReadNumber(REPLY_MAGIC, 4);
    ReadNumber(p.error, 4);
    var input := p.Bytes() + rest;
    assert input[..4] == BigEndian(REPLY_MAGIC, 4);
    assert input[4..8] == BigEndian(p.error, 4);
    assert input[8..16] == p.handle;
    assert input[16..16 + |p.data|] == p.data && input[16 + |p.data|..] == rest;
  }
}
