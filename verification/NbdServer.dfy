/** `serve_requests`: the loop that reads a socket, drives the engine and writes the replies. */
module NbdServer {
  import opened Wrappers
  import opened WalFile
  import opened Store
  import opened Operations
  import opened Safety
  import opened Headroom
  import opened Loops
  import opened CacheLimit
  import opened Success
  import opened Records
  import opened Engine
  import opened Framing
  import opened Nbd

  /** The server's end of the socket: what the client has still to be read, and what was sent to it. */
  class Socket {
    var input: seq<byte>
    var output: seq<byte>
    /** How often there will be something to read before a hang-up or the end of the device is seen. */
    var turns: nat

    constructor (input: seq<byte>, turns: nat)
      ensures this.input == input && output == [] && this.turns == turns
    {
      this.input, output, this.turns := input, [], turns;
    }

    /** `wait_for_request`. */
    method WaitForRequest() returns (ready: bool)
      modifies this`turns
      ensures ready <==> old(turns) > 0
      ensures turns == if ready then old(turns) - 1 else 0
    {
      ready := turns > 0;
      if ready {
        turns := turns - 1;
      }
    }

    /** `read_exact`: nothing when the stream ends too early. */
    method ReadExact(n: nat) returns (bytes: Option<seq<byte>>)
      modifies this`input
      ensures |old(input)| < n ==> bytes == None && input == []
      ensures |old(input)| >= n ==> bytes == Some(old(input)[..n]) && input == old(input)[n..]
    {
      if |input| < n {
        input := [];
        return None;
      }
      bytes := Some(input[..n]);
      input := input[n..];
    }

    method WriteAll(bytes: seq<byte>)
      modifies this`output
      ensures output == old(output) + bytes
    {
      output := output + bytes;
    }

    /** `write_reply`. */
    method WriteReply(error: nat, handle: seq<byte>)
      requires error < 0x1_0000_0000
      modifies this`output
      ensures output == old(output) + Reply(error, handle, []).Bytes()
    {
      WriteAll(BigEndian(REPLY_MAGIC, 4));
      WriteAll(BigEndian(error, 4));
      WriteAll(handle);
      var was := old(output);
      assert Reply(error, handle, []).Bytes() == BigEndian(REPLY_MAGIC, 4) + BigEndian(error, 4) + handle;
      assert output == was + (BigEndian(REPLY_MAGIC, 4) + BigEndian(error, 4) + handle);
    }
  }

  /**
   * Takes one request from the stream: 28 bytes, and the payload of a WRITE. None at the end of the
   * stream.
   */
  method ReadRequest(socket: Socket) returns (r: Result<Option<Request>>)
    modifies socket`input
    ensures match Parse(old(socket.input))
            case EndOfStream => r == Ok(None)
            case BadMagic => r == Err(Corrupt)
            case ShortPayload => r == Err(Io)
            case Got(request, rest) => r == Ok(Some(request)) && socket.input == rest
  {
    hide FromBigEndian;
    ghost var input := socket.input;
    var header := socket.ReadExact(28);
    if header.None? {
      return Ok(None);
    }
    var h := header.value;
    assert h[..4] == input[..4];
    var magic := FromBigEndian(h[0..4]);
    if magic != REQUEST_MAGIC {
      return Err(Corrupt);
    }
    var typeFlags := FromBigEndian(h[4..8]);
    var command := typeFlags % 0x1_0000;
    var handle := h[8..16];
    var offset := FromBigEndian(h[16..24]);
    var length := FromBigEndian(h[24..28]);
    if command != CMD_WRITE {
      return Ok(Some(Request(typeFlags / 0x1_0000, command, handle, offset, length, [])));
    }
    var data := socket.ReadExact(length);
    if data.None? {
      return Err(Io);
    }
    assert input[28..][..length] == input[28..28 + length] && input[28..][length..] == input[28 + length..];
    return Ok(Some(Request(typeFlags / 0x1_0000, command, handle, offset, length, data.value)));
  }

  lemma DataAfterReply(handle: seq<byte>, data: seq<byte>)
    ensures Reply(0, handle, []).Bytes() + data == Reply(0, handle, data).Bytes()
  {
  }

  /** Does what one request asks and replies to it. */
  method HandleRequest(socket: Socket, engine: CacheEngine, request: Request)
    requires engine.Valid() && request.Valid() && request.command != CMD_DISC
    requires HasHeadroom(engine.Now(), |DataOf(request)|)
    modifies socket`output, engine`files, engine`clock, engine`trace, engine.db, engine.journal
    ensures old(engine.journal.Sound()) ==> engine.journal.Sound() && engine.Found() == engine.Now()
    ensures Extends(old(engine.journal.text), old(engine.journal.events), engine.journal.text, engine.journal.events)
    ensures var a := Answer(engine.cfg, old(engine.Now()), request);
            && engine.Performed(old(engine.Now()), old(engine.trace), a.trace)
            && socket.output == old(socket.output) + a.reply.Bytes()
            && Answers(request, a.reply)
  {
    hide Run, Read, Write, GoodDigest, ReadText, LastLine, Extends, HasHeadroom, Represents, CacheEngine.Performed,
         BigEndian, Answers, WriteAnswer, WroteFirst, WithinLimit;
    AnswerAnswers(engine.cfg, engine.Now(), request);
    ExtendsSelf(engine.journal.text, engine.journal.events);
    engine.StillFound();
    match request.command {
      case 0 =>
        var got := engine.ReadAt(request.offset, request.length);
        engine.StillFound();
        if got.Ok? {
          socket.WriteReply(0, request.handle);
          socket.WriteAll(got.value);
          DataAfterReply(request.handle, got.value);
        } else {
          socket.WriteReply(EIO, request.handle);
        }
      case 1 =>
        var done := engine.WriteAt(request.offset, request.payload);
        socket.WriteReply(if done.Ok? then 0 else EIO, request.handle);
      case 3 =>
        engine.NothingPerformed();
        socket.WriteReply(0, request.handle);
      case 4 =>
        engine.NothingPerformed();
        socket.WriteReply(0, request.handle);
      case 6 =>
        var done := engine.WriteAt(request.offset, Zeroes(request.length));
        socket.WriteReply(if done.Ok? then 0 else EIO, request.handle);
      case _ =>
        engine.NothingPerformed();
        socket.WriteReply(EINVAL, request.handle);
    }
  }

  /** `serve_requests`. */
  method ServeRequests(socket: Socket, engine: CacheEngine) returns (r: Result<()>)
    requires engine.Valid() && HasHeadroom(engine.Now(), Budget(socket.input))
    modifies socket, engine`files, engine`clock, engine`trace, engine.db, engine.journal
    ensures old(engine.journal.Sound()) ==> engine.journal.Sound() && engine.Found() == engine.Now()
    ensures Extends(old(engine.journal.text), old(engine.journal.events), engine.journal.text, engine.journal.events)
    ensures var session := Serve(engine.cfg, old(engine.Now()), old(socket.input), old(socket.turns));
            && engine.Performed(old(engine.Now()), old(engine.trace), session.trace)
            && socket.output == old(socket.output) + session.output
            && r == session.result
  {
    hide Run, Answer, Serve, Parse, GoodDigest, ReadText, LastLine, Extends, HasHeadroom, CacheEngine.Performed,
         CacheEngine.Found, Budget, Prepend, DataOf, Answers;
    ghost var s0, t0, out0 := engine.Now(), engine.trace, socket.output;
    ghost var t: seq<Effect>, sent: seq<byte> := [], [];
    ghost var whole := Serve(engine.cfg, s0, socket.input, socket.turns);
    engine.NothingPerformed();
    engine.StillFound();
    ExtendsSelf(engine.journal.text, engine.journal.events);
    PrependNothing(whole);
    while true
      invariant HasHeadroom(engine.Now(), Budget(socket.input))
      invariant engine.Performed(s0, t0, t) && socket.output == out0 + sent
      invariant whole == Prepend(t, sent, Serve(engine.cfg, engine.Now(), socket.input, socket.turns))
      invariant old(engine.journal.Sound()) ==> engine.journal.Sound() && engine.Found() == engine.Now()
      invariant Extends(old(engine.journal.text), old(engine.journal.events), engine.journal.text,
                        engine.journal.events)
      decreases socket.turns
    {
      ghost var s1, t1, input := engine.Now(), engine.trace, socket.input;
      engine.SoFar(s0, t0, t);
      ServeNext(engine.cfg, s1, input, socket.turns, t, sent);
      var ready := socket.WaitForRequest();
      if !ready {
        return Ok(());
      }
      var next := ReadRequest(socket);
      if next.Err? {
        return Err(next.error);
      }
      if next.value.None? {
        return Ok(());
      }
      var request := next.value.value;
      if request.command == CMD_DISC {
        return Ok(());
      }
      BudgetNext(s1, input);
      AnswerHeadroom(engine.cfg, s1, request, Budget(socket.input));
      ghost var text1, events1 := engine.journal.text, engine.journal.events;
      HandleRequest(socket, engine, request);
      ExtendsTrans(old(engine.journal.text), old(engine.journal.events), text1, events1, engine.journal.text,
                   engine.journal.events);
      ghost var a := Answer(engine.cfg, s1, request);
      engine.Then(s0, t0, t, s1, t1, a.trace);
      assert (out0 + sent) + a.reply.Bytes() == out0 + (sent + a.reply.Bytes());
      t, sent := t + a.trace, sent + a.reply.Bytes();
    }
  }

  /** One pass of the loop. */
  lemma ServeNext(cfg: Config, s: State, input: seq<byte>, turns: nat, t: seq<Effect>, sent: seq<byte>)
    ensures turns == 0 ==> Prepend(t, sent, Serve(cfg, s, input, turns)) == Session(t, sent, Ok(()))
    ensures turns > 0 ==>
            var p, session := Parse(input), Prepend(t, sent, Serve(cfg, s, input, turns));
            && (p.EndOfStream? ==> session == Session(t, sent, Ok(())))
            && (p.BadMagic? ==> session == Session(t, sent, Err(Corrupt)))
            && (p.ShortPayload? ==> session == Session(t, sent, Err(Io)))
            && (p.Got? && p.request.command == CMD_DISC ==> session == Session(t, sent, Ok(())))
            && (p.Got? && p.request.command != CMD_DISC ==>
                  var a := Answer(cfg, s, p.request);
                  session == Prepend(t + a.trace, sent + a.reply.Bytes(),
                                     Serve(cfg, Run(s, a.trace), p.rest, turns - 1)))
  {
    hide Run, Answer, Parse, Serve;
    ServeUnfold(cfg, s, input, turns);
    assert t + [] == t && sent + [] == sent;
    var p := Parse(input);
    if turns > 0 && p.Got? && p.request.command != CMD_DISC {
      var a := Answer(cfg, s, p.request);
      PrependTwice(t, a.trace, sent, a.reply.Bytes(), Serve(cfg, Run(s, a.trace), p.rest, turns - 1));
    }
  }

  lemma BudgetNext(s: State, input: seq<byte>)
    requires HasHeadroom(s, Budget(input)) && Parse(input).Got? && Parse(input).request.command != CMD_DISC
    ensures Parse(input).request.Valid()
    ensures HasHeadroom(s, |DataOf(Parse(input).request)| + Budget(Parse(input).rest))
    ensures HasHeadroom(s, |DataOf(Parse(input).request)|)
  {
    hide HasHeadroom, Parse, DataOf;
    ParsedIs(input);
    LessHeadroom(s, |DataOf(Parse(input).request)| + Budget(Parse(input).rest), |DataOf(Parse(input).request)|);
  }
}
