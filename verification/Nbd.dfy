/** The NBD request loop: what the byte stream of a client makes the server do and answer. */
module Nbd {
  import opened Wrappers
  import opened Mapper
  import opened Store
  import opened Volume
  import opened Operations
  import opened Safety
  import opened Transparency
  import opened Writing
  import opened Headroom
  import opened Loops
  import opened Success
  import opened Framing

  // ---------------------------------------------------------------- one request

  datatype Answered = Answered(trace: seq<Effect>, reply: Reply)

  function ReplyTo(r: Request, ok: bool, data: seq<byte>): Reply {
    Reply(if ok then 0 else EIO, r.handle, data)
  }

  /** The bytes that a request asks to be written. */
  function DataOf(r: Request): seq<byte> {
    if r.command == CMD_WRITE then r.payload else if r.command == CMD_WRITE_ZEROES then Zeroes(r.length) else []
  }

  predicate IsWrite(r: Request) { r.command == CMD_WRITE || r.command == CMD_WRITE_ZEROES }

  /** Effects of, and reply to, any request but DISC. */
  ghost function Answer(cfg: Config, s: State, r: Request): Answered {
    if r.command == CMD_READ then
      var o := Read(cfg, s, r.offset, r.length);
      Answered(o.trace, ReplyTo(r, o.result.Ok?, if o.result.Ok? then o.result.value else []))
    else if IsWrite(r) then
      var o := Write(cfg, s, r.offset, DataOf(r));
      Answered(o.trace, ReplyTo(r, o.result.Ok?, []))
    else if r.command == CMD_FLUSH || r.command == CMD_TRIM then Answered([], ReplyTo(r, true, []))
    else Answered([], Reply(EINVAL, r.handle, []))
  }

  // ---------------------------------------------------------------- the loop

  /** Everything a connection does: durable effects, bytes sent, and how the loop ended. */
  datatype Session = Session(trace: seq<Effect>, output: seq<byte>, result: Result<()>)

  /**
   * The loop, from the bytes that the client sends before it closes its end. `turns` is how often
   * `wait_for_request` finds something to read before it reports a hang-up or the end of the device.
   */
  ghost function Serve(cfg: Config, s: State, input: seq<byte>, turns: nat): Session
    decreases turns
  {
    if turns == 0 then Session([], [], Ok(()))
    else
      match Parse(input)
      case EndOfStream => Session([], [], Ok(()))
      case BadMagic => Session([], [], Err(Corrupt))
      case ShortPayload => Session([], [], Err(Io))
      case Got(r, rest) =>
        if r.command == CMD_DISC then Session([], [], Ok(()))
        else
          var a := Answer(cfg, s, r);
          var more := Serve(cfg, Run(s, a.trace), rest, turns - 1);
          Session(a.trace + more.trace, a.reply.Bytes() + more.output, more.result)
  }

  /** The same on requests instead of bytes. */
  ghost function AnswerAll(cfg: Config, s: State, rs: seq<Request>): (trace: seq<Effect>)
    decreases rs
  {
    if rs == [] then []
    else
      var a := Answer(cfg, s, rs[0]);
      a.trace + AnswerAll(cfg, Run(s, a.trace), rs[1..])
  }

  ghost function Replies(cfg: Config, s: State, rs: seq<Request>): (replies: seq<Reply>)
    ensures |replies| == |rs|
    decreases rs
  {
    if rs == [] then []
    else
      var a := Answer(cfg, s, rs[0]);
      [a.reply] + Replies(cfg, Run(s, a.trace), rs[1..])
  }

  /** Requests that keep the connection open. */
  predicate Ordinary(rs: seq<Request>) {
    forall i :: 0 <= i < |rs| ==> rs[i].Valid() && rs[i].command != CMD_DISC
  }

  function Prepend(t: seq<Effect>, out: seq<byte>, more: Session): Session {
    Session(t + more.trace, out + more.output, more.result)
  }

  lemma ServeOne(cfg: Config, s: State, r: Request, rest: seq<byte>, turns: nat)
    requires r.Valid() && turns > 0
    ensures r.command == CMD_DISC ==> Serve(cfg, s, r.Bytes() + rest, turns) == Session([], [], Ok(()))
    ensures r.command != CMD_DISC ==>
              var a := Answer(cfg, s, r);
              Serve(cfg, s, r.Bytes() + rest, turns)
              == Prepend(a.trace, a.reply.Bytes(), Serve(cfg, Run(s, a.trace), rest, turns - 1))
  {
    hide Answer, Run;
    ParseBytes(r, rest);
  }

  /**
   * Framing. Whatever precedes it on the stream and however those requests end, each request is taken
   * from exactly its own bytes; there is one reply for each, in order; what follows is then served
   * as if it came first.
   */
  lemma {:induction false} StaysAligned(cfg: Config, s: State, rs: seq<Request>, rest: seq<byte>, turns: nat)
    requires Ordinary(rs) && |rs| <= turns
    ensures Serve(cfg, s, Stream(rs) + rest, turns)
         == Prepend(AnswerAll(cfg, s, rs), ReplyStream(Replies(cfg, s, rs)),
                    Serve(cfg, Run(s, AnswerAll(cfg, s, rs)), rest, turns - |rs|))
    decreases rs
  {
    hide Answer, Run, Serve;
    if rs == [] {
      RunNothing(s);
      assert Stream(rs) + rest == rest;
      PrependNothing(Serve(cfg, s, rest, turns));
    } else {
      var a := Answer(cfg, s, rs[0]);
      var s1 := Run(s, a.trace);
      assert Ordinary(rs[1..]);
      assert Stream(rs) + rest == rs[0].Bytes() + (Stream(rs[1..]) + rest);
      ServeOne(cfg, s, rs[0], Stream(rs[1..]) + rest, turns);
      StaysAligned(cfg, s1, rs[1..], rest, turns - 1);
      RunConcat(s, a.trace, AnswerAll(cfg, s1, rs[1..]));
      var all := Replies(cfg, s, rs);
      assert all[0] == a.reply && all[1..] == Replies(cfg, s1, rs[1..]);
      PrependTwice(a.trace, AnswerAll(cfg, s1, rs[1..]), a.reply.Bytes(), ReplyStream(Replies(cfg, s1, rs[1..])),
                   Serve(cfg, Run(s1, AnswerAll(cfg, s1, rs[1..])), rest, turns - |rs|));
    }
  }

  lemma StreamUnfold(rs: seq<Request>)
    ensures Stream([]) == []
    ensures rs != [] ==> Stream(rs) == rs[0].Bytes() + Stream(rs[1..])
  {
  }

  lemma {:induction false} StreamSplit(rs: seq<Request>, k: nat)
    requires k <= |rs|
    ensures Stream(rs) == Stream(rs[..k]) + Stream(rs[k..])
  {
    hide Stream;
    StreamUnfold(rs);
    if k == 0 {
      assert rs[0..] == rs && rs[..0] == [];
      assert [] + Stream(rs) == Stream(rs);
    } else {
      StreamSplit(rs[1..], k - 1);
      StreamUnfold(rs[..k]);
      assert rs[..k][1..] == rs[1..][..k - 1] && rs[1..][k - 1..] == rs[k..];
      assert rs[0].Bytes() + (Stream(rs[1..][..k - 1]) + Stream(rs[k..]))
          == (rs[0].Bytes() + Stream(rs[1..][..k - 1])) + Stream(rs[k..]);
    }
  }

  /**
   * A hang-up seen before all requests are read ends the loop well: exactly the requests read so far
   * were answered, whatever else the client had sent.
   */
  lemma HangUp(cfg: Config, s: State, rs: seq<Request>, rest: seq<byte>, turns: nat)
    requires Ordinary(rs) && turns <= |rs|
    ensures Serve(cfg, s, Stream(rs) + rest, turns)
         == Session(AnswerAll(cfg, s, rs[..turns]), ReplyStream(Replies(cfg, s, rs[..turns])), Ok(()))
  {
    hide Answer, Run, AnswerAll, Replies, Stream, ReplyStream;
    var a, b := rs[..turns], rs[turns..];
    StreamSplit(rs, turns);
    assert Stream(rs) + rest == Stream(a) + (Stream(b) + rest);
    StaysAligned(cfg, s, a, Stream(b) + rest, turns);
    PrependOutput(AnswerAll(cfg, s, a), ReplyStream(Replies(cfg, s, a)));
  }

  lemma PrependNothing(more: Session)
    ensures Prepend([], [], more) == more
  {
    assert [] + more.trace == more.trace && [] + more.output == more.output;
  }

  lemma PrependTwice(t: seq<Effect>, u: seq<Effect>, x: seq<byte>, y: seq<byte>, more: Session)
    ensures Prepend(t, x, Prepend(u, y, more)) == Prepend(t + u, x + y, more)
  {
    assert t + (u + more.trace) == (t + u) + more.trace;
    assert x + (y + more.output) == (x + y) + more.output;
  }

  // ---------------------------------------------------------------- replies

  /**
   * Each reply carries its request's handle. READ, WRITE and WRITE_ZEROES succeed or fail with EIO, which is 5;
   * FLUSH and TRIM succeed; a command that is none of these gets EINVAL, which is 22. Data comes with a
   * successful READ only, and in full.
   */
  predicate Answers(r: Request, p: Reply) {
    && p.handle == r.handle
    && (if r.command == 0 || r.command == 1 || r.command == 6 then p.error == 0 || p.error == 5
        else if r.command == 3 || r.command == 4 then p.error == 0
        else p.error == 22)
    && |p.data| == if r.command == 0 && p.error == 0 then r.length else 0
  }

  lemma {:induction false} ReadSpansLength(cfg: Config, s: State, spans: seq<Span>, start: nat, len: nat,
        requestOffset: nat)
    requires Covers(spans, start, len, cfg.geo, requestOffset)
    ensures var r := ReadSpans(cfg, s, spans).result; r.Ok? ==> |r.value| == len
    decreases spans
  {
    hide ReadOne, Run, ReadSpans;
    ReadUnfold(cfg, s, spans);
    if spans != [] {
      ReadOneLength(cfg, s, spans[0]);
      ReadSpansLength(cfg, Run(s, ReadOne(cfg, s, spans[0]).trace), spans[1..], start + spans[0].len,
                      len - spans[0].len, requestOffset + spans[0].len);
    }
  }

  lemma ReadOneLength(cfg: Config, s: State, sp: Span)
    ensures var r := ReadOne(cfg, s, sp).result; r.Ok? ==> |r.value| == sp.len
  {
    hide Ensure, Run;
  }

  lemma AnswerAnswers(cfg: Config, s: State, r: Request)
    requires cfg.Valid() && r.Valid()
    ensures Answers(r, Answer(cfg, s, r).reply) && Answer(cfg, s, r).reply.Fits()
  {
    hide ReadSpans, Covers, Write;
    if r.command == CMD_READ && Spans(r.offset, r.length, cfg.geo).Ok? {
      SpansCover(r.offset, r.length, cfg.geo);
      ReadSpansLength(cfg, s, Spans(r.offset, r.length, cfg.geo).value, r.offset, r.length, 0);
    }
  }

  /** What a client that has sent these requests reads back from the stream; None if it does not parse. */
  function Receive(rs: seq<Request>, input: seq<byte>): Option<seq<Reply>>
    decreases rs
  {
    if rs == [] then (if input == [] then Some([]) else None)
    else
      match ParseReply(input, if rs[0].command == CMD_READ then rs[0].length else 0)
      case None => None
      case Some((p, rest)) =>
        match Receive(rs[1..], rest)
        case None => None
        case Some(more) => Some([p] + more)
  }

  predicate AllAnswer(rs: seq<Request>, ps: seq<Reply>) {
    |ps| == |rs| && forall i :: 0 <= i < |rs| ==> Answers(rs[i], ps[i]) && ps[i].Fits()
  }

  lemma {:induction false} ReceiveReplies(rs: seq<Request>, ps: seq<Reply>)
    requires AllAnswer(rs, ps)
    ensures Receive(rs, ReplyStream(ps)) == Some(ps)
    decreases rs
  {
    if rs != [] {
      ParseReplyBytes(ps[0], if rs[0].command == CMD_READ then rs[0].length else 0, ReplyStream(ps[1..]));
      assert AllAnswer(rs[1..], ps[1..]);
      ReceiveReplies(rs[1..], ps[1..]);
      assert ps == [ps[0]] + ps[1..];
    }
  }

  lemma {:induction false} RepliesAnswer(cfg: Config, s: State, rs: seq<Request>)
    requires cfg.Valid() && Ordinary(rs)
    ensures AllAnswer(rs, Replies(cfg, s, rs))
    decreases rs
  {
    hide Answer, Run, Answers;
    if rs != [] {
      AnswerAnswers(cfg, s, rs[0]);
      assert Ordinary(rs[1..]);
      RepliesAnswer(cfg, Run(s, Answer(cfg, s, rs[0]).trace), rs[1..]);
      var ps := Replies(cfg, s, rs);
      assert ps[1..] == Replies(cfg, Run(s, Answer(cfg, s, rs[0]).trace), rs[1..]);
      forall i | 0 <= i < |rs|
        ensures Answers(rs[i], ps[i]) && ps[i].Fits()
      {
        if i > 0 {
          assert rs[i] == rs[1..][i - 1] && ps[i] == ps[1..][i - 1];
        }
      }
    }
  }

  lemma PrependOutput(t: seq<Effect>, out: seq<byte>)
    ensures Prepend(t, out, Session([], [], Ok(()))) == Session(t, out, Ok(()))
  {
    assert t + [] == t && out + [] == out;
  }

  /**
   * A whole connection: any ordinary requests, then DISC. The server ends well, has answered each
   * request before DISC once, in order, under its own handle, has not answered DISC, and the client
   * can tell the replies apart from the requests it sent. Nothing after DISC matters.
   */
  lemma Connection(cfg: Config, s: State, rs: seq<Request>, disc: Request, after: seq<byte>, turns: nat)
    requires cfg.Valid() && Ordinary(rs) && disc.Valid() && disc.command == CMD_DISC && |rs| < turns
    ensures var session := Serve(cfg, s, Stream(rs) + (disc.Bytes() + after), turns);
            && session.result == Ok(())
            && session.trace == AnswerAll(cfg, s, rs)
            && Receive(rs, session.output) == Some(Replies(cfg, s, rs))
            && AllAnswer(rs, Replies(cfg, s, rs))
  {
    hide Answer, Run, Serve, AnswerAll, Replies, Receive, Stream, ReplyStream, AllAnswer;
    StaysAligned(cfg, s, rs, disc.Bytes() + after, turns);
    ServeOne(cfg, Run(s, AnswerAll(cfg, s, rs)), disc, after, turns - |rs|);
    PrependOutput(AnswerAll(cfg, s, rs), ReplyStream(Replies(cfg, s, rs)));
    RepliesAnswer(cfg, s, rs);
    ReceiveReplies(rs, Replies(cfg, s, rs));
  }

  lemma ServeUnfold(cfg: Config, s: State, input: seq<byte>, turns: nat)
    ensures Serve(cfg, s, input, 0) == Session([], [], Ok(()))
    ensures turns > 0 ==>
            var p, session := Parse(input), Serve(cfg, s, input, turns);
            && (p.EndOfStream? ==> session == Session([], [], Ok(())))
            && (p.BadMagic? ==> session == Session([], [], Err(Corrupt)))
            && (p.ShortPayload? ==> session == Session([], [], Err(Io)))
            && (p.Got? && p.request.command == CMD_DISC ==> session == Session([], [], Ok(())))
            && (p.Got? && p.request.command != CMD_DISC ==>
                  var a := Answer(cfg, s, p.request);
                  session == Prepend(a.trace, a.reply.Bytes(), Serve(cfg, Run(s, a.trace), p.rest, turns - 1)))
  {
    hide Run, Answer, Parse;
  }

  /**
   * How a connection ends: the loop stops at the hang-up, or else exactly at the first bytes that are
   * no ordinary request, and how it stops is told by those.
   */
  lemma {:induction false} EveryStream(cfg: Config, s: State, input: seq<byte>, turns: nat)
    returns (rs: seq<Request>, rest: seq<byte>)
    ensures Ordinary(rs) && input == Stream(rs) + rest && |rs| <= turns
    ensures |rs| < turns && Parse(rest).Got? ==> Parse(rest).request.command == CMD_DISC
    ensures Serve(cfg, s, input, turns).trace == AnswerAll(cfg, s, rs)
    ensures Serve(cfg, s, input, turns).output == ReplyStream(Replies(cfg, s, rs))
    ensures Serve(cfg, s, input, turns).result
         == if |rs| == turns then Ok(())
            else if Parse(rest).BadMagic? then Err(Corrupt) else if Parse(rest).ShortPayload? then Err(Io) else Ok(())
    decreases turns
  {
    hide Answer, Run, Serve, Parse;
    ServeUnfold(cfg, s, input, turns);
    var p := Parse(input);
    if turns > 0 && p.Got? && p.request.command != CMD_DISC {
      ParsedIs(input);
      var a := Answer(cfg, s, p.request);
      var rs', rest' := EveryStream(cfg, Run(s, a.trace), p.rest, turns - 1);
      rs, rest := [p.request] + rs', rest';
      assert rs[1..] == rs';
      assert input == p.request.Bytes() + (Stream(rs') + rest);
      assert Stream(rs) + rest == p.request.Bytes() + (Stream(rs') + rest);
      var ps := Replies(cfg, s, rs);
      assert ps[0] == a.reply && ps[1..] == Replies(cfg, Run(s, a.trace), rs');
    } else {
      rs, rest := [], input;
      assert Stream(rs) + rest == rest;
    }
  }

  // ---------------------------------------------------------------- the device

  /** A write request is guarded as `write_at` is. */
  ghost predicate RequestGuard(cfg: Config, s: State, v: Cells, r: Request) {
    IsWrite(r) ==> WriteGuard(cfg, s, r.offset, DataOf(r), v)
  }

  ghost predicate GuardedRequests(cfg: Config, s: State, v: Cells, rs: seq<Request>)
    decreases rs
  {
    rs != [] ==>
      && RequestGuard(cfg, s, v, rs[0])
      && GuardedRequests(cfg, Run(s, Answer(cfg, s, rs[0]).trace), AfterRequest(cfg, s, v, rs[0]), rs[1..])
  }

  /**
   * One request on a flat block device whose cells go from v to w. A READ that succeeds returns what
   * the device holds; a WRITE or WRITE_ZEROES that succeeds replaces its range, one that fails some
   * prefix of it; they fail with EIO, as they must outside the device. Nothing else changes the device: FLUSH
   * and TRIM succeed, and a command that is none of these gets EINVAL.
   */
  ghost predicate DeviceStep(v: Cells, r: Request, p: Reply, w: Cells) {
    if r.command == CMD_READ then
      && w == v
      && (p.error == 0 || p.error == EIO)
      && (p.error == 0 ==> r.offset + r.length <= |v| && Agrees(p.data, v[r.offset..r.offset + r.length]))
    else if r.command == CMD_WRITE then DeviceWrite(v, r.offset, r.payload, p.error, w)
    else if r.command == CMD_WRITE_ZEROES then DeviceWrite(v, r.offset, Zeroes(r.length), p.error, w)
    else w == v && p.error == if r.command == CMD_FLUSH || r.command == CMD_TRIM then 0 else EINVAL
  }

  ghost predicate DeviceWrite(v: Cells, offset: nat, data: seq<byte>, error: nat, w: Cells) {
    && (error == 0 || error == EIO)
    && (error == 0 ==> offset + |data| <= |v| && w == Put(v, offset, data))
    && (error != 0 ==> w == v || exists n :: WrotePrefix(v, offset, data, n, w))
  }

  ghost predicate WrotePrefix(v: Cells, offset: nat, data: seq<byte>, n: nat, w: Cells) {
    n < |data| && offset + n <= |v| && w == Put(v, offset, data[..n])
  }

  ghost function AfterRequest(cfg: Config, s: State, v: Cells, r: Request): Cells {
    if IsWrite(r) then Reached(v, r.offset, DataOf(r), Progress(Acknowledged(cfg, s, r.offset, DataOf(r)), 0)) else v
  }

  ghost function AfterRequests(cfg: Config, s: State, v: Cells, rs: seq<Request>): Cells
    decreases rs
  {
    if rs == [] then v
    else AfterRequests(cfg, Run(s, Answer(cfg, s, rs[0]).trace), AfterRequest(cfg, s, v, rs[0]), rs[1..])
  }

  lemma WriteStep(cfg: Config, s: State, v: Cells, r: Request)
    requires Represents(cfg, s, v) && r.Valid() && IsWrite(r) && RequestGuard(cfg, s, v, r)
    ensures Represents(cfg, Run(s, Answer(cfg, s, r).trace), AfterRequest(cfg, s, v, r))
    ensures DeviceStep(v, r, Answer(cfg, s, r).reply, AfterRequest(cfg, s, v, r))
  {
    hide Represents, Write, Run, WriteGuard, Acknowledged, Put, Advanced;
    var data := DataOf(r);
    WriteCorrect(cfg, s, r.offset, data, v);
    var n := Acknowledged(cfg, s, r.offset, data);
    PutReached(v, r.offset, data, n);
    assert data[..|data|] == data;
    if Write(cfg, s, r.offset, data).result.Err? && n > 0 {
      RepresentsSize(cfg, s, v);
      SplitSucceeded(cfg, s, r.offset, data);
      assert WrotePrefix(v, r.offset, data, n, AfterRequest(cfg, s, v, r));
    }
  }

  lemma SplitSucceeded(cfg: Config, s: State, offset: nat, data: seq<byte>)
    ensures Acknowledged(cfg, s, offset, data) > 0 ==> offset + |data| <= cfg.geo.volume
  {
  }

  lemma PutReached(v: Cells, offset: nat, data: seq<byte>, n: nat)
    requires n <= |data| && (n > 0 ==> offset + n <= |v|)
    ensures n == 0 ==> Reached(v, offset, data, Progress(n, 0)) == v
    ensures n == 0 && offset <= |v| ==> Put(v, offset, data[..n]) == v
    ensures n > 0 ==> Reached(v, offset, data, Progress(n, 0)) == Put(v, offset, data[..n])
  {
    assert data[0..n] == data[..n];
    if n > 0 {
      AdvanceNothing(Put(v, offset, data[..n]), offset + n, data, 0, 0);
    } else if offset <= |v| {
      assert Known(data[..n]) == [];
      PatchNothing(v, offset);
    }
  }

  lemma ReadStep(cfg: Config, s: State, v: Cells, r: Request)
    requires Represents(cfg, s, v) && r.command == CMD_READ
    ensures Represents(cfg, Run(s, Answer(cfg, s, r).trace), v)
    ensures DeviceStep(v, r, Answer(cfg, s, r).reply, v)
  {
    hide Represents, Read, Run, Agrees;
    ReadCorrect(cfg, s, r.offset, r.length, v);
  }

  lemma RequestStep(cfg: Config, s: State, v: Cells, r: Request)
    requires Represents(cfg, s, v) && r.Valid() && RequestGuard(cfg, s, v, r)
    ensures Represents(cfg, Run(s, Answer(cfg, s, r).trace), AfterRequest(cfg, s, v, r))
    ensures DeviceStep(v, r, Answer(cfg, s, r).reply, AfterRequest(cfg, s, v, r))
  {
    hide Represents, Write, Read, Run, RequestGuard;
    if IsWrite(r) {
      WriteStep(cfg, s, v, r);
    } else if r.command == CMD_READ {
      ReadStep(cfg, s, v, r);
    } else {
      RunNothing(s);
    }
  }

  /**
   * A flat block device whose cells are v at first and w at last can have answered the requests rs
   * with the replies ps.
   */
  ghost predicate DeviceRun(v: Cells, rs: seq<Request>, ps: seq<Reply>, w: Cells)
    decreases rs
  {
    if rs == [] || ps == [] then rs == [] && ps == [] && w == v
    else exists u :: DeviceStep(v, rs[0], ps[0], u) && DeviceRun(u, rs[1..], ps[1..], w)
  }

  /** Refinement at the device boundary: guarded requests are answered as by a flat block device. */
  lemma {:induction false} DeviceRefinesArray(cfg: Config, s: State, v: Cells, rs: seq<Request>)
    requires Represents(cfg, s, v) && Ordinary(rs) && GuardedRequests(cfg, s, v, rs)
    ensures Represents(cfg, Run(s, AnswerAll(cfg, s, rs)), AfterRequests(cfg, s, v, rs))
    ensures DeviceRun(v, rs, Replies(cfg, s, rs), AfterRequests(cfg, s, v, rs))
    decreases rs
  {
    hide Represents, Answer, Run, RequestGuard, AfterRequest, DeviceStep;
    if rs == [] {
      RunNothing(s);
    } else {
      var s1 := Run(s, Answer(cfg, s, rs[0]).trace);
      assert rs[0].Valid() && Ordinary(rs[1..]);
      RequestStep(cfg, s, v, rs[0]);
      DeviceRefinesArray(cfg, s1, AfterRequest(cfg, s, v, rs[0]), rs[1..]);
      RunConcat(s, Answer(cfg, s, rs[0]).trace, AnswerAll(cfg, s1, rs[1..]));
      var ps := Replies(cfg, s, rs);
      assert ps[0] == Answer(cfg, s, rs[0]).reply && ps[1..] == Replies(cfg, s1, rs[1..]);
    }
  }

  /** From bytes to bytes: what the client of a connection reads back is what a flat block device answers. */
  lemma ConnectionIsDevice(cfg: Config, s: State, v: Cells, rs: seq<Request>, disc: Request, after: seq<byte>,
                           turns: nat)
    requires Represents(cfg, s, v) && Ordinary(rs) && GuardedRequests(cfg, s, v, rs)
    requires disc.Valid() && disc.command == CMD_DISC && |rs| < turns
    ensures var session, w := Serve(cfg, s, Stream(rs) + (disc.Bytes() + after), turns), AfterRequests(cfg, s, v, rs);
            && Represents(cfg, Run(s, session.trace), w)
            && Receive(rs, session.output).Some?
            && DeviceRun(v, rs, Receive(rs, session.output).value, w)
  {
    hide *;
    RepresentsSize(cfg, s, v);
    Connection(cfg, s, rs, disc, after, turns);
    DeviceRefinesArray(cfg, s, v, rs);
  }

  // ---------------------------------------------------------------- writes that succeed

  /** A write inside the device whose spans are all sure to be writable. */
  ghost predicate SureRequest(cfg: Config, s: State, r: Request) {
    r.offset + r.length <= cfg.geo.volume && SurelySucceeds(cfg, s, r.offset, r.length)
  }

  /** A WRITE or WRITE_ZEROES is answered 0 if and only if `write_at` succeeds, as it does if it is sure to. */
  lemma SureWriteAnswered(cfg: Config, s: State, r: Request)
    requires cfg.Valid() && r.Valid() && IsWrite(r)
    ensures exists result :: WriteAnswer(cfg, s, r.offset, DataOf(r), result)
                && Answer(cfg, s, r).reply == Reply(if result.Ok? then 0 else 5, r.handle, [])
    ensures SureRequest(cfg, s, r) ==> Answer(cfg, s, r).reply == Reply(0, r.handle, [])
  {
    hide WriteAnswer, Write, SurelySucceeds;
    WriteSucceedsExactly(cfg, s, r.offset, DataOf(r));
    if SureRequest(cfg, s, r) {
      WriteSucceeds(cfg, s, r.offset, DataOf(r));
    }
  }

  /** Every write is sure to succeed when its turn comes. */
  ghost predicate SureRequests(cfg: Config, s: State, rs: seq<Request>)
    decreases rs
  {
    rs != [] ==>
      (IsWrite(rs[0]) ==> SureRequest(cfg, s, rs[0])) && SureRequests(cfg, Run(s, Answer(cfg, s, rs[0]).trace), rs[1..])
  }

  /** Then none of them is refused. */
  lemma {:induction false} SureWritesAnswered(cfg: Config, s: State, rs: seq<Request>, i: nat)
    requires cfg.Valid() && Ordinary(rs) && SureRequests(cfg, s, rs) && i < |rs| && IsWrite(rs[i])
    ensures Replies(cfg, s, rs)[i] == Reply(0, rs[i].handle, [])
    decreases i
  {
    hide Answer, Run, SureRequest;
    assert rs[0].Valid() && Ordinary(rs[1..]);
    if i == 0 {
      SureWriteAnswered(cfg, s, rs[0]);
    } else {
      SureWritesAnswered(cfg, Run(s, Answer(cfg, s, rs[0]).trace), rs[1..], i - 1);
    }
  }

  // ---------------------------------------------------------------- headroom

  /** How many steps of headroom the requests on a stream may use up. */
  ghost function Budget(input: seq<byte>): nat
    decreases |input|
  {
    match Parse(input)
    case Got(r, rest) => if r.command == CMD_DISC then 0 else |DataOf(r)| + Budget(rest)
    case _ => 0
  }

  lemma AnswerHeadroom(cfg: Config, s: State, r: Request, n: nat)
    requires cfg.Valid() && r.Valid() && HasHeadroom(s, |DataOf(r)| + n)
    ensures HasHeadroom(Run(s, Answer(cfg, s, r).trace), n)
  {
    hide HasHeadroom, Run, Read, Write;
    LessHeadroom(s, |DataOf(r)| + n, n);
    if r.command == CMD_READ {
      ReadHeadroom(cfg, s, r.offset, r.length, n);
    } else if IsWrite(r) {
      WriteHeadroom(cfg, s, r.offset, DataOf(r));
    } else {
      RunNothing(s);
    }
  }
}
