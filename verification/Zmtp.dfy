/**
 The connection object of ingest-bsread/src/zmtp/zmtpproto.rs: the fields that `parse_item`
 and `loop_body` update, over two `SlideBuf`s. The socket is an input.
 */
module Zmtp {
  import opened Bytes
  import opened Wrappers
  import opened Incremental
  import opened ZmtpWire
  import opened SlideBuffer

  predicate Handshaking(st: ConnState) {
    st.InitSend? || st.InitRecv1? || st.InitRecv2? || st.InitRecv3? || st.InitRecv4? || st.InitRecv5?
  }

  const PING: seq<byte> := [4, 0x50, 0x49, 0x4e, 0x47]
  const PONG: seq<byte> := [4, 0x50, 0x4f, 0x4e, 0x47]
  const DAQINGEST: seq<byte> := [0x64, 0x61, 0x71, 0x69, 0x6e, 0x67, 0x65, 0x73, 0x74]

  /** A PING command that gets answered: not oversized. */
  predicate Answerable(c: seq<byte>) {
    7 <= |c| <= 32 && c[..5] == PING
  }

  function PongReply(c: seq<byte>): seq<byte>
    requires Answerable(c)
  {
    [4, |c| - 2] + PONG + c[7..]
  }

  /** Everything that one PING makes the connection send. */
  function Replies(c: seq<byte>, pong: bool, ping: bool): seq<byte>
    requires Answerable(c)
  {
    (if pong then PongReply(c) else []) + (if ping then OWN_PING else [])
  }

  const OWN_PING: seq<byte> := [4, 14] + PING + DAQINGEST

  /** The length byte of a reply counts the bytes behind it: both replies are well-formed short
      command frames, so the peer reads each of them as one command. */
  lemma RepliesAreCommandFrames(c: seq<byte>)
    requires Answerable(c)
    ensures PongReply(c) == EncodeFrame(Wire(true, false, false, PONG + c[7..]))
    ensures OWN_PING == EncodeFrame(Wire(true, false, false, PING + DAQINGEST))
  {
    ShortLength(|PONG + c[7..]|);
    ShortLength(14);
  }

  /** The commands that are answered: PING, a time to live in two bytes, and a context of up to 25
      bytes. Whatever the time to live, the answer carries the context alone. */
  lemma PingIsAnswered(c: seq<byte>)
    ensures Answerable(c) <==> exists a: byte, b: byte, ctx: seq<byte> :: c == PingCommand(a, b, ctx) && |ctx| <= 25
    ensures Answerable(c) ==> PongReply(c) == [4, 5 + |c[7..]|] + ([4] + Ascii("PONG") + c[7..])
  {
    PingLetters();
    if Answerable(c) {
      assert c == PingCommand(c[5], c[6], c[7..]);
    }
    if a: byte, b: byte, ctx: seq<byte> :| c == PingCommand(a, b, ctx) && |ctx| <= 25 {
      assert c[..5] == PING;
    }
  }

  function PingCommand(a: byte, b: byte, ctx: seq<byte>): seq<byte> {
    [4] + Ascii("PING") + [a, b] + ctx
  }

  lemma PingLetters()
    ensures PING == [4] + Ascii("PING") && PONG == [4] + Ascii("PONG") && DAQINGEST == Ascii("daqingest")
  {
  }

  /** The PING that the source sends has no time to live, so a peer that reads it by the grammar
      takes its first two letters for one, and returns the rest. */
  lemma OwnPingIsMisread()
    ensures OWN_PING == [4, 14] + PingCommand('d' as int, 'a' as int, Ascii("qingest"))
  {
    PingLetters();
    assert Ascii("daqingest") == ['d' as int, 'a' as int] + Ascii("qingest");
  }

  class Zmtp {
    const socketType: SocketType
    const buf: SlideBuf
    const outbuf: SlideBuf
    var done: bool
    var connState: ConnState
    var outEnable: bool
    var msglen: nat
    var hasMore: bool
    var isCommand: bool
    var peerVer: (byte, byte)
    var frames: seq<Frame>
    var inpEof: bool
    ghost var emitted: seq<Emit>  // everything the steps showed to the outside

    ghost predicate Valid()
      reads this`done, this`connState, buf, buf.buf, outbuf, outbuf.buf
    {
      && buf != outbuf && buf.buf != outbuf.buf
      && buf.Valid() && outbuf.Valid()
      && buf.Cap() == outbuf.Cap() == 1024 * 128
      && (!done ==> NeedMin(connState) <= buf.Cap() / 2)
      && (Handshaking(connState) ==> outbuf.Len() <= Greeted(connState))
    }

    /** The reader's own fields. */
    function P(): Parser
      reads this`connState, this`msglen, this`hasMore, this`isCommand, this`peerVer, this`frames, this`outEnable
    {
      Parser(connState, msglen, hasMore, isCommand, peerVer, frames, outEnable)
    }

    constructor (socketType: SocketType)
      ensures Valid() && fresh(buf) && fresh(outbuf) && fresh(buf.buf) && fresh(outbuf.buf)
      ensures P() == FRESH && !done && !inpEof && emitted == []
      ensures buf.Data() == [] && outbuf.Data() == []
    {
      this.socketType := socketType;
      done, inpEof := false, false;
      connState := InitSend;
      outEnable, msglen, hasMore, isCommand := false, 0, false, false;
      peerVer := (0, 0);
      frames := [];
      emitted := [];
      buf := new SlideBuf(1024 * 128);
      outbuf := new SlideBuf(1024 * 128);
    }

    /** A `put_u8` that cannot fail. */
    method PutByte(b: byte)
      requires outbuf.Valid() && 1 <= outbuf.Wcap()
      modifies outbuf, outbuf.buf
      ensures outbuf.Valid() && outbuf.Data() == old(outbuf.Data()) + [b]
      ensures outbuf.Wcap() + 1 >= old(outbuf.Wcap())
    {
      hide SlideBuf.Data;
      ShortLength(b);
      var r := outbuf.PutBe(b, 1);
    }

    /** Puts one short command frame; with this much room behind the cursor no put fails. */
    method PutCommand(name: seq<byte>, ctx: seq<byte>)
      requires outbuf.Valid() && |name| == 5 && |ctx| <= 25 && 7 + |ctx| <= outbuf.Wcap()
      modifies outbuf, outbuf.buf
      ensures outbuf.Valid()
      ensures outbuf.Data() == old(outbuf.Data()) + ([4, 5 + |ctx|] + name + ctx)
      ensures outbuf.Wcap() + 7 + |ctx| >= old(outbuf.Wcap())
    {
      hide SlideBuf.Data;
      ghost var d0 := outbuf.Data();
      PutByte(4);
      PutByte(5 + |ctx|);
      var r := outbuf.PutSlice(name);
      r := outbuf.PutSlice(ctx);
      assert outbuf.Data() == d0 + [4] + [5 + |ctx|] + name + ctx;
    }

    /** Answers a PING with a PONG when the output buffer has room for it as it stands, and
        then sends a PING of its own if there is still room. None of the puts can fail. */
    method ReplyToPing(data: seq<byte>) returns (pong: bool, ping: bool)
      requires outbuf.Valid() && Answerable(data)
      modifies outbuf, outbuf.buf
      ensures outbuf.Valid()
      ensures outbuf.Data() == old(outbuf.Data()) + Replies(data, pong, ping)
      ensures pong <==> |data| <= old(outbuf.Wcap())
      ensures |data| + 32 <= old(outbuf.Wcap()) ==> ping
    {
      hide SlideBuf.Data;
      pong, ping := |data| <= outbuf.Wcap(), true;
      if pong {
        PutCommand(PONG, data[7..]);
      }
      if outbuf.Wcap() < 32 {
        ping := false;
      } else {
        PutCommand(PING, DAQINGEST);
      }
    }

    /** What was emitted and where the reader stands. */
    ghost function R(): Reader<Parser, Emit>
      requires Valid()
      reads this, buf, buf.buf, outbuf, outbuf.buf
    {
      if done then Stopped(emitted) else Running(P(), buf.Data(), emitted)
    }

    /** The state after a parse step whose value is s: the fields, the bytes left to read, and
        the result. */
    ghost predicate Followed(s: Outcome<Parser, Emit>, r: Result<Option<Event>, ZmtpError>, rest: seq<byte>)
      requires Valid()
      reads this`done, this`connState, this`msglen, this`hasMore, this`isCommand, this`peerVer, this`frames,
          this`outEnable
      reads buf, buf.buf, outbuf, outbuf.buf
    {
      Outcomes(s, done, P(), buf.Data(), r, rest)
    }

    /** One parse step. It consumes exactly the bytes the state asked for, so none of its reads
        falls short, and none of its writes is refused; pong and ping tell which replies to a
        PING it queued. An error ends the connection, as the caller `loop_body` has it. */
    method ParseItem() returns (r: Result<Option<Event>, ZmtpError>, pong: bool, ping: bool)
      requires Valid() && !done && NeedMin(connState) <= buf.Len()
      modifies this, buf`rp, outbuf, outbuf.buf
      ensures Valid()
      ensures var c := old(buf.Data())[..NeedMin(old(connState))];
              var s := Step(buf.Cap(), socketType, old(P()), c);
              && emitted == old(emitted) + s.events
              && Followed(s, r, old(buf.Data())[|c|..])
              && (pong || ping ==> old(connState).ReadFrameBody? && old(isCommand) && Answerable(c))
              && (s.Next? ==> outbuf.Data() == old(outbuf.Data())
                                               + if pong || ping then Replies(c, pong, ping) else Sent(s.events))
      ensures inpEof == old(inpEof)
    {
      hide SlideBuf.Data;
      hide Step;
      hide Sent;
      hide Replies;
      hide Outcomes;
      pong, ping := false, false;
      ghost var c := buf.Data()[..NeedMin(connState)];
      ghost var s := Step(buf.Cap(), socketType, P(), c);
      match connState {
        case ReadFrameFlags =>
          r := ParseFlags();
        case ReadFrameShort =>
          r := ParseLength(1);
        case ReadFrameLong =>
          r := ParseLength(8);
        case ReadFrameBody(_) =>
          r, pong, ping := ParseBody();
        case InitRecv5 =>
          r := ParseMechanism();
        case InitSend =>
          r := ParseAnswering();
        case InitRecv3 =>
          r := ParseAnswering();
        case _ =>
          r := ParseChecking();
      }
      emitted := emitted + s.events;
    }

    /** The two greeting states that answer: the first half at once, the rest as soon as the
        peer's major version is known. */
    method ParseAnswering() returns (r: Result<Option<Event>, ZmtpError>)
      requires Valid() && !done && NeedMin(connState) <= buf.Len()
      requires connState.InitSend? || connState.InitRecv3?
      modifies this`done, this`connState, this`peerVer, buf`rp, outbuf, outbuf.buf
      ensures Valid()
      ensures var c := old(buf.Data())[..NeedMin(old(connState))];
              var s := Step(buf.Cap(), socketType, old(P()), c);
              && Followed(s, r, old(buf.Data())[|c|..])
              && (s.Next? ==> outbuf.Data() == old(outbuf.Data()) + Sent(s.events))
    {
      hide SlideBuf.Data;
      hide Step;
      hide Sent;
      hide Outcomes;
      hide GreetingTail;
      AnswerIs(buf.Cap(), socketType, P(), buf.Data()[..NeedMin(connState)]);
      if connState == InitSend {
        assert buf.Data()[0..] == buf.Data();
        var w := outbuf.PutSlice(GREETING_HEAD);
        connState := InitRecv1;
        return Ok(None);
      }
      OneByte(buf.Data()[..1]);
      var maj := buf.ReadBe(1);
      if maj.value != 3 {
        done := true;
        return Err(PeerNot3x);
      }
      peerVer := (maj.value, peerVer.1);
      PutTail();
      connState := InitRecv4;
      return Ok(None);
    }

    /** The mechanism and the rest of the greeting. */
    method PutTail()
      requires outbuf.Valid() && outbuf.Len() + 52 <= outbuf.Cap()
      modifies outbuf, outbuf.buf
      ensures outbuf.Valid() && outbuf.Data() == old(outbuf.Data()) + GreetingTail()
    {
      hide SlideBuf.Data;
      hide Zeros;
      ghost var was := outbuf.Data();
      var w := outbuf.PutSlice(NULL_MECHANISM);
      w := outbuf.PutSlice(Zeros(48));
      assert (was + NULL_MECHANISM) + Zeros(48) == was + GreetingTail();
    }

    /** The greeting states that only check a byte. */
    method ParseChecking() returns (r: Result<Option<Event>, ZmtpError>)
      requires Valid() && !done && NeedMin(connState) <= buf.Len()
      requires connState.InitRecv1? || connState.InitRecv2? || connState.InitRecv4?
      modifies this`done, this`connState, this`peerVer, buf`rp
      ensures Valid()
      ensures var c := old(buf.Data())[..NeedMin(old(connState))];
              var s := Step(buf.Cap(), socketType, old(P()), c);
              && Followed(s, r, old(buf.Data())[|c|..])
              && outbuf.Data() == old(outbuf.Data()) + Sent(s.events)
    {
      hide SlideBuf.Data;
      hide Step;
      hide Sent;
      hide Outcomes;
      hide CheckFails;
      hide Checked;
      ghost var c := buf.Data()[..NeedMin(connState)];
      CheckIs(buf.Cap(), socketType, P(), c);
      assert outbuf.Data() + [] == outbuf.Data();
      if connState == InitRecv2 {
        var a := buf.Adv(8);
      }
      assert buf.Data()[..1] == [c[|c| - 1]];
      OneByte(buf.Data()[..1]);
      var b := buf.ReadBe(1);
      r := CheckByte(b.value);
    }

    /** Checks a byte of the greeting. */
    method CheckByte(b: byte) returns (r: Result<Option<Event>, ZmtpError>)
      requires connState.InitRecv1? || connState.InitRecv2? || connState.InitRecv4?
      requires !done
      modifies this`done, this`connState, this`peerVer
      ensures CheckFails(old(P()), b).Some? ==> done && r == Err(CheckFails(old(P()), b).value) && P() == old(P())
      ensures CheckFails(old(P()), b).None? ==> !done && r == Ok(None) && P() == Checked(old(P()), b)
    {
      if connState == InitRecv4 {
        if b > 1 {
          done := true;
          return Err(UnsupportedVersion);
        }
        peerVer := (peerVer.0, b);
        connState := InitRecv5;
      } else if if connState == InitRecv1 then b != 0xff else !Bit(b, 0) {
        done := true;
        return Err(PeerNot3x);
      } else {
        connState := if connState == InitRecv1 then InitRecv2 else InitRecv3;
      }
      return Ok(None);
    }

    method ParseMechanism() returns (r: Result<Option<Event>, ZmtpError>)
      requires Valid() && !done && connState == InitRecv5 && 52 <= buf.Len()
      modifies this`done, this`connState, this`outEnable, buf`rp, outbuf, outbuf.buf
      ensures Valid()
      ensures var s := Step(buf.Cap(), socketType, old(P()), old(buf.Data())[..52]);
              && Followed(s, r, old(buf.Data())[52..])
              && (s.Next? ==> outbuf.Data() == old(outbuf.Data()) + Sent(s.events))
    {
      hide SlideBuf.Data;
      hide Step;
      hide Sent;
      hide Outcomes;
      hide MechanismFails;
      hide ReadyCommand;
      MechanismIs(buf.Cap(), socketType, P(), buf.Data()[..52]);
      var e := ReadMechanism();
      if e.Some? {
        done := true;
        return Err(e.value);
      }
      var w := outbuf.PutSlice(ReadyCommand(socketType));
      outEnable := true;
      connState := ReadFrameFlags;
      return Ok(None);
    }

    /** The name of the mechanism, and the part of the greeting behind it. */
    method ReadMechanism() returns (e: Option<ZmtpError>)
      requires buf.Valid() && 52 <= buf.Len()
      modifies buf`rp
      ensures buf.Valid()
      ensures e == MechanismFails(old(buf.Data())[..52])
      ensures e.None? ==> buf.Data() == old(buf.Data())[52..]
    {
      hide SlideBuf.Data;
      hide FirstNul;
      hide IsUtf8;
      ghost var c := buf.Data()[..52];
      var b2 := buf.ReadBytes(20);
      assert b2.value == c[..20];
      var i := ScanNul(b2.value);
      assert b2.value[..i] == c[..i];
      if i >= |b2.value| {
        return Some(BadPeerMechanism);
      }
      if !IsUtf8(b2.value[..i]) {
        return Some(FromUtf8Error);
      }
      var a := buf.Adv(32);
      return None;
    }

    method ParseFlags() returns (r: Result<Option<Event>, ZmtpError>)
      requires Valid() && !done && connState == ReadFrameFlags && 1 <= buf.Len()
      modifies this`connState, this`hasMore, this`isCommand, buf`rp
      ensures Valid()
      ensures var s := Step(buf.Cap(), socketType, old(P()), old(buf.Data())[..1]);
              && Followed(s, r, old(buf.Data())[1..])
              && outbuf.Data() == old(outbuf.Data()) + Sent(s.events)
    {
      hide SlideBuf.Data;
      hide Step;
      hide Sent;
      hide Outcomes;
      hide Bit;
      FlagsAre(buf.Cap(), socketType, P(), buf.Data()[..1]);
      assert outbuf.Data() + [] == outbuf.Data();
      OneByte(buf.Data()[..1]);
      var flags := buf.ReadBe(1);
      var more, long, cmd := Bit(flags.value, 0), Bit(flags.value, 1), Bit(flags.value, 2);
      if !cmd {
        hasMore := more;
      }
      isCommand := cmd;
      if long {
        connState := ReadFrameLong;
      } else {
        connState := ReadFrameShort;
      }
      return Ok(None);
    }

    method ParseBody() returns (r: Result<Option<Event>, ZmtpError>, pong: bool, ping: bool)
      requires Valid() && !done && connState.ReadFrameBody? && connState.msglen <= buf.Len()
      modifies this`connState, this`msglen, this`frames, buf`rp, outbuf, outbuf.buf
      ensures Valid()
      ensures var c := old(buf.Data())[..old(connState.msglen)];
              var s := Step(buf.Cap(), socketType, old(P()), c);
              && (pong || ping ==> old(isCommand) && Answerable(c))
              && Followed(s, r, old(buf.Data())[|c|..])
              && outbuf.Data() == old(outbuf.Data()) + if pong || ping then Replies(c, pong, ping) else Sent(s.events)
    {
      hide SlideBuf.Data;
      hide Step;
      hide Replies;
      hide Sent;
      hide FrameTaken;
      hide Outcomes;
      var data := buf.ReadBytes(connState.msglen);
      var g := Frame(connState.msglen, hasMore, isCommand, data.value);
      BodyIs(buf.Cap(), socketType, P(), data.value);
      var event := TakeFrame(g);
      pong, ping := MaybeReply(data.value);
      return Ok(event), pong, ping;
    }

    method MaybeReply(data: seq<byte>) returns (pong: bool, ping: bool)
      requires outbuf.Valid()
      modifies outbuf, outbuf.buf
      ensures outbuf.Valid() && (pong || ping ==> isCommand && Answerable(data))
      ensures outbuf.Data() == old(outbuf.Data()) + if pong || ping then Replies(data, pong, ping) else []
    {
      hide SlideBuf.Data;
      hide Replies;
      pong, ping := false, false;
      assert outbuf.Data() + [] == outbuf.Data();
      if isCommand && Answerable(data) {
        NoReplies(data);
        pong, ping := ReplyToPing(data);
      }
    }

    /** What a whole frame does to the fields: a command is yielded, a part of a message is kept,
        the last part yields the message. */
    method TakeFrame(g: Frame) returns (event: Option<Event>)
      modifies this`connState, this`msglen, this`frames
      ensures (P(), event) == FrameTaken(old(P()), g)
    {
      connState := ReadFrameFlags;
      msglen := 0;
      if isCommand {
        return Some(Command(g));
      }
      frames := frames + [g];
      if hasMore {
        return None;
      }
      var all := frames;
      frames := [];
      return Some(Message(all));
    }

    /** The two length states differ only in the width of the length. The state is set before
        the size is checked; a frame that would not leave half of the buffer free is refused. */
    method ParseLength(ts: nat) returns (r: Result<Option<Event>, ZmtpError>)
      requires Valid() && !done && NeedMin(connState) == ts <= buf.Len()
      requires if ts == 1 then connState == ReadFrameShort else connState == ReadFrameLong
      modifies this`msglen, this`connState, this`done, buf`rp
      ensures Valid()
      ensures var s := Step(buf.Cap(), socketType, old(P()), old(buf.Data())[..ts]);
              && Followed(s, r, old(buf.Data())[ts..])
              && outbuf.Data() == old(outbuf.Data()) + Sent(s.events)
    {
      hide SlideBuf.Data;
      hide Step;
      hide Sent;
      hide Outcomes;
      hide FromBe;
      LengthIs(buf.Cap(), socketType, P(), buf.Data()[..ts]);
      assert outbuf.Data() + [] == outbuf.Data();
      var n := buf.ReadBe(ts);
      msglen := n.value;
      connState := ReadFrameBody(msglen);
      if msglen > buf.Cap() / 2 {
        done := true;
        return Err(MsgTooLarge(msglen));
      }
      return Ok(None);
    }

    /** The read part of `loop_body`, for a socket that has `incoming` waiting and hands over at
        most `most` bytes of it. There is always room for what the state needs. */
    method ReadInput(incoming: seq<byte>, most: nat) returns (n: nat)
      requires Valid() && !done && buf.Len() < NeedMin(connState)
      requires incoming != [] && most > 0
      modifies buf, buf.buf
      ensures Valid() && 1 <= n <= |incoming| && n <= most
      ensures buf.Data() == old(buf.Data()) + incoming[..n]
    {
      var area := buf.AvailableWritableArea(NeedMin(connState));
      assert area.Ok?;
      n := if most <= |incoming| then most else |incoming|;
      n := if n <= area.value then n else area.value;
      buf.Fill(incoming[..n]);
      var w := buf.Wadv(n);
      assert w.Ok?;
    }

    /** The write part of `loop_body`, for a socket that takes at most `accepts` bytes now; 0 means that
        it is not ready. */
    method WriteOutput(accepts: nat) returns (sent: seq<byte>)
      requires Valid()
      modifies outbuf`rp
      ensures Valid() && sent + outbuf.Data() == old(outbuf.Data())
      ensures |sent| == if accepts <= |old(outbuf.Data())| then accepts else |old(outbuf.Data())|
    {
      hide SlideBuf.Data;
      var k := if accepts <= outbuf.Len() then accepts else outbuf.Len();
      sent := outbuf.Data()[..k];
      var a := outbuf.Adv(k);
    }

    /** One round of `loop_body`: it writes, reads if there is not enough to parse, and parses if there
        is enough then. The event, if any, is what the round yields. What was to be sent leaves in
        order, and behind it is what the parse step adds. */
    method LoopBody(waiting: seq<byte>, most: nat, accepts: nat)
      returns (n: nat, event: Option<Event>, sent: seq<byte>, ghost answers: seq<Answer>)
      requires Valid() && !done
      requires NeedMin(connState) <= buf.Len() || (waiting != [] && most > 0)
      modifies this, buf, buf.buf, outbuf, outbuf.buf
      ensures Progressive(Reading(buf.Cap(), socketType))
      ensures Valid() && n <= |waiting|
      ensures if NeedMin(old(connState)) <= |old(buf.Data())| then n == 0 else 1 <= n <= most
      ensures Feed(Reading(buf.Cap(), socketType), R(), [])
           == Feed(Reading(buf.Cap(), socketType), old(R()), waiting[..n])
      ensures Items(emitted) == Items(old(emitted)) + if event.Some? then [event.value] else []
      ensures |sent| == if accepts <= |old(outbuf.Data())| then accepts else |old(outbuf.Data())|
      ensures Grew(old(emitted), emitted, answers)
      ensures !done ==> sent + outbuf.Data() == old(outbuf.Data()) + Added(old(emitted), emitted, answers)
      ensures done || |buf.Data()| <= |old(buf.Data())| + n
      ensures n == 0 ==>
                || done || |buf.Data()| < |old(buf.Data())|
                || (|buf.Data()| == |old(buf.Data())| && Rank(connState) < old(Rank(connState)))
    {
      hide SlideBuf.Data;
      hide Step;
      hide Feed;
      hide Output;
      ReadingProgresses(buf.Cap(), socketType);
      event, n := None, 0;
      sent := WriteOutput(accepts);
      answers := [];
      NothingAdded(emitted);
      if buf.Len() < NeedMin(connState) {
        n := ReadInput(waiting, most);
      }
      FeedUnread(Reading(buf.Cap(), socketType), P(), old(buf.Data()), emitted, waiting[..n]);
      assert buf.Data() == old(buf.Data()) + waiting[..n];
      assert outbuf.Data() + [] == outbuf.Data() && old(outbuf.Data()) + [] == old(outbuf.Data());
      if NeedMin(connState) <= buf.Len() {
        ghost var held := outbuf.Data();
        event, answers := ParseRound();
        if !done {
          Regroup(sent, held, Added(old(emitted), emitted, answers));
        }
      }
    }

    /** The parse part of `loop_body`. */
    method ParseRound() returns (event: Option<Event>, ghost answers: seq<Answer>)
      requires Valid() && !done && NeedMin(connState) <= buf.Len()
      modifies this, buf`rp, outbuf, outbuf.buf
      ensures Progressive(Reading(buf.Cap(), socketType))
      ensures Valid()
      ensures Feed(Reading(buf.Cap(), socketType), R(), []) == old(Feed(Reading(buf.Cap(), socketType), R(), []))
      ensures Items(emitted) == Items(old(emitted)) + if event.Some? then [event.value] else []
      ensures Grew(old(emitted), emitted, answers)
      ensures !done ==> outbuf.Data() == old(outbuf.Data()) + Added(old(emitted), emitted, answers)
      ensures done || |buf.Data()| < |old(buf.Data())|
              || (|buf.Data()| == |old(buf.Data())| && Rank(connState) < old(Rank(connState)))
    {
      hide SlideBuf.Data;
      hide Step;
      hide Feed;
      hide Output;
      ReadingProgresses(buf.Cap(), socketType);
      event := None;
      ghost var c := buf.Data()[..NeedMin(connState)];
      ghost var s := Step(buf.Cap(), socketType, P(), c);
      FeedStep(Reading(buf.Cap(), socketType), P(), buf.Data(), emitted);
      ItemsOfStep(buf.Cap(), socketType, P(), c);
      ItemsAppend(emitted, s.events);
      ghost var p := P();
      var r, pong, ping := ParseItem();
      if r.Ok? {
        event := r.value;
      }
      answers := if s.events == [] then [] else [Answer(pong, ping)];
      StepAdds(buf.Cap(), socketType, p, c, pong, ping);
      StaysStopped(Reading(buf.Cap(), socketType), emitted);
      assert emitted[|old(emitted)|..] == s.events;
    }

    /** The poll loop over `incoming`, until the connection is over or the socket is not ready. Read i
        takes at most `sizes[i]` bytes, and round i writes at most `accepts[i]`; the socket is not
        ready at a 0 and after the last one. Where it stops is where the machine stops on what was
        read, with the same events; with enough reads that each take a byte, all of it is. What is
        sent, followed by what is held back, is what was held back before, followed by what the
        steps and the replies to PINGs added. */
    method PollInput(incoming: seq<byte>, sizes: seq<nat>, accepts: seq<nat>)
      returns (events: seq<Event>, sent: seq<byte>, taken: nat, ghost answers: seq<Answer>)
      requires Valid()
      modifies this, buf, buf.buf, outbuf, outbuf.buf
      ensures Progressive(Reading(buf.Cap(), socketType)) && Valid() && taken <= |incoming|
      ensures R() == Feed(Reading(buf.Cap(), socketType), old(R()), incoming[..taken])
      ensures Items(emitted) == Items(old(emitted)) + events
      ensures (forall i :: 0 <= i < |sizes| ==> sizes[i] > 0) && |incoming| <= |sizes| ==> done || taken == |incoming|
      ensures Grew(old(emitted), emitted, answers)
      ensures !done ==> sent + outbuf.Data() == old(outbuf.Data()) + Added(old(emitted), emitted, answers)
    {
      hide SlideBuf.Data;
      hide Feed;
      hide Items;
      hide Output;
      hide Added;
      ReadingProgresses(buf.Cap(), socketType);
      ghost var m, r0 := Reading(buf.Cap(), socketType), R();
      events, sent, taken, answers := [], [], 0, [];
      var i, j := 0, 0;
      NothingAdded(emitted);
      assert [] + outbuf.Data() == outbuf.Data() + [];
      assert Feed(m, R(), []) == Feed(m, r0, incoming[..0]);
      while !done && (NeedMin(connState) <= buf.Len() || (taken < |incoming| && j < |sizes| && sizes[j] > 0))
        invariant Valid() && j <= taken <= |incoming| && j <= |sizes|
        invariant Feed(m, R(), []) == Feed(m, r0, incoming[..taken])
        invariant Items(emitted) == Items(old(emitted)) + events
        invariant Grew(old(emitted), emitted, answers)
        invariant !done ==> sent + outbuf.Data() == old(outbuf.Data()) + Added(old(emitted), emitted, answers)
        decreases !done, |incoming| - taken + |buf.Data()|, |incoming| - taken, Rank(connState)
      {
        ghost var r, out, was := R(), outbuf.Data(), emitted;
        var n, event, now, more := LoopBody(incoming[taken..], if j < |sizes| then sizes[j] else 0,
                                            if i < |accepts| then accepts[i] else 0);
        Onward(m, r0, r, R(), incoming, taken, n);
        AddedMore(old(emitted), was, emitted, answers, more);
        if !done {
          StillAll(sent, now, out, outbuf.Data(), old(outbuf.Data()),
                   Added(old(emitted), was, answers), Added(was, emitted, more));
        }
        answers, sent := answers + more, sent + now;
        taken, i, j := taken + n, i + 1, j + if n > 0 then 1 else 0;
        if event.Some? {
          events := events + [event.value];
        }
      }
      if !done {
        FeedShort(m, P(), buf.Data(), emitted);
      } else {
        StaysStopped(m, emitted);
      }
    }
  }

  // ---- what is added to the output ----

  /** Which replies a PING got. */
  datatype Answer = Answer(pong: bool, ping: bool)

  /** What a step adds to the output, in terms of what it emitted. */
  function Adds(e: Emit, a: Answer): seq<byte> {
    match e
    case Send(bytes) => bytes
    case Item(Command(g)) => if Answerable(g.data) then Replies(g.data, a.pong, a.ping) else []
    case _ => []
  }

  function Output(es: seq<Emit>, answers: seq<Answer>): seq<byte>
    requires |es| == |answers|
  {
    if es == [] then []
    else Output(es[..|es| - 1], answers[..|es| - 1]) + Adds(es[|es| - 1], answers[|es| - 1])
  }

  ghost predicate Grew(was: seq<Emit>, es: seq<Emit>, answers: seq<Answer>) {
    was <= es && |es| == |was| + |answers|
  }

  function Added(was: seq<Emit>, es: seq<Emit>, answers: seq<Answer>): seq<byte>
    requires Grew(was, es, answers)
  {
    Output(es[|was|..], answers)
  }

  lemma NothingAdded(es: seq<Emit>)
    ensures Grew(es, es, []) && Added(es, es, []) == []
  {
  }

  lemma {:induction false} OutputAppend(a: seq<Emit>, x: seq<Answer>, b: seq<Emit>, y: seq<Answer>)
    requires |a| == |x| && |b| == |y|
    ensures Output(a + b, x + y) == Output(a, x) + Output(b, y)
  {
    hide Output;
    if b == [] {
      assert a + b == a && x + y == x;
      NoOutput();
      assert Output(a, x) + [] == Output(a, x);
    } else {
      var n := |b| - 1;
      OutputAppend(a, x, b[..n], y[..n]);
      OutputSnoc(a + b[..n], x + y[..n], b[n], y[n]);
      OutputSnoc(b[..n], y[..n], b[n], y[n]);
      assert (a + b[..n]) + [b[n]] == a + b && (x + y[..n]) + [y[n]] == x + y;
      assert b[..n] + [b[n]] == b && y[..n] + [y[n]] == y;
      Regroup(Output(a, x), Output(b[..n], y[..n]), Adds(b[n], y[n]));
    }
  }

  lemma NoOutput()
    ensures Output([], []) == []
  {
  }

  lemma OutputSnoc(es: seq<Emit>, answers: seq<Answer>, e: Emit, a: Answer)
    requires |es| == |answers|
    ensures Output(es + [e], answers + [a]) == Output(es, answers) + Adds(e, a)
  {
    hide Adds;
    assert (es + [e])[..|es|] == es && (answers + [a])[..|es|] == answers;
  }

  lemma AddedMore(was: seq<Emit>, mid: seq<Emit>, es: seq<Emit>, x: seq<Answer>, y: seq<Answer>)
    requires Grew(was, mid, x) && Grew(mid, es, y)
    ensures Grew(was, es, x + y) && Added(was, es, x + y) == Added(was, mid, x) + Added(mid, es, y)
  {
    hide Output;
    OutputAppend(mid[|was|..], x, es[|mid|..], y);
    assert es[|was|..] == mid[|was|..] + es[|mid|..];
  }

  lemma StillAll(sent: seq<byte>, now: seq<byte>, out: seq<byte>, held: seq<byte>, first: seq<byte>, x: seq<byte>,
                 y: seq<byte>)
    requires sent + out == first + x && now + held == out + y
    ensures (sent + now) + held == first + (x + y)
  {
    assert (sent + now) + held == sent + (now + held);
    assert sent + (out + y) == (sent + out) + y;
    assert (first + x) + y == first + (x + y);
  }

  lemma StepAdds(cap: nat, sock: SocketType, p: Parser, c: seq<byte>, pong: bool, ping: bool)
    requires |c| == NeedMin(p.st)
    requires pong || ping ==> p.st.ReadFrameBody? && p.isCommand && Answerable(c)
    ensures var s := Step(cap, sock, p, c);
            && |s.events| <= 1
            && (if pong || ping then Replies(c, pong, ping) else Sent(s.events))
               == Output(s.events, if s.events == [] then [] else [Answer(pong, ping)])
  {
    hide *;
    var s := Step(cap, sock, p, c);
    StepEmits(cap, sock, p, c);
    if s.events == [] {
      NoOutputs();
    } else {
      OneOutput(s.events[0], Answer(pong, ping));
      OneAdds(s.events[0], c, pong, ping);
      assert s.events == [s.events[0]];
    }
  }

  /** A step emits one thing at most: the body of a command that command. */
  lemma StepEmits(cap: nat, sock: SocketType, p: Parser, c: seq<byte>)
    requires |c| == NeedMin(p.st)
    ensures var ev := Step(cap, sock, p, c).events;
            && |ev| <= 1
            && (p.st.ReadFrameBody? && p.isCommand ==>
                  |ev| == 1 && ev[0].Item? && ev[0].event.Command? && ev[0].event.frame.data == c)
  {
    hide FirstNul;
    hide IsUtf8;
    hide GreetingTail;
    hide ReadyCommand;
    hide FromBe;
    hide Bit;
  }

  lemma NoOutputs()
    ensures Output([], []) == [] && Sent([]) == []
  {
  }

  lemma OneAdds(e: Emit, c: seq<byte>, pong: bool, ping: bool)
    requires pong || ping ==> Answerable(c) && e.Item? && e.event.Command? && e.event.frame.data == c
    ensures Adds(e, Answer(pong, ping))
         == if pong || ping then Replies(c, pong, ping) else if e.Send? then e.bytes else []
  {
    hide Answerable;
    hide PongReply;
  }

  lemma OneOutput(e: Emit, a: Answer)
    ensures Output([e], [a]) == Adds(e, a)
    ensures Sent([e]) == if e.Send? then e.bytes else []
  {
    assert [e][..0] == [] && [e][1..] == [];
    assert [] + Adds(e, a) == Adds(e, a);
    if e.Send? {
      assert e.bytes + [] == e.bytes;
    }
  }

  lemma Regroup(a: seq<byte>, b: seq<byte>, c: seq<byte>)
    ensures a + (b + c) == (a + b) + c
  {
  }

  /** Where the reader stands carries over to the bytes that were read next. */
  lemma Onward(m: Machine<Parser, Emit>, r0: Reader<Parser, Emit>, r: Reader<Parser, Emit>, now: Reader<Parser, Emit>,
               incoming: seq<byte>, taken: nat, n: nat)
    requires Progressive(m) && taken + n <= |incoming|
    requires Feed(m, r, []) == Feed(m, r0, incoming[..taken])
    requires Feed(m, now, []) == Feed(m, r, incoming[taken..][..n])
    ensures Feed(m, now, []) == Feed(m, r0, incoming[..taken + n])
  {
    hide Feed;
    var chunk := incoming[taken..][..n];
    assert incoming[..taken] + chunk == incoming[..taken + n];
    assert [] + chunk == chunk;
    FeedChunk(m, r0, incoming[..taken], chunk);
    FeedChunk(m, r, [], chunk);
  }

  lemma StaysStopped(m: Machine<Parser, Emit>, em: seq<Emit>)
    requires Progressive(m)
    ensures Feed(m, Stopped(em), []) == Stopped(em)
  {
  }

  /** Whether a parse step came out as s: stopped with the error, or at p, with the event. */
  ghost predicate Outcomes(s: Outcome<Parser, Emit>, done: bool, p: Parser, data: seq<byte>,
                           r: Result<Option<Event>, ZmtpError>, rest: seq<byte>)
  {
    && done == s.Stop? == r.Err?
    && match s
       case Stop(ev) => ev == [Failed(r.error)]
       case Next(q, ev) =>
         && p == q
         && data == rest
         && r.value == if ev == [] || !ev[0].Item? then None else Some(ev[0].event)
  }

  lemma AnswerIs(cap: nat, sock: SocketType, p: Parser, c: seq<byte>)
    requires |c| == NeedMin(p.st)
    requires p.st.InitSend? || p.st.InitRecv3?
    ensures var s := Step(cap, sock, p, c);
            && (p.st.InitSend? ==>
                  && Sent(s.events) == GREETING_HEAD
                  && forall rest :: Outcomes(s, false, p.(st := InitRecv1), rest, Ok(None), rest))
            && (p.st.InitRecv3? ==>
                  && (s.Next? <==> FromBe(c) == 3)
                  && (s.Next? ==>
                        && Sent(s.events) == GreetingTail()
                        && forall rest :: Outcomes(s, false, p.(st := InitRecv4, peerVer := (3, p.peerVer.1)), rest,
                                                   Ok(None), rest))
                  && (s.Stop? ==> forall q, data, rest :: Outcomes(s, true, q, data, Err(PeerNot3x), rest)))
  {
    hide GreetingTail;
    if p.st.InitRecv3? {
      OneByte(c);
    }
    assert forall e: Emit :: [e][1..] == [];
    assert GREETING_HEAD + [] == GREETING_HEAD && GreetingTail() + [] == GreetingTail();
  }

  /** What the checked byte of the greeting must be. */
  function CheckFails(p: Parser, b: byte): Option<ZmtpError> {
    match p.st
    case InitRecv1 => if b != 0xff then Some(PeerNot3x) else None
    case InitRecv2 => if !Bit(b, 0) then Some(PeerNot3x) else None
    case _ => if b > 1 then Some(UnsupportedVersion) else None
  }

  function Checked(p: Parser, b: byte): Parser {
    match p.st
    case InitRecv1 => p.(st := InitRecv2)
    case InitRecv2 => p.(st := InitRecv3)
    case _ => p.(st := InitRecv5, peerVer := (p.peerVer.0, b))
  }

  lemma CheckIs(cap: nat, sock: SocketType, p: Parser, c: seq<byte>)
    requires |c| == NeedMin(p.st)
    requires p.st.InitRecv1? || p.st.InitRecv2? || p.st.InitRecv4?
    ensures var s, b := Step(cap, sock, p, c), c[|c| - 1];
            && (CheckFails(p, b).Some? ==>
                  && Sent(s.events) == []
                  && forall q, data, rest :: Outcomes(s, true, q, data, Err(CheckFails(p, b).value), rest))
            && (CheckFails(p, b).None? ==>
                  && Sent(s.events) == []
                  && forall rest :: Outcomes(s, false, Checked(p, b), rest, Ok(None), rest))
    ensures var q := Checked(p, c[|c| - 1]); NeedMin(q.st) <= 52 && Greeted(p.st) <= Greeted(q.st) && Handshaking(q.st)
  {
    hide Bit;
    assert forall e: ZmtpError :: Sent([Failed(e)]) == [] by {
      forall e: ZmtpError
        ensures Sent([Failed(e)]) == []
      {
        assert [Failed(e)][1..] == [];
      }
    }
  }

  /** What the mechanism in the greeting must be: text, up to a NUL. */
  function MechanismFails(c: seq<byte>): Option<ZmtpError>
    requires |c| == 52
  {
    var i := FirstNul(c[..20]);
    if i >= 20 then Some(BadPeerMechanism)
    else if !IsUtf8(c[..i]) then Some(FromUtf8Error)
    else None
  }

  lemma MechanismIs(cap: nat, sock: SocketType, p: Parser, c: seq<byte>)
    requires |c| == NeedMin(p.st) && p.st.InitRecv5?
    ensures var s, e := Step(cap, sock, p, c), MechanismFails(c);
            && (e.Some? ==> s.Stop? && forall q, data, rest :: Outcomes(s, true, q, data, Err(e.value), rest))
            && (e.None? ==>
                  && s.Next? && Sent(s.events) == ReadyCommand(sock)
                  && forall rest :: Outcomes(s, false, p.(st := ReadFrameFlags, outEnable := true), rest, Ok(None),
                                             rest))
  {
    hide FirstNul;
    hide IsUtf8;
    hide ReadyCommand;
    assert [Send(ReadyCommand(sock))][1..] == [];
    assert ReadyCommand(sock) + [] == ReadyCommand(sock);
  }

  lemma FlagsAre(cap: nat, sock: SocketType, p: Parser, c: seq<byte>)
    requires p.st.ReadFrameFlags? && |c| == 1
    ensures var s := Step(cap, sock, p, c);
            var more, long, cmd := Bit(c[0], 0), Bit(c[0], 1), Bit(c[0], 2);
            var q := p.(st := if long then ReadFrameLong else ReadFrameShort, isCommand := cmd,
                        hasMore := if cmd then p.hasMore else more);
            Sent(s.events) == [] && forall rest :: Outcomes(s, false, q, rest, Ok(None), rest)
  {
    hide Bit;
  }

  lemma LengthIs(cap: nat, sock: SocketType, p: Parser, c: seq<byte>)
    requires |c| == NeedMin(p.st)
    requires p.st.ReadFrameShort? || p.st.ReadFrameLong?
    ensures var s, n := Step(cap, sock, p, c), FromBe(c);
            && Sent(s.events) == []
            && (n > cap / 2 ==> forall q, data, rest :: Outcomes(s, true, q, data, Err(MsgTooLarge(n)), rest))
            && (n <= cap / 2 ==>
                  forall rest :: Outcomes(s, false, p.(msglen := n, st := ReadFrameBody(n)), rest, Ok(None), rest))
  {
    hide FromBe;
    if |c| == 1 {
      OneByte(c);
    }
    assert [Failed(MsgTooLarge(FromBe(c)))][1..] == [];
  }

  function FrameTaken(p: Parser, g: Frame): (Parser, Option<Event>) {
    var q := p.(st := ReadFrameFlags, msglen := 0);
    if p.isCommand then (q, Some(Command(g)))
    else if p.hasMore then (q.(frames := p.frames + [g]), None)
    else (q.(frames := []), Some(Message(p.frames + [g])))
  }

  lemma BodyIs(cap: nat, sock: SocketType, p: Parser, c: seq<byte>)
    requires p.st.ReadFrameBody? && |c| == p.st.msglen
    ensures var s := Step(cap, sock, p, c);
            var (q, event) := FrameTaken(p, Frame(|c|, p.hasMore, p.isCommand, c));
            && Sent(s.events) == []
            && forall rest :: Outcomes(s, false, q, rest, Ok(event), rest)
    ensures var q := FrameTaken(p, Frame(|c|, p.hasMore, p.isCommand, c)).0;
              q.st == ReadFrameFlags && q.isCommand == p.isCommand
  {
  }

  lemma NoReplies(c: seq<byte>)
    requires Answerable(c)
    ensures Replies(c, false, false) == []
  {
  }

  lemma OneByte(c: seq<byte>)
    requires |c| == 1
    ensures FromBe(c) == c[0]
  {
    assert FromBe(c[..0]) == 0;
  }

  /** The scan for the end of the peer's mechanism name. */
  method ScanNul(b: seq<byte>) returns (i: nat)
    ensures i == FirstNul(b)
  {
    i := 0;
    while i < |b| && b[i] != 0
      invariant i <= |b|
      invariant FirstNul(b) == i + FirstNul(b[i..])
    {
      assert b[i..][1..] == b[i + 1..];
      i := i + 1;
    }
  }

  /** The events for the user among what was emitted. */
  function Items(ev: seq<Emit>): seq<Event> {
    if ev == [] then [] else (if ev[0].Item? then [ev[0].event] else []) + Items(ev[1..])
  }

  lemma ItemsOfStep(cap: nat, sock: SocketType, p: Parser, c: seq<byte>)
    requires |c| == NeedMin(p.st)
    ensures var s := Step(cap, sock, p, c);
            && Items(s.events) == (if s.events == [] || !s.events[0].Item? then [] else [s.events[0].event])
            && (s.Next? && c == [] ==> Rank(s.next.st) < Rank(p.st))
  {
  }

  lemma {:induction false} ItemsAppend(a: seq<Emit>, b: seq<Emit>)
    ensures Items(a + b) == Items(a) + Items(b)
  {
    if a == [] {
      assert a + b == b;
    } else {
      var first := if a[0].Item? then [a[0].event] else [];
      assert (a + b)[0] == a[0] && (a + b)[1..] == a[1..] + b;
      ItemsAppend(a[1..], b);
      assert Items(a + b) == first + (Items(a[1..]) + Items(b)) == (first + Items(a[1..])) + Items(b);
    }
  }

  /** Flags, 8-byte length and data of one frame. A put that finds no room ends it; the puts
      before it stay in the buffer. */
  method PutFrame(w: Wire, out: SlideBuf) returns (r: Result<(), ZmtpError>)
    requires out.Valid() && w.long && |w.data| < Pow256(SizeLen(w))
    modifies out, out.buf
    ensures out.Valid()
    ensures r.Ok? <==> |old(out.Data())| + |EncodeFrame(w)| <= out.Cap()
    ensures r.Ok? ==> out.Data() == old(out.Data()) + EncodeFrame(w)
    ensures r.Err? ==> r.error == NetBuf
    ensures r.Err? ==> exists k | 0 <= k <= |EncodeFrame(w)| :: out.Data() == old(out.Data()) + EncodeFrame(w)[..k]
  {
    hide SlideBuf.Data;
    ghost var d := out.Data();
    ShortLength(Flags(w));
    var p := out.PutBe(Flags(w), 1);
    if p.Err? {
      assert out.Data() == d + EncodeFrame(w)[..0];
      return Err(NetBuf);
    }
    p := out.PutBe(|w.data|, SizeLen(w));
    if p.Err? {
      assert out.Data() == d + EncodeFrame(w)[..1];
      return Err(NetBuf);
    }
    p := out.PutSlice(w.data);
    if p.Err? {
      assert out.Data() == d + EncodeFrame(w)[..9];
      return Err(NetBuf);
    }
    assert out.Data() == d + EncodeFrame(w);
    return Ok(());
  }

  /** `emit_to_buffer`: the frames of a message one after the other; it succeeds exactly when
      all of them fit, and otherwise leaves a part of them behind. */
  method EmitToBuffer(m: Msg, out: SlideBuf) returns (r: Result<(), ZmtpError>)
    requires out.Valid()
    requires forall i :: 0 <= i < |m| ==> |m[i]| < Pow256(8)
    modifies out, out.buf
    ensures out.Valid()
    ensures var all := EncodeFrames(FramesFrom(m, 0));
            && (r.Ok? <==> |old(out.Data())| + |all| <= out.Cap())
            && (r.Ok? ==> out.Data() == old(out.Data()) + all)
            && (r.Err? ==> r.error == NetBuf && exists k :: 0 <= k <= |all| && out.Data() == old(out.Data()) + all[..k])
  {
    hide SlideBuf.Data;
    hide EncodeFrames;
    hide EncodeFrame;
    hide FramesFrom;
    ghost var all := EncodeFrames(FramesFrom(m, 0));
    ghost var base := out.Data();
    ghost var done: seq<byte> := [];
    var n := |m|;
    var i := 0;
    assert out.Len() <= out.Cap();
    while i < n
      invariant i <= n && out.Valid()
      invariant |out.Data()| <= out.Cap()
      invariant all == done + EncodeFrames(FramesFrom(m, i))
      invariant out.Data() == base + done
    {
      var w := Wire(false, i < n - 1, true, m[i]);
      ghost var e := EncodeFrame(w);
      FramesUnroll(m, i);
      Regroup(done, e, EncodeFrames(FramesFrom(m, i + 1)));
      Regroup(base, done, e);
      r := PutFrame(w, out);
      if r.Err? {
        ghost var k :| 0 <= k <= |e| && out.Data() == base + done + e[..k];
        PrefixOfConcat(base, done, e, EncodeFrames(FramesFrom(m, i + 1)), k);
        return;
      }
      done := done + e;
      i := i + 1;
    }
    FramesUnroll(m, i);
    return Ok(());
  }

  lemma FramesUnroll(m: Msg, i: nat)
    requires i <= |m|
    ensures EncodeFrames(FramesFrom(m, i)) ==
            if i == |m| then []
            else EncodeFrame(Wire(false, i < |m| - 1, true, m[i])) + EncodeFrames(FramesFrom(m, i + 1))
  {
  }

  lemma PrefixOfConcat(base: seq<byte>, a: seq<byte>, e: seq<byte>, rest: seq<byte>, k: nat)
    requires k <= |e|
    ensures ((a + e) + rest)[..|a| + k] == a + e[..k]
    ensures base + a + e[..k] == base + ((a + e) + rest)[..|a| + k]
  {
  }
}
