/**
 The ZMTP 3.x reader and writer of ingest-bsread/src/zmtp/zmtpproto.rs on values: the
 connection states, one parse step, and the bytes of a frame as `emit_to_buffer` writes them
 ("Formal Grammar" of 23/ZMTP and 37/ZMTP).
 */
module ZmtpWire {
  import opened Bytes
  import opened Incremental

  datatype SocketType = PUSH | PULL

  datatype ConnState =
    | InitSend
    | InitRecv1
    | InitRecv2
    | InitRecv3
    | InitRecv4
    | InitRecv5
    | ReadFrameFlags
    | ReadFrameShort
    | ReadFrameLong
    | ReadFrameBody(msglen: nat)

  function NeedMin(st: ConnState): nat {
    match st
    case InitSend => 0
    case InitRecv1 => 1
    case InitRecv2 => 9
    case InitRecv3 => 1
    case InitRecv4 => 1
    case InitRecv5 => 52
    case ReadFrameFlags => 1
    case ReadFrameShort => 1
    case ReadFrameLong => 8
    case ReadFrameBody(msglen) => msglen
  }

  /** Orders the states that may need no input: `InitSend`, and the body of an empty frame. */
  function Rank(st: ConnState): nat {
    match st
    case InitSend => 2
    case ReadFrameBody(_) => 1
    case _ => 0
  }

  datatype Frame = Frame(msglen: nat, hasMore: bool, isCommand: bool, data: seq<byte>)

  datatype Event = Message(frames: seq<Frame>) | Command(frame: Frame)

  datatype ZmtpError =
    | PeerNot3x
    | UnsupportedVersion
    | BadPeerMechanism
    | FromUtf8Error
    | MsgTooLarge(msglen: nat)
    | NetBuf

  /** What a step shows to the outside: bytes to send, an event for the user, or the error
      that ends the connection. */
  datatype Emit = Send(bytes: seq<byte>) | Item(event: Event) | Failed(error: ZmtpError)

  /** The fields of the connection that the reader reads and writes. */
  datatype Parser = Parser(
    st: ConnState,
    msglen: nat,
    hasMore: bool,
    isCommand: bool,
    peerVer: (byte, byte),
    frames: seq<Frame>,
    outEnable: bool)

  const FRESH: Parser := Parser(InitSend, 0, false, false, (0, 0), [], false)

  const GREETING_HEAD: seq<byte> := [0xff, 0, 0, 0, 0, 0, 0, 0, 0, 0x7f, 3, 1]

  const NULL_MECHANISM: seq<byte> := [0x4e, 0x55, 0x4c, 0x4c]

  function Zeros(n: nat): (s: seq<byte>)
    ensures |s| == n
  {
    seq(n, _ => 0)
  }

  /** The rest of the greeting: the mechanism NULL and 48 zero bytes. */
  function GreetingTail(): (s: seq<byte>)
    ensures |s| == 52
  {
    NULL_MECHANISM + Zeros(48)
  }

  /** The body of the READY command: "\x05READY", then the Socket-Type property. */
  function ReadyBody(sock: SocketType): (s: seq<byte>)
    ensures |s| == 26
  {
    [5, 0x52, 0x45, 0x41, 0x44, 0x59,
     11, 0x53, 0x6f, 0x63, 0x6b, 0x65, 0x74, 0x2d, 0x54, 0x79, 0x70, 0x65,
     0, 0, 0, 4]
    + (if sock.PUSH? then [0x50, 0x55, 0x53, 0x48] else [0x50, 0x55, 0x4c, 0x4c])
  }

  function ReadyCommand(sock: SocketType): (s: seq<byte>)
    ensures |s| == 28
  {
    [4, 26] + ReadyBody(sock)
  }

  /** Bytes that the handshake has put into the output buffer when it reaches a state. */
  function Greeted(st: ConnState): (n: nat)
    ensures n <= 92
  {
    match st
    case InitSend => 0
    case InitRecv1 => 12
    case InitRecv2 => 12
    case InitRecv3 => 12
    case InitRecv4 => 64
    case InitRecv5 => 64
    case _ => 92
  }

  function Sent(ev: seq<Emit>): seq<byte> {
    if ev == [] then [] else (if ev[0].Send? then ev[0].bytes else []) + Sent(ev[1..])
  }

  /** Index of the first NUL, or the length when there is none. */
  function FirstNul(s: seq<byte>): (i: nat)
    ensures i <= |s|
    ensures forall j :: 0 <= j < i ==> s[j] != 0
    ensures i < |s| ==> s[i] == 0
  {
    if s == [] || s[0] == 0 then 0 else 1 + FirstNul(s[1..])
  }

  /** Length of the well-formed UTF-8 sequence at the front of s, 0 when there is none. */
  function Utf8Lead(s: seq<byte>): (n: nat)
    ensures n <= |s|
  {
    if |s| >= 1 && s[0] < 0x80 then 1
    else if |s| >= 2 && 0xc2 <= s[0] < 0xe0 && Tail(s[1]) then 2
    else if |s| >= 3 && 0xe0 <= s[0] < 0xf0 && Tail(s[1]) && Tail(s[2])
            && (s[0] == 0xe0 ==> s[1] >= 0xa0) && (s[0] == 0xed ==> s[1] < 0xa0) then 3
    else if |s| >= 4 && 0xf0 <= s[0] < 0xf5 && Tail(s[1]) && Tail(s[2]) && Tail(s[3])
            && (s[0] == 0xf0 ==> s[1] >= 0x90) && (s[0] == 0xf4 ==> s[1] < 0x90) then 4
    else 0
  }

  predicate Tail(b: byte) {
    0x80 <= b < 0xc0
  }

  predicate IsUtf8(s: seq<byte>) {
    s != [] ==> Utf8Lead(s) > 0 && IsUtf8(s[Utf8Lead(s)..])
  }

  function AfterLength(cap: nat, p: Parser, n: nat): Outcome<Parser, Emit> {
    if n > cap / 2 then Stop([Failed(MsgTooLarge(n))])
    else Next(p.(msglen := n, st := ReadFrameBody(n)), [])
  }

  /** One call of `parse_item` on the bytes it consumes; cap is the capacity of the input
      buffer. The replies to a PING are not part of it: see `Zmtp.ParseItem`. */
  function Step(cap: nat, sock: SocketType, p: Parser, c: seq<byte>): Outcome<Parser, Emit>
    requires |c| == NeedMin(p.st)
  {
    match p.st
    case InitSend => Next(p.(st := InitRecv1), [Send(GREETING_HEAD)])
    case InitRecv1 =>
      if c[0] != 0xff then Stop([Failed(PeerNot3x)]) else Next(p.(st := InitRecv2), [])
    case InitRecv2 =>
      if !Bit(c[8], 0) then Stop([Failed(PeerNot3x)]) else Next(p.(st := InitRecv3), [])
    case InitRecv3 =>
      if c[0] != 3 then Stop([Failed(PeerNot3x)])
      else Next(p.(st := InitRecv4, peerVer := (c[0], p.peerVer.1)), [Send(GreetingTail())])
    case InitRecv4 =>
      if c[0] > 1 then Stop([Failed(UnsupportedVersion)])
      else Next(p.(st := InitRecv5, peerVer := (p.peerVer.0, c[0])), [])
    case InitRecv5 =>
      var i := FirstNul(c[..20]);
      if i >= 20 then Stop([Failed(BadPeerMechanism)])
      else if !IsUtf8(c[..i]) then Stop([Failed(FromUtf8Error)])
      else Next(p.(st := ReadFrameFlags, outEnable := true), [Send(ReadyCommand(sock))])
    case ReadFrameFlags =>
      var cmd := Bit(c[0], 2);
      var more := Bit(c[0], 0);
      Next(p.(st := if Bit(c[0], 1) then ReadFrameLong else ReadFrameShort,
              isCommand := cmd,
              hasMore := if cmd then p.hasMore else more), [])
    case ReadFrameShort => AfterLength(cap, p, c[0])
    case ReadFrameLong => AfterLength(cap, p, FromBe(c))
    case ReadFrameBody(n) =>
      var g := Frame(n, p.hasMore, p.isCommand, c);
      var q := p.(st := ReadFrameFlags, msglen := 0);
      if p.isCommand then Next(q, [Item(Command(g))])
      else if p.hasMore then Next(q.(frames := p.frames + [g]), [])
      else Next(q.(frames := []), [Item(Message(p.frames + [g]))])
  }

  /** The reader as an incremental machine. */
  function Reading(cap: nat, sock: SocketType): Machine<Parser, Emit> {
    Machine(
      (p: Parser) => NeedMin(p.st),
      (p: Parser, c: seq<byte>) => if |c| == NeedMin(p.st) then Step(cap, sock, p, c) else Stop([]),
      (p: Parser) => Rank(p.st))
  }

  /** Zero-length states cannot make the reader spin on a finite buffer. */
  lemma ReadingProgresses(cap: nat, sock: SocketType)
    ensures Progressive(Reading(cap, sock))
  {
    var m := Reading(cap, sock);
    forall p: Parser | m.need(p) == 0 && m.step(p, []).Next?
      ensures m.rank(m.step(p, []).next) < m.rank(p)
    {
      assert p.st == InitSend || p.st == ReadFrameBody(0);
    }
  }

  /** A frame on the wire. */
  datatype Wire = Wire(command: bool, more: bool, long: bool, data: seq<byte>)

  function Flags(w: Wire): byte {
    (if w.more then 1 else 0) + (if w.long then 2 else 0) + (if w.command then 4 else 0)
  }

  function SizeLen(w: Wire): nat {
    if w.long then 8 else 1
  }

  ghost predicate Sendable(cap: nat, w: Wire) {
    |w.data| <= cap / 2 && |w.data| < Pow256(SizeLen(w))
  }

  function EncodeFrame(w: Wire): (s: seq<byte>) {
    [Flags(w)] + ToBe(|w.data|, SizeLen(w)) + w.data
  }

  function EncodeFrames(ws: seq<Wire>): seq<byte> {
    if ws == [] then [] else EncodeFrame(ws[0]) + EncodeFrames(ws[1..])
  }

  /** What one frame does to a reader that waits for flags. */
  function Absorb(p: Parser, w: Wire): (Parser, seq<Emit>) {
    var more := if w.command then p.hasMore else w.more;
    var g := Frame(|w.data|, more, w.command, w.data);
    var q := p.(msglen := 0, isCommand := w.command, hasMore := more);
    if w.command then (q, [Item(Command(g))])
    else if more then (q.(frames := p.frames + [g]), [])
    else (q.(frames := []), [Item(Message(p.frames + [g]))])
  }

  function AbsorbAll(p: Parser, ws: seq<Wire>): (Parser, seq<Emit>)
    decreases |ws|
  {
    if ws == [] then (p, [])
    else
      var (q, ev) := Absorb(p, ws[0]);
      var (r, rest) := AbsorbAll(q, ws[1..]);
      (r, ev + rest)
  }

  lemma DrainOne(cap: nat, sock: SocketType, p: Parser, c: seq<byte>, rest: seq<byte>)
    requires |c| == NeedMin(p.st) && Progressive(Reading(cap, sock))
    requires Step(cap, sock, p, c).Next?
    ensures var s := Step(cap, sock, p, c);
            Drain(Reading(cap, sock), p, c + rest) == Prepend(s.events, Drain(Reading(cap, sock), s.next, rest))
  {
    assert (c + rest)[..|c|] == c && (c + rest)[|c|..] == rest;
  }

  /** The reader's state after the flags of w, and after its length. */
  function AfterFlags(p: Parser, w: Wire): Parser {
    p.(st := if w.long then ReadFrameLong else ReadFrameShort,
       isCommand := w.command,
       hasMore := if w.command then p.hasMore else w.more)
  }

  function BeforeBody(p: Parser, w: Wire): Parser {
    AfterFlags(p, w).(msglen := |w.data|, st := ReadFrameBody(|w.data|))
  }

  lemma FlagsAndLength(cap: nat, sock: SocketType, p: Parser, w: Wire)
    requires p.st == ReadFrameFlags && Sendable(cap, w)
    ensures Step(cap, sock, p, [Flags(w)]) == Next(AfterFlags(p, w), [])
    ensures Step(cap, sock, AfterFlags(p, w), ToBe(|w.data|, SizeLen(w))) == Next(BeforeBody(p, w), [])
  {
    DecodeEncode(|w.data|, SizeLen(w));
    if !w.long {
      ShortLength(|w.data|);
    }
  }

  /** Reading one encoded frame, whatever follows it. */
  lemma DrainFrame(cap: nat, sock: SocketType, p: Parser, w: Wire, rest: seq<byte>)
    requires Progressive(Reading(cap, sock)) && p.st == ReadFrameFlags && Sendable(cap, w)
    ensures var (q, ev) := Absorb(p, w);
            Drain(Reading(cap, sock), p, EncodeFrame(w) + rest) == Prepend(ev, Drain(Reading(cap, sock), q, rest))
  {
    hide *;
    var m := Reading(cap, sock);
    var size := ToBe(|w.data|, SizeLen(w));
    var p1, p2 := AfterFlags(p, w), BeforeBody(p, w);
    FrameNeeds(p, w);
    FlagsAndLength(cap, sock, p, w);
    BodyStep(cap, sock, p, w);
    FrameBytes(w, rest);
    DrainOne(cap, sock, p, [Flags(w)], size + (w.data + rest));
    DrainOne(cap, sock, p1, size, w.data + rest);
    PrependNothing(Drain(m, p1, size + (w.data + rest)));
    PrependNothing(Drain(m, p2, w.data + rest));
    DrainOne(cap, sock, p2, w.data, rest);
  }

  /** A frame that is longer than half of the input buffer ends the connection before its body. */
  lemma LargeFrameIsRefused(cap: nat, sock: SocketType, p: Parser, w: Wire, rest: seq<byte>)
    requires Progressive(Reading(cap, sock)) && p.st == ReadFrameFlags
    requires cap / 2 < |w.data| < Pow256(SizeLen(w))
    ensures Drain(Reading(cap, sock), p, EncodeFrame(w) + rest) == Stopped([Failed(MsgTooLarge(|w.data|))])
  {
    hide Drain;
    hide ToBe;
    hide FromBe;
    var m := Reading(cap, sock);
    var size, n := ToBe(|w.data|, SizeLen(w)), |w.data|;
    FrameBytes(w, rest);
    assert NeedMin(AfterFlags(p, w).st) == |size|;
    DecodeEncode(n, SizeLen(w));
    if !w.long {
      ShortLength(n);
    }
    DrainOne(cap, sock, p, [Flags(w)], size + (w.data + rest));
    PrependNothing(Drain(m, AfterFlags(p, w), size + (w.data + rest)));
    DrainStops(cap, sock, AfterFlags(p, w), size, w.data + rest);
  }

  lemma DrainStops(cap: nat, sock: SocketType, p: Parser, c: seq<byte>, rest: seq<byte>)
    requires |c| == NeedMin(p.st) && Progressive(Reading(cap, sock))
    requires Step(cap, sock, p, c).Stop?
    ensures Drain(Reading(cap, sock), p, c + rest) == Stopped(Step(cap, sock, p, c).events)
  {
    assert (c + rest)[..|c|] == c;
  }

  lemma FrameNeeds(p: Parser, w: Wire)
    requires p.st == ReadFrameFlags
    ensures NeedMin(p.st) == 1 && NeedMin(AfterFlags(p, w).st) == |ToBe(|w.data|, SizeLen(w))|
            && NeedMin(BeforeBody(p, w).st) == |w.data|
  {
  }

  lemma BodyStep(cap: nat, sock: SocketType, p: Parser, w: Wire)
    requires p.st == ReadFrameFlags
    ensures var (q, ev) := Absorb(p, w); Step(cap, sock, BeforeBody(p, w), w.data) == Next(q, ev)
  {
  }

  lemma FrameBytes(w: Wire, rest: seq<byte>)
    ensures EncodeFrame(w) + rest == [Flags(w)] + (ToBe(|w.data|, SizeLen(w)) + (w.data + rest))
  {
    hide ToBe;
  }

  lemma ShortLength(n: nat)
    requires n < 256
    ensures ToBe(n, 1) == [n]
  {
    assert ToBe(n, 1) == ToBe(n / 256, 0) + [n % 256];
  }

  lemma {:induction false} DrainFrames(cap: nat, sock: SocketType, p: Parser, ws: seq<Wire>, rest: seq<byte>)
    requires Progressive(Reading(cap, sock)) && p.st == ReadFrameFlags
    requires forall i :: 0 <= i < |ws| ==> Sendable(cap, ws[i])
    ensures var (q, ev) := AbsorbAll(p, ws);
            Drain(Reading(cap, sock), p, EncodeFrames(ws) + rest) == Prepend(ev, Drain(Reading(cap, sock), q, rest))
    decreases |ws|
  {
    var m := Reading(cap, sock);
    if ws == [] {
      assert [] + rest == rest;
      PrependNothing(Drain(m, p, rest));
    } else {
      var (q, ev) := Absorb(p, ws[0]);
      var (r, evs) := AbsorbAll(q, ws[1..]);
      assert EncodeFrames(ws) + rest == EncodeFrame(ws[0]) + (EncodeFrames(ws[1..]) + rest);
      DrainFrame(cap, sock, p, ws[0], EncodeFrames(ws[1..]) + rest);
      DrainFrames(cap, sock, q, ws[1..], rest);
      PrependPrepend(ev, evs, Drain(m, r, rest));
    }
  }

  /** The user-visible data of a message: one byte string for each frame. */
  type Msg = seq<seq<byte>>

  /** The frames that `emit_to_buffer` writes for frame i and later of a message. */
  function FramesFrom(m: Msg, i: nat): seq<Wire>
    requires i <= |m|
    decreases |m| - i
  {
    if i == |m| then [] else [Wire(false, i + 1 < |m|, true, m[i])] + FramesFrom(m, i + 1)
  }

  function WireOf(ms: seq<Msg>): seq<Wire> {
    if ms == [] then [] else FramesFrom(ms[0], 0) + WireOf(ms[1..])
  }

  function ReceivedFrames(m: Msg): seq<Frame> {
    seq(|m|, i requires 0 <= i < |m| => Frame(|m[i]|, i + 1 < |m|, false, m[i]))
  }

  function Delivered(ms: seq<Msg>): seq<Event> {
    if ms == [] then [] else [Message(ReceivedFrames(ms[0]))] + Delivered(ms[1..])
  }

  function DataFrames(ws: seq<Wire>): seq<Wire> {
    if ws == [] then []
    else if ws[0].command then DataFrames(ws[1..])
    else [ws[0]] + DataFrames(ws[1..])
  }

  function CommandData(ws: seq<Wire>): seq<seq<byte>> {
    if ws == [] then []
    else if ws[0].command then [ws[0].data] + CommandData(ws[1..])
    else CommandData(ws[1..])
  }

  /** The messages among what a reader emitted. */
  function Messages(ev: seq<Emit>): seq<Event> {
    if ev == [] then []
    else if ev[0].Item? && ev[0].event.Message? then [ev[0].event] + Messages(ev[1..])
    else Messages(ev[1..])
  }

  function Commands(ev: seq<Emit>): seq<seq<byte>> {
    if ev == [] then []
    else if ev[0].Item? && ev[0].event.Command? then [ev[0].event.frame.data] + Commands(ev[1..])
    else Commands(ev[1..])
  }

  /** Multipart assembly without any command in between: the reference for `frames`. */
  function Assemble(acc: seq<Frame>, ws: seq<Wire>): (seq<Frame>, seq<Event>)
    decreases |ws|
  {
    if ws == [] then (acc, [])
    else
      var g := Frame(|ws[0].data|, ws[0].more, false, ws[0].data);
      if ws[0].more then Assemble(acc + [g], ws[1..])
      else
        var (rest, ev) := Assemble([], ws[1..]);
        (rest, [Message(acc + [g])] + ev)
  }

  /** Commands do not disturb multipart assembly: the messages are those of the data frames
      alone, and every command comes out with its own data, in order. */
  lemma {:induction false} CommandsDoNotDisturb(p: Parser, ws: seq<Wire>)
    ensures var (q, ev) := AbsorbAll(p, ws);
            && q.st == p.st
            && (q.frames, Messages(ev)) == Assemble(p.frames, DataFrames(ws))
            && Commands(ev) == CommandData(ws)
    decreases |ws|
  {
    if ws != [] {
      var (q, ev) := Absorb(p, ws[0]);
      var (r, rest) := AbsorbAll(q, ws[1..]);
      CommandsDoNotDisturb(q, ws[1..]);
      if ev != [] {
        assert (ev + rest)[1..] == rest;
      } else {
        assert ev + rest == rest;
      }
      if !ws[0].command {
        assert DataFrames(ws)[1..] == DataFrames(ws[1..]);
      }
    }
  }

  lemma FrameAt(m: Msg, i: nat)
    requires i < |m|
    ensures |ReceivedFrames(m)| == |m| && ReceivedFrames(m)[i] == Frame(|m[i]|, i + 1 < |m|, false, m[i])
  {
  }

  lemma {:induction false} AssembleMessage(m: Msg, i: nat, rest: seq<Wire>)
    requires i < |m|
    ensures var (acc, ev) := Assemble([], rest);
            Assemble(ReceivedFrames(m)[..i], FramesFrom(m, i) + rest) == (acc, [Message(ReceivedFrames(m))] + ev)
    decreases |m| - i
  {
    hide ReceivedFrames;
    hide Assemble;
    hide FramesFrom;
    FrameAt(m, i);
    FramesAhead(m, i, rest);
    var fr := ReceivedFrames(m);
    assert fr[..i] + [fr[i]] == fr[..i + 1];
    AssembleOne(fr[..i], FramesFrom(m, i) + rest);
    if i + 1 < |m| {
      AssembleMessage(m, i + 1, rest);
    } else {
      assert fr[..i + 1] == fr;
    }
  }

  lemma FramesAhead(m: Msg, i: nat, rest: seq<Wire>)
    requires i < |m|
    ensures var ws := FramesFrom(m, i) + rest;
            && ws != [] && ws[0] == Wire(false, i + 1 < |m|, true, m[i])
            && ws[1..] == if i + 1 < |m| then FramesFrom(m, i + 1) + rest else rest
  {
  }

  lemma AssembleOne(acc: seq<Frame>, ws: seq<Wire>)
    requires ws != []
    ensures var g := Frame(|ws[0].data|, ws[0].more, false, ws[0].data);
            && (ws[0].more ==> Assemble(acc, ws) == Assemble(acc + [g], ws[1..]))
            && (!ws[0].more ==>
                  && Assemble(acc, ws).0 == Assemble([], ws[1..]).0
                  && Assemble(acc, ws).1 == [Message(acc + [g])] + Assemble([], ws[1..]).1)
  {
  }

  lemma {:induction false} AssembleDelivers(ms: seq<Msg>)
    requires forall i :: 0 <= i < |ms| ==> ms[i] != []
    ensures Assemble([], WireOf(ms)) == ([], Delivered(ms))
  {
    if ms != [] {
      AssembleMessage(ms[0], 0, WireOf(ms[1..]));
      assert ReceivedFrames(ms[0])[..0] == [];
      AssembleDelivers(ms[1..]);
    }
  }

  /** Round trip under any chunking. The bytes of any list of non-empty messages, with command
      frames of either length form inserted anywhere, cut into chunks in any way, make the
      reader deliver exactly those messages, and exactly those commands, in order; it ends
      where it started, with nothing left over. */
  lemma RoundTrip(cap: nat, sock: SocketType, p: Parser, ms: seq<Msg>, ws: seq<Wire>, chunks: seq<seq<byte>>)
    requires p.st == ReadFrameFlags && p.frames == []
    requires forall i :: 0 <= i < |ms| ==> ms[i] != []
    requires forall i :: 0 <= i < |ws| ==> Sendable(cap, ws[i])
    requires DataFrames(ws) == WireOf(ms)
    requires Concat(chunks) == EncodeFrames(ws)
    ensures Progressive(Reading(cap, sock))
    ensures var r := FeedAll(Reading(cap, sock), Running(p, [], []), chunks);
            && r.Running? && r.unread == [] && r.state.st == ReadFrameFlags && r.state.frames == []
            && Messages(r.emitted) == Delivered(ms)
            && Commands(r.emitted) == CommandData(ws)
  {
    ReadingProgresses(cap, sock);
    var m := Reading(cap, sock);
    var (q, ev) := AbsorbAll(p, ws);
    CommandsDoNotDisturb(p, ws);
    AssembleDelivers(ms);
    assert Drain(m, p, []) == Running(p, [], []);
    AnyChunking(m, p, [], chunks);
    assert [] + Concat(chunks) == EncodeFrames(ws) + [];
    DrainFrames(cap, sock, p, ws, []);
    assert Drain(m, q, []) == Running(q, [], []);
    assert ev + [] == ev;
  }
}
