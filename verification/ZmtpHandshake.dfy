/**
 Two peers that both run the machine of `ZmtpWire`, connected by two FIFO byte channels: the
 handshake of ingest-bsread/src/zmtp/zmtpproto.rs as a protocol.
 */
module ZmtpHandshake {
  import opened Bytes
  import opened Wrappers
  import opened Incremental
  import opened ZmtpWire
  import opened ZmtpGreeting

  const CAP: nat := 1024 * 128

  /** One end: its reader, its two buffers, and what it showed to its user. */
  datatype Peer = Peer(sock: SocketType, p: Parser, inb: seq<byte>, outb: seq<byte>, shown: seq<Emit>)

  /** Both ends; ab carries the bytes from a to b. */
  datatype Net = Net(a: Peer, b: Peer, ab: seq<byte>, ba: seq<byte>)

  datatype Side = A | B

  /** One action of one end: it parses, writes n bytes to its channel, or reads n bytes. */
  datatype Action = Parse(who: Side) | Write(who: Side, n: nat) | Read(who: Side, n: nat)

  function Swap(net: Net): Net {
    Net(net.b, net.a, net.ba, net.ab)
  }

  function Start(sa: SocketType, sb: SocketType): Net {
    Net(Peer(sa, FRESH, [], [], []), Peer(sb, FRESH, [], [], []), [], [])
  }

  /** As in `loop_body`: parse when the bytes are there, and read only when they are not. */
  predicate Enabled(net: Net, act: Action) {
    var n := if act.who == A then net else Swap(net);
    match act
    case Parse(_) => NeedMin(n.a.p.st) <= |n.a.inb|
    case Write(_, k) => 1 <= k <= |n.a.outb|
    case Read(_, k) => 1 <= k <= |n.ba| && |n.a.inb| < NeedMin(n.a.p.st)
  }

  function Shown(ev: seq<Emit>): seq<Emit> {
    if ev == [] then [] else (if ev[0].Send? then [] else [ev[0]]) + Shown(ev[1..])
  }

  function ParseA(n: Net): Option<Net>
    requires NeedMin(n.a.p.st) <= |n.a.inb|
  {
    var need := NeedMin(n.a.p.st);
    match Step(CAP, n.a.sock, n.a.p, n.a.inb[..need])
    case Stop(_) => None
    case Next(q, ev) =>
      Some(n.(a := Peer(n.a.sock, q, n.a.inb[need..], n.a.outb + Sent(ev), n.a.shown + Shown(ev))))
  }

  /** None when the step ends the connection with an error. */
  function Act(net: Net, act: Action): Option<Net>
    requires Enabled(net, act)
  {
    var n := if act.who == A then net else Swap(net);
    var r := match act
      case Parse(_) => ParseA(n)
      case Write(_, k) => Some(n.(a := n.a.(outb := n.a.outb[k..]), ab := n.ab + n.a.outb[..k]))
      case Read(_, k) => Some(n.(a := n.a.(inb := n.a.inb + n.ba[..k]), ba := n.ba[k..]));
    if r.None? || act.who == A then r else Some(Swap(r.value))
  }

  /** Everything an end sends during the handshake: a 64-byte greeting and a READY command. */
  function Script(sock: SocketType): (s: seq<byte>)
    ensures |s| == 92
  {
    GREETING_HEAD + GreetingTail() + ReadyCommand(sock)
  }

  /** The event in which an end receives the other end's READY. */
  function ReadyEvent(sock: SocketType): Emit {
    Item(Command(Frame(26, false, true, ReadyBody(sock))))
  }

  /** How many bytes of the other end's script an end has parsed. */
  function Parsed(p: Parser, shown: seq<Emit>): nat {
    match p.st
    case InitSend => 0
    case InitRecv1 => 0
    case InitRecv2 => 1
    case InitRecv3 => 10
    case InitRecv4 => 11
    case InitRecv5 => 12
    case ReadFrameFlags => if shown == [] then 64 else 92
    case ReadFrameShort => 65
    case ReadFrameLong => 65
    case ReadFrameBody(_) => 66
  }

  /** An end that is where a reader of the script can be. */
  ghost predicate OnScript(p: Parser, shown: seq<Emit>, other: SocketType) {
    && !p.hasMore
    && !p.st.ReadFrameLong?
    && (p.st.ReadFrameBody? ==> p.st.msglen == 26)
    && (p.st.ReadFrameShort? || p.st.ReadFrameBody? ==> p.isCommand)
    && shown == if Parsed(p, shown) == 92 then [ReadyEvent(other)] else []
  }

  /** One direction: what the sender has produced is what the receiver has parsed, followed by
      what is still under way, and all of it is the script. */
  ghost predicate Linked(sender: Peer, channel: seq<byte>, x: Peer) {
    var from, to := Parsed(x.p, x.shown), Greeted(sender.p.st);
    from <= to && x.inb + channel + sender.outb == Script(sender.sock)[from..to]
  }

  ghost predicate Inv(net: Net) {
    && OnScript(net.a.p, net.a.shown, net.b.sock) && OnScript(net.b.p, net.b.shown, net.a.sock)
    && Linked(net.a, net.ab, net.b) && Linked(net.b, net.ba, net.a)
  }

  predicate Complete(x: Peer, other: SocketType) {
    x.p.st == ReadFrameFlags && x.shown == [ReadyEvent(other)]
  }

  /** The script, cut the way the reader asks for it. */
  lemma ScriptParts(s: SocketType)
    ensures var h := Script(s);
            && h[0] == 0xff && h[9] == 0x7f && h[10] == 3 && h[11] == 1
            && h[12..64] == GreetingTail()
            && h[64] == 4 && h[65] == 26 && h[66..92] == ReadyBody(s)
            && h[..12] == GREETING_HEAD && h[64..92] == ReadyCommand(s)
  {
  }

  lemma TailNames()
    ensures FirstNul(GreetingTail()[..20]) == 4 && IsUtf8(GreetingTail()[..4])
  {
    var t := GreetingTail()[..20];
    assert t[0] == 0x4e && t[1] == 0x55 && t[2] == 0x4c && t[3] == 0x4c && t[4] == 0;
    var n := GreetingTail()[..4];
    assert n == [0x4e, 0x55, 0x4c, 0x4c];
    assert Utf8Lead(n) == 1 && Utf8Lead(n[1..]) == 1 && Utf8Lead(n[1..][1..]) == 1 && Utf8Lead(n[1..][1..][1..]) == 1;
    assert n[1..][1..][1..][1..] == [];
  }

  /** Reading c, the next part of the other end's script, succeeds, and what it makes the end
      send is the next part of its own script. */
  ghost predicate Advances(x: Peer, other: SocketType, c: seq<byte>)
    requires |c| == NeedMin(x.p.st)
  {
    var s := Step(CAP, x.sock, x.p, c);
    && s.Next?
    && var shown := x.shown + Shown(s.events);
       && OnScript(s.next, shown, other)
       && Parsed(s.next, shown) == Parsed(x.p, x.shown) + |c|
       && Greeted(x.p.st) <= Greeted(s.next.st)
       && Sent(s.events) == Script(x.sock)[Greeted(x.p.st)..Greeted(s.next.st)]
       && (|c| == 0 ==> Greeted(x.p.st) < Greeted(s.next.st))
  }

  ghost predicate Next(x: Peer, other: SocketType, c: seq<byte>) {
    var from := Parsed(x.p, x.shown);
    && OnScript(x.p, x.shown, other) && |c| == NeedMin(x.p.st)
    && from + |c| <= 92 && c == Script(other)[from..from + |c|]
  }

  lemma OneEmit(e: Emit)
    ensures Sent([e]) == if e.Send? then e.bytes else []
    ensures Shown([e]) == if e.Send? then [] else [e]
  {
    assert [e][1..] == [];
  }

  lemma StepStarts(x: Peer, other: SocketType)
    requires Next(x, other, []) && x.p.st.InitSend?
    ensures Advances(x, other, [])
  {
    ScriptParts(x.sock);
  }

  lemma StepVersion(x: Peer, other: SocketType, c: seq<byte>)
    requires Next(x, other, c) && x.p.st.InitRecv3?
    ensures Advances(x, other, c)
  {
    hide FirstNul;
    hide IsUtf8;
    ScriptParts(other);
    ScriptParts(x.sock);
    assert c[0] == Script(other)[10];
  }

  lemma MechanismStep(sock: SocketType, p: Parser)
    requires p.st.InitRecv5?
    ensures Step(CAP, sock, p, GreetingTail())
         == Outcome.Next(p.(st := ReadFrameFlags, outEnable := true), [Send(ReadyCommand(sock))])
  {
    hide FirstNul;
    hide IsUtf8;
    hide GreetingTail;
    hide ReadyCommand;
    TailNames();
    assert GreetingTail()[..20][..4] == GreetingTail()[..4];
  }

  lemma StepMechanism(x: Peer, other: SocketType, c: seq<byte>)
    requires Next(x, other, c) && x.p.st.InitRecv5?
    ensures Advances(x, other, c)
  {
    hide Step;
    hide Script;
    hide GreetingTail;
    hide ReadyCommand;
    ScriptParts(other);
    ScriptParts(x.sock);
    OneEmit(Send(ReadyCommand(x.sock)));
    MechanismStep(x.sock, x.p);
    assert c == Script(other)[12..64] == GreetingTail();
  }

  lemma StepReads(x: Peer, other: SocketType, c: seq<byte>)
    requires Next(x, other, c)
    requires x.p.st.InitRecv1? || x.p.st.InitRecv2? || x.p.st.InitRecv4?
    ensures Advances(x, other, c)
  {
    hide FirstNul;
    hide IsUtf8;
    hide Script;
    hide GreetingTail;
    hide ReadyCommand;
    hide ReadyBody;
    ScriptParts(other);
    assert Script(x.sock)[Greeted(x.p.st)..Greeted(x.p.st)] == [];
    assert c[|c| - 1] == Script(other)[Parsed(x.p, x.shown) + |c| - 1];
  }

  lemma StepReadsSize(x: Peer, other: SocketType, c: seq<byte>)
    requires Next(x, other, c) && (x.p.st.ReadFrameFlags? || x.p.st.ReadFrameShort?)
    ensures Advances(x, other, c)
  {
    hide FirstNul;
    hide IsUtf8;
    hide Script;
    hide GreetingTail;
    hide ReadyCommand;
    hide ReadyBody;
    ScriptParts(other);
    assert Script(x.sock)[92..92] == [];
    assert c[0] == Script(other)[Parsed(x.p, x.shown)];
  }

  lemma StepReadsReady(x: Peer, other: SocketType, c: seq<byte>)
    requires Next(x, other, c) && x.p.st.ReadFrameBody?
    ensures Advances(x, other, c)
  {
    hide FirstNul;
    hide IsUtf8;
    hide Script;
    hide GreetingTail;
    hide ReadyCommand;
    hide ReadyBody;
    ScriptParts(other);
    assert Script(x.sock)[92..92] == [];
    assert c == Script(other)[66..92];
    OneEmit(ReadyEvent(other));
    assert x.shown + [ReadyEvent(other)] == [ReadyEvent(other)];
  }

  lemma StepOnScript(x: Peer, other: SocketType, c: seq<byte>)
    requires Next(x, other, c)
    ensures Advances(x, other, c)
  {
    hide Script;
    hide Advances;
    match x.p.st {
      case InitSend => assert c == []; StepStarts(x, other);
      case InitRecv3 => StepVersion(x, other, c);
      case InitRecv5 => StepMechanism(x, other, c);
      case InitRecv1 => StepReads(x, other, c);
      case InitRecv2 => StepReads(x, other, c);
      case InitRecv4 => StepReads(x, other, c);
      case ReadFrameLong =>
      case ReadFrameBody(_) => StepReadsReady(x, other, c);
      case _ => StepReadsSize(x, other, c);
    }
  }

  /** The receiver parses `need` bytes, which are the next ones of the script. */
  lemma Consumes(sender: Peer, channel: seq<byte>, x: Peer, need: nat)
    requires Linked(sender, channel, x) && need <= |x.inb|
    ensures var from := Parsed(x.p, x.shown);
            && from + need <= Greeted(sender.p.st)
            && x.inb[..need] == Script(sender.sock)[from..from + need]
            && x.inb[need..] + channel + sender.outb == Script(sender.sock)[from + need..Greeted(sender.p.st)]
  {
    hide Script;
    var from, to := Parsed(x.p, x.shown), Greeted(sender.p.st);
    var all := x.inb + channel + sender.outb;
    assert x.inb[..need] == all[..need];
    assert x.inb[need..] + channel + sender.outb == all[need..];
  }

  /** The sender produces the next part of its script. */
  lemma Produces(x: Peer, y: Peer, channel: seq<byte>, receiver: Peer)
    requires Linked(x, channel, receiver) && y.sock == x.sock && Greeted(x.p.st) <= Greeted(y.p.st)
    requires y.outb == x.outb + Script(x.sock)[Greeted(x.p.st)..Greeted(y.p.st)]
    ensures Linked(y, channel, receiver)
  {
    hide Script;
    var h := Script(x.sock);
    var i, j, k := Parsed(receiver.p, receiver.shown), Greeted(x.p.st), Greeted(y.p.st);
    assert h[i..k] == h[i..j] + h[j..k];
    assert receiver.inb + channel + y.outb == (receiver.inb + channel + x.outb) + h[j..k];
  }

  lemma ParseKeepsInv(n: Net)
    requires Inv(n) && NeedMin(n.a.p.st) <= |n.a.inb|
    ensures ParseA(n).Some? && Inv(ParseA(n).value) && Weight(ParseA(n).value) < Weight(n)
  {
    hide Script;
    hide Step;
    hide OnScript;
    var x := n.a;
    var need := NeedMin(x.p.st);
    Consumes(n.b, n.ba, x, need);
    StepOnScript(x, n.b.sock, x.inb[..need]);
    Produces(x, ParseA(n).value.a, n.ab, n.b);
  }

  /** Bytes still to be produced, to be written, to be read and to be parsed, in this order of
      weight. */
  ghost function Weight(net: Net): int {
    4 * (92 - Greeted(net.a.p.st)) + 3 * |net.a.outb| + 2 * |net.ab| + |net.b.inb|
    + 4 * (92 - Greeted(net.b.p.st)) + 3 * |net.b.outb| + 2 * |net.ba| + |net.a.inb|
  }

  lemma WriteKeepsLink(x: Peer, channel: seq<byte>, receiver: Peer, k: nat)
    requires Linked(x, channel, receiver) && k <= |x.outb|
    ensures Linked(x.(outb := x.outb[k..]), channel + x.outb[..k], receiver)
  {
    hide Script;
    assert receiver.inb + (channel + x.outb[..k]) + x.outb[k..] == receiver.inb + channel + x.outb;
  }

  lemma ReadKeepsLink(sender: Peer, channel: seq<byte>, x: Peer, k: nat)
    requires Linked(sender, channel, x) && k <= |channel|
    ensures Linked(sender, channel[k..], x.(inb := x.inb + channel[..k]))
  {
    hide Script;
    assert (x.inb + channel[..k]) + channel[k..] + sender.outb == x.inb + channel + sender.outb;
  }

  /** Links see of a peer only the fields they mention. */
  lemma OtherFields(x: Peer, channel: seq<byte>, y: Peer, k: nat, s: seq<byte>)
    requires k <= |x.outb|
    ensures Linked(y, channel, x.(outb := x.outb[k..])) == Linked(y, channel, x)
    ensures Linked(x.(inb := s), channel, y) == Linked(x, channel, y)
  {
    hide Script;
  }

  /** Every action keeps the invariant, none ends the connection, and each brings the end of the
      handshake closer. */
  lemma ActKeepsInv(net: Net, act: Action)
    requires Inv(net) && Enabled(net, act)
    ensures Act(net, act).Some?
    ensures var m := Act(net, act).value;
            && Inv(m) && m.a.sock == net.a.sock && m.b.sock == net.b.sock
            && 0 <= Weight(m) < Weight(net)
  {
    hide Inv;
    hide Act;
    hide Enabled;
    hide Weight;
    if act.who == A {
      ActAKeepsInv(net, act);
    } else {
      SwapKeeps(net);
      SwappedAct(net, act);
      ActAKeepsInv(Swap(net), act.(who := A));
      SwapKeeps(Act(Swap(net), act.(who := A)).value);
    }
  }

  lemma SwapKeeps(net: Net)
    ensures Inv(Swap(net)) == Inv(net) && Weight(Swap(net)) == Weight(net)
  {
    hide Script;
    hide Linked;
    hide OnScript;
  }

  lemma SwappedAct(net: Net, act: Action)
    requires act.who == B && Enabled(net, act)
    ensures Enabled(Swap(net), act.(who := A))
    ensures var r := Act(Swap(net), act.(who := A)); Act(net, act) == if r.None? then r else Some(Swap(r.value))
  {
    hide ParseA;
  }

  lemma ActAKeepsInv(net: Net, act: Action)
    requires act.who == A && Inv(net) && Enabled(net, act)
    ensures Act(net, act).Some?
    ensures var m := Act(net, act).value;
            && Inv(m) && m.a.sock == net.a.sock && m.b.sock == net.b.sock
            && 0 <= Weight(m) < Weight(net)
  {
    hide Script;
    hide Step;
    hide OnScript;
    hide Linked;
    match act {
      case Parse(_) =>
        ParseKeepsInv(net);
      case Write(_, k) =>
        WriteKeepsLink(net.a, net.ab, net.b, k);
        OtherFields(net.a, net.ba, net.b, k, []);
      case Read(_, k) =>
        ReadKeepsLink(net.b, net.ba, net.a, k);
        OtherFields(net.a, net.ab, net.b, 0, net.a.inb + net.ba[..k]);
    }
  }

  /** No stuck state: as long as one of the ends has not finished, some end can act. */
  lemma NeverStuck(net: Net)
    requires Inv(net) && !(Complete(net.a, net.b.sock) && Complete(net.b, net.a.sock))
    ensures exists act: Action :: Enabled(net, act)
  {
    hide Script;
    var a, b := net.a, net.b;
    if |a.outb| > 0 {
      assert Enabled(net, Write(A, 1));
    } else if |b.outb| > 0 {
      assert Enabled(net, Write(B, 1));
    } else if NeedMin(a.p.st) <= |a.inb| {
      assert Enabled(net, Parse(A));
    } else if NeedMin(b.p.st) <= |b.inb| {
      assert Enabled(net, Parse(B));
    } else if |net.ab| > 0 {
      assert Enabled(net, Read(B, 1));
    } else if |net.ba| > 0 {
      assert Enabled(net, Read(A, 1));
    } else {
      AllQuiet(net);
      assert false;
    }
  }

  lemma AllQuiet(net: Net)
    requires Inv(net) && net.a.outb == net.b.outb == net.ab == net.ba == []
    ensures |net.a.inb| == Greeted(net.b.p.st) - Parsed(net.a.p, net.a.shown)
    ensures |net.b.inb| == Greeted(net.a.p.st) - Parsed(net.b.p, net.b.shown)
  {
    hide Script;
    assert |net.a.inb + net.ba + net.b.outb| == |net.a.inb|;
    assert |net.b.inb + net.ab + net.a.outb| == |net.b.inb|;
  }

  /** A run: the state before each action and after the last one. */
  ghost predicate IsRun(sa: SocketType, sb: SocketType, nets: seq<Net>, acts: seq<Action>) {
    && |nets| == |acts| + 1 && nets[0] == Start(sa, sb)
    && forall i :: 0 <= i < |acts| ==> Enabled(nets[i], acts[i]) && Act(nets[i], acts[i]) == Some(nets[i + 1])
  }

  lemma {:induction false} RunKeepsInv(sa: SocketType, sb: SocketType, nets: seq<Net>, acts: seq<Action>, i: nat)
    requires IsRun(sa, sb, nets, acts) && i < |nets|
    ensures Inv(nets[i]) && nets[i].a.sock == sa && nets[i].b.sock == sb
    ensures 0 <= Weight(nets[i]) <= 736 - i
  {
    hide Act;
    hide Enabled;
    hide ReadyCommand;
    if i == 0 {
      assert Script(sa)[0..0] == [] && Script(sb)[0..0] == [];
    } else {
      RunKeepsInv(sa, sb, nets, acts, i - 1);
      ActKeepsInv(nets[i - 1], acts[i - 1]);
    }
  }

  // ---- what is sent ----

  function End(net: Net, who: Side): Peer {
    if who == A then net.a else net.b
  }

  /** What an end writes to its channel in an action. */
  function Wrote(net: Net, act: Action, who: Side): seq<byte>
    requires Enabled(net, act)
  {
    if act.Write? && act.who == who then End(net, who).outb[..act.n] else []
  }

  /** Everything that an end has written in the first i actions. */
  ghost function Written(sa: SocketType, sb: SocketType, nets: seq<Net>, acts: seq<Action>, who: Side,
                         i: nat): seq<byte>
    requires IsRun(sa, sb, nets, acts) && i <= |acts|
  {
    if i == 0 then [] else Written(sa, sb, nets, acts, who, i - 1) + Wrote(nets[i - 1], acts[i - 1], who)
  }

  /** What a step makes an end send is the next part of its script. */
  lemma ParseProduces(n: Net)
    requires Inv(n) && NeedMin(n.a.p.st) <= |n.a.inb|
    ensures ParseA(n).Some?
    ensures var x, y := n.a, ParseA(n).value.a;
            && Greeted(x.p.st) <= Greeted(y.p.st)
            && y.outb == x.outb + Script(x.sock)[Greeted(x.p.st)..Greeted(y.p.st)]
            && ParseA(n).value.b == n.b
  {
    hide Script;
    hide Step;
    hide OnScript;
    var need := NeedMin(n.a.p.st);
    Consumes(n.b, n.ba, n.a, need);
    StepOnScript(n.a, n.b.sock, n.a.inb[..need]);
  }

  lemma ActOutput(net: Net, act: Action, who: Side)
    requires Inv(net) && Enabled(net, act) && Act(net, act).Some?
    ensures var x, y := End(net, who), End(Act(net, act).value, who);
            && Greeted(x.p.st) <= Greeted(y.p.st)
            && Wrote(net, act, who) + y.outb == x.outb + Script(x.sock)[Greeted(x.p.st)..Greeted(y.p.st)]
  {
    hide Script;
    hide ParseA;
    hide Greeted;
    hide Inv;
    var x := End(net, who);
    var n := if act.who == A then net else Swap(net);
    SwapKeeps(net);
    assert x.outb + Script(x.sock)[Greeted(x.p.st)..Greeted(x.p.st)] == x.outb;
    if act.Parse? {
      ParseProduces(n);
    }
  }

  /** At any time, what an end has written and what it still holds back is the part of its script
      that it has come to. */
  lemma {:induction false} SendsItsScript(sa: SocketType, sb: SocketType, nets: seq<Net>, acts: seq<Action>,
                                          who: Side, i: nat)
    requires IsRun(sa, sb, nets, acts) && i <= |acts|
    ensures var x := End(nets[i], who);
            && x.sock == (if who == A then sa else sb)
            && Written(sa, sb, nets, acts, who, i) + x.outb == Script(x.sock)[..Greeted(x.p.st)]
  {
    RunKeepsInv(sa, sb, nets, acts, i);
    hide IsRun;
    hide Inv;
    hide Act;
    hide Enabled;
    hide Weight;
    hide Written;
    hide Wrote;
    hide Script;
    hide Greeted;
    if i == 0 {
      NothingSent(sa, sb, nets, acts, who);
    } else {
      SendsItsScript(sa, sb, nets, acts, who, i - 1);
      RunStep(sa, sb, nets, acts, who, i);
      ActOutput(nets[i - 1], acts[i - 1], who);
      var x, y := End(nets[i - 1], who), End(nets[i], who);
      OneMore(Written(sa, sb, nets, acts, who, i - 1), Wrote(nets[i - 1], acts[i - 1], who), x.outb, y.outb,
              Script(x.sock), Greeted(x.p.st), Greeted(y.p.st));
    }
  }

  lemma NothingSent(sa: SocketType, sb: SocketType, nets: seq<Net>, acts: seq<Action>, who: Side)
    requires IsRun(sa, sb, nets, acts)
    ensures var x := End(nets[0], who);
            Written(sa, sb, nets, acts, who, 0) + x.outb == [] == Script(x.sock)[..Greeted(x.p.st)]
  {
    hide Script;
  }

  lemma RunStep(sa: SocketType, sb: SocketType, nets: seq<Net>, acts: seq<Action>, who: Side, i: nat)
    requires IsRun(sa, sb, nets, acts) && 0 < i <= |acts|
    ensures Inv(nets[i - 1]) && Enabled(nets[i - 1], acts[i - 1]) && Act(nets[i - 1], acts[i - 1]) == Some(nets[i])
    ensures Written(sa, sb, nets, acts, who, i)
         == Written(sa, sb, nets, acts, who, i - 1) + Wrote(nets[i - 1], acts[i - 1], who)
  {
    hide Act;
    hide Enabled;
    RunKeepsInv(sa, sb, nets, acts, i - 1);
  }

  lemma OneMore(w: seq<byte>, v: seq<byte>, xo: seq<byte>, yo: seq<byte>, h: seq<byte>, j: nat, k: nat)
    requires j <= k <= |h| && w + xo == h[..j] && v + yo == xo + h[j..k]
    ensures (w + v) + yo == h[..k]
  {
    assert (w + v) + yo == w + (v + yo);
    assert w + (xo + h[j..k]) == (w + xo) + h[j..k];
    assert h[..j] + h[j..k] == h[..k];
  }

  /** An end that waits for frames and has been shown one thing: a command that tells, in its 26
      bytes, the type of the other end. */
  predicate Introduced(x: Peer, other: SocketType) {
    && x.p.st == ReadFrameFlags
    && |x.shown| == 1 && x.shown[0].Item? && x.shown[0].event.Command?
    && var f := x.shown[0].event.frame;
       f.msglen == |f.data| == 26 && f.isCommand && !f.hasMore && TellsType(f.data, other)
  }

  lemma CompleteIsIntroduced(x: Peer, other: SocketType)
    requires Complete(x, other)
    ensures Introduced(x, other)
  {
    hide TellsType;
    hide ReadyBody;
    ReadyTellsType(other);
  }

  /** The handshake. Under any schedule and any sizes of reads and writes, a run has at most 736
      actions, and it can stop only where both ends have written exactly a greeting of version 3.1
      and a READY command that tells their own type, have been shown one command that tells the
      other's and nothing else, and wait for frames with all buffers and channels empty. */
  lemma HandshakeCompletes(sa: SocketType, sb: SocketType, nets: seq<Net>, acts: seq<Action>)
    requires IsRun(sa, sb, nets, acts)
    ensures |acts| <= 736
    ensures var n := nets[|acts|];
            (forall act: Action :: !Enabled(n, act)) ==>
              && Introduced(n.a, sb) && Introduced(n.b, sa)
              && n.a.inb == n.a.outb == n.b.inb == n.b.outb == n.ab == n.ba == []
              && Introduces(Written(sa, sb, nets, acts, A, |acts|), sa)
              && Introduces(Written(sa, sb, nets, acts, B, |acts|), sb)
  {
    hide Script;
    hide Introduced;
    hide Introduces;
    var n := nets[|acts|];
    RunKeepsInv(sa, sb, nets, acts, |acts|);
    if forall act: Action :: !Enabled(n, act) {
      if !(Complete(n.a, sb) && Complete(n.b, sa)) {
        NeverStuck(n);
        assert false;
      }
      CompleteIsIntroduced(n.a, sb);
      CompleteIsIntroduced(n.b, sa);
      AllEmpty(n);
      WroteItsScript(sa, sb, nets, acts, A);
      WroteItsScript(sa, sb, nets, acts, B);
    }
  }

  lemma AllEmpty(n: Net)
    requires Inv(n) && Complete(n.a, n.b.sock) && Complete(n.b, n.a.sock)
    ensures n.a.inb == n.a.outb == n.b.inb == n.b.outb == n.ab == n.ba == []
  {
    hide Script;
    assert Script(n.a.sock)[92..92] == [] && Script(n.b.sock)[92..92] == [];
    assert n.a.inb + n.ba + n.b.outb == [] && n.b.inb + n.ab + n.a.outb == [];
  }

  lemma WroteItsScript(sa: SocketType, sb: SocketType, nets: seq<Net>, acts: seq<Action>, who: Side)
    requires IsRun(sa, sb, nets, acts)
    requires var x := End(nets[|acts|], who); x.outb == [] && Greeted(x.p.st) == 92
    ensures Introduces(Written(sa, sb, nets, acts, who, |acts|), if who == A then sa else sb)
  {
    hide Introduces;
    hide Act;
    hide Enabled;
    hide Script;
    var w := Written(sa, sb, nets, acts, who, |acts|);
    SendsItsScript(sa, sb, nets, acts, who, |acts|);
    var sock := End(nets[|acts|], who).sock;
    assert w + [] == w;
    assert Script(sock)[..92] == Script(sock);
    ScriptIs(sock);
    ScriptIntroduces(Script(sock), sock);
  }

  lemma ScriptIs(sock: SocketType)
    ensures Script(sock) == GREETING_HEAD + GreetingTail() + ReadyCommand(sock)
  {
  }
}
