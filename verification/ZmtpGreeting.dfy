/**
 What the two ends of a connection tell each other before the first message ("Greeting" and "Null
 Security Mechanism" of 37/ZMTP), read as the specification has it, and the greetings that
 ingest-bsread/src/zmtp/zmtpproto.rs accepts.
 */
module ZmtpGreeting {
  import opened Bytes
  import opened Wrappers
  import opened Incremental
  import opened ZmtpWire
  import opened Utf8

  function TypeName(sock: SocketType): string {
    match sock
    case PUSH => "PUSH"
    case PULL => "PULL"
  }

  // ---- the grammar ----

  datatype Greeting = Greeting(major: byte, minor: byte, mechanism: seq<byte>, asServer: bool)

  /** signature version mechanism as-server filler */
  ghost function ReadGreeting(s: seq<byte>): Option<Greeting>
    requires |s| == 64
  {
    var n := FirstNul(s[12..32]);
    if s[0] == 0xff && s[9] == 0x7f && s[32] <= 1 && AllZero(s[12 + n..32]) && AllZero(s[33..]) then
      Some(Greeting(s[10], s[11], s[12..12 + n], s[32] == 1))
    else None
  }

  ghost predicate AllZero(s: seq<byte>) {
    forall i :: 0 <= i < |s| ==> s[i] == 0
  }

  datatype Property = Property(name: seq<byte>, value: seq<byte>)

  /** A name is preceded by its length in one byte, a value by its length in four. */
  function ReadProperties(s: seq<byte>): Option<seq<Property>>
    decreases |s|
  {
    if s == [] then Some([])
    else
      var n := s[0] as nat;
      if |s| < 5 + n then None
      else
        var m := FromBe(s[1 + n..5 + n]);
        if |s| < 5 + n + m then None
        else
          var more := ReadProperties(s[5 + n + m..]);
          if more.None? then None else Some([Property(s[1..1 + n], s[5 + n..5 + n + m])] + more.value)
  }

  /** The properties of a READY command: None if it is another command or not well-formed. */
  function ReadReady(s: seq<byte>): Option<seq<Property>> {
    if |s| < 6 || s[0] != 5 || s[1..6] != Ascii("READY") then None else ReadProperties(s[6..])
  }

  /** A READY that says of which type its sender is, and nothing else. */
  predicate TellsType(s: seq<byte>, sock: SocketType) {
    ReadReady(s) == Some([Property(Ascii("Socket-Type"), Ascii(TypeName(sock)))])
  }

  /** The greeting of version 3.1 of a client without security, padded with zeros, then a READY in a short command
      frame. */
  ghost predicate Introduces(s: seq<byte>, sock: SocketType) {
    && |s| == 92 && AllZero(s[1..9])
    && ReadGreeting(s[..64]) == Some(Greeting(3, 1, Ascii("NULL"), false))
    && s[64] == 4 && s[65] == |s[66..]| && TellsType(s[66..], sock)
  }

  // ---- what the source sends is well-formed ----

  lemma {:induction false} PropertyReads(name: seq<byte>, value: seq<byte>, rest: seq<byte>)
    requires |name| < 256 && |value| < 256 && ReadProperties(rest).Some?
    ensures ReadProperties([|name|] + name + [0, 0, 0, |value|] + value + rest)
         == Some([Property(name, value)] + ReadProperties(rest).value)
  {
    hide FromBe;
    var s := [|name|] + name + [0, 0, 0, |value|] + value + rest;
    var n, m := |name|, |value|;
    assert s[0] == n && s[1..1 + n] == name && s[1 + n..5 + n] == [0, 0, 0, m];
    InNetworkOrder(0, 0, 0, m);
    assert s[5 + n..5 + n + m] == value && s[5 + n + m..] == rest;
  }

  lemma Letters()
    ensures Ascii("READY") == [0x52, 0x45, 0x41, 0x44, 0x59] && Ascii("NULL") == [0x4e, 0x55, 0x4c, 0x4c]
    ensures Ascii("Socket-Type") == [0x53, 0x6f, 0x63, 0x6b, 0x65, 0x74, 0x2d, 0x54, 0x79, 0x70, 0x65]
    ensures Ascii("PUSH") == [0x50, 0x55, 0x53, 0x48] && Ascii("PULL") == [0x50, 0x55, 0x4c, 0x4c]
  {
  }

  lemma ReadyTellsType(sock: SocketType)
    ensures TellsType(ReadyBody(sock), sock)
  {
    hide ReadProperties;
    hide Ascii;
    Letters();
    NoProperties();
    var name, value := Ascii("Socket-Type"), Ascii(TypeName(sock));
    PropertyReads(name, value, []);
    ReadyParts(sock);
    assert [Property(name, value)] + [] == [Property(name, value)];
  }

  lemma ReadyParts(sock: SocketType)
    ensures var b, ready := ReadyBody(sock), [0x52, 0x45, 0x41, 0x44, 0x59];
            var name := [0x53, 0x6f, 0x63, 0x6b, 0x65, 0x74, 0x2d, 0x54, 0x79, 0x70, 0x65];
            var value := if sock.PUSH? then [0x50, 0x55, 0x53, 0x48] else [0x50, 0x55, 0x4c, 0x4c];
            b[0] == 5 && b[1..6] == ready && b[6..] == [11] + name + [0, 0, 0, 4] + value + []
  {
    var b := ReadyBody(sock);
    assert b[1] == 0x52 && b[2] == 0x45 && b[3] == 0x41 && b[4] == 0x44 && b[5] == 0x59;
  }

  lemma NoProperties()
    ensures ReadProperties([]) == Some([])
  {
  }

  /** What an end sends before the first message. */
  lemma ScriptIntroduces(s: seq<byte>, sock: SocketType)
    requires s == GREETING_HEAD + GreetingTail() + ReadyCommand(sock)
    ensures Introduces(s, sock)
  {
    hide TellsType;
    hide ReadyBody;
    hide Ascii;
    Letters();
    ReadyTellsType(sock);
    assert s[66..] == ReadyBody(sock);
    assert s[..64] == GREETING_HEAD + GreetingTail();
    GreetingReads();
  }

  lemma GreetingReads()
    ensures ReadGreeting(GREETING_HEAD + GreetingTail()) == Some(Greeting(3, 1, [0x4e, 0x55, 0x4c, 0x4c], false))
  {
    var s := GREETING_HEAD + GreetingTail();
    var t := GreetingTail()[..20];
    assert t[0] == 0x4e && t[1] == 0x55 && t[2] == 0x4c && t[3] == 0x4c && t[4] == 0;
    assert s[12..32] == t;
    FirstNulIs(t, 4);
    assert s[12..16] == [0x4e, 0x55, 0x4c, 0x4c];
    assert s[10] == 3 && s[11] == 1;
  }

  lemma FirstNulIs(s: seq<byte>, i: nat)
    requires i < |s| && s[i] == 0 && forall j :: 0 <= j < i ==> s[j] != 0
    ensures FirstNul(s) == i
  {
    var k := FirstNul(s);
    if k < i {
      assert false;
    }
  }

  // ---- the greetings that are accepted ----

  /** A mechanism is there if its name ends within its twenty bytes. The source demands nothing of
      it but that it is text. */
  ghost predicate NamesMechanism(m: seq<byte>) {
    exists cs: seq<Char> :: 0 !in Encode(cs) && Encode(cs) + [0] <= m
  }

  lemma MechanismIff(m: seq<byte>)
    ensures NamesMechanism(m) <==> FirstNul(m) < |m| && IsUtf8(m[..FirstNul(m)])
  {
    hide Encode;
    hide IsUtf8;
    hide FirstNul;
    if cs: seq<Char> :| 0 !in Encode(cs) && Encode(cs) + [0] <= m {
      NameFound(m, Encode(cs));
      EncodedIsUtf8(cs);
    }
    if FirstNul(m) < |m| && IsUtf8(m[..FirstNul(m)]) {
      var cs := Utf8IsEncoded(m[..FirstNul(m)]);
      NameEnds(m);
      assert 0 !in Encode(cs) && Encode(cs) + [0] <= m;
    }
  }

  lemma NameFound(m: seq<byte>, t: seq<byte>)
    requires 0 !in t && t + [0] <= m
    ensures FirstNul(m) == |t| < |m| && m[..FirstNul(m)] == t
  {
    assert m[|t|] == (t + [0])[|t|];
    assert forall j :: 0 <= j < |t| ==> m[j] == (t + [0])[j] == t[j];
    FirstNulIs(m, |t|);
  }

  lemma NameEnds(m: seq<byte>)
    requires FirstNul(m) < |m|
    ensures 0 !in m[..FirstNul(m)] && m[..FirstNul(m)] + [0] <= m
  {
    var i := FirstNul(m);
    EndsWith(m, i);
  }

  lemma EndsWith(m: seq<byte>, i: nat)
    requires i < |m|
    ensures m[..i] + [m[i]] <= m
  {
    assert m[..i] + [m[i]] == m[..i + 1];
  }

  /** The state of a reader that has the greeting of a peer of version 3.minor: it waits for frames,
      and has introduced itself. */
  ghost predicate Greets(r: Reader<Parser, Emit>, sock: SocketType, minor: byte) {
    && r.Running? && r.unread == []
    && r.state == FRESH.(st := ReadFrameFlags, outEnable := true, peerVer := (3, minor))
    && Introduces(Sent(r.emitted), sock) && forall e :: e in r.emitted ==> e.Send?
  }

  /** A peer's greeting is accepted exactly if it begins with 0xff, has the lowest bit of byte 9
      set, is of version 3.0 or 3.1, and names a mechanism. Padding, as-server and filler are not
      looked at. */
  lemma GreetingAcceptedIff(cap: nat, sock: SocketType, g: seq<byte>)
    requires |g| == 64 && Progressive(Reading(cap, sock))
    ensures var r := Drain(Reading(cap, sock), FRESH, g);
            var ok := g[0] == 0xff && g[9] % 2 == 1 && g[10] == 3 && g[11] <= 1 && NamesMechanism(g[12..32]);
            if ok then Greets(r, sock, g[11]) else r.Stopped?
  {
    hide NamesMechanism;
    hide Introduces;
    hide Sent;
    hide GreetingTail;
    hide ReadyCommand;
    hide Drain;
    hide NeedMin;
    hide Step;
    FirstStep(cap, sock, g);
    SignatureRead(cap, sock, g);
    if g[0] == 0xff && g[9] % 2 == 1 {
      VersionRead(cap, sock, g);
      if g[10] == 3 && g[11] <= 1 {
        MechanismRead(cap, sock, g);
        AllSent(sock);
        ScriptIntroduces(GREETING_HEAD + GreetingTail() + ReadyCommand(sock), sock);
      }
    }
  }

  lemma AllSent(sock: SocketType)
    ensures Sent([Send(GREETING_HEAD)] + ([Send(GreetingTail())] + [Send(ReadyCommand(sock))]))
         == GREETING_HEAD + GreetingTail() + ReadyCommand(sock)
  {
    hide GreetingTail;
    hide ReadyCommand;
    var a, b, c := Send(GREETING_HEAD), Send(GreetingTail()), Send(ReadyCommand(sock));
    assert [a] + ([b] + [c]) == [a, b, c] && [a, b, c][1..] == [b, c] && [b, c][1..] == [c] && [c][1..] == [];
    assert Sent([c]) == c.bytes + [] == c.bytes && Sent([b, c]) == b.bytes + c.bytes;
    assert a.bytes + (b.bytes + c.bytes) == a.bytes + b.bytes + c.bytes;
  }

  function Read(st: ConnState, ver: (byte, byte)): Parser {
    FRESH.(st := st, peerVer := ver)
  }

  /** One step of a reader that has come to byte i. */
  lemma ReadAt(cap: nat, sock: SocketType, p: Parser, g: seq<byte>, i: nat)
    requires Progressive(Reading(cap, sock)) && i + NeedMin(p.st) <= |g|
    ensures var m, j := Reading(cap, sock), i + NeedMin(p.st);
            Drain(m, p, g[i..]) == match Step(cap, sock, p, g[i..j])
                                   case Stop(ev) => Stopped(ev)
                                   case Next(q, ev) => Prepend(ev, Drain(m, q, g[j..]))
  {
    hide Step;
    var j := i + NeedMin(p.st);
    assert g[i..][..j - i] == g[i..j] && g[i..][j - i..] == g[j..];
  }

  lemma FirstStep(cap: nat, sock: SocketType, g: seq<byte>)
    requires |g| == 64 && Progressive(Reading(cap, sock))
    ensures Drain(Reading(cap, sock), FRESH, g)
         == Prepend([Send(GREETING_HEAD)], Drain(Reading(cap, sock), Read(InitRecv1, (0, 0)), g))
  {
    hide Drain;
    assert g[0..] == g;
    ReadAt(cap, sock, FRESH, g, 0);
  }

  lemma SignatureRead(cap: nat, sock: SocketType, g: seq<byte>)
    requires |g| == 64 && Progressive(Reading(cap, sock))
    ensures var m := Reading(cap, sock);
            var r := Drain(m, Read(InitRecv1, (0, 0)), g);
            if g[0] == 0xff && g[9] % 2 == 1 then r == Drain(m, Read(InitRecv3, (0, 0)), g[10..]) else r.Stopped?
  {
    hide Drain;
    assert g[0..] == g;
    ReadAt(cap, sock, Read(InitRecv1, (0, 0)), g, 0);
    ReadAt(cap, sock, Read(InitRecv2, (0, 0)), g, 1);
    assert g[1..10][8] == g[9];
    PrependNothing(Drain(Reading(cap, sock), Read(InitRecv2, (0, 0)), g[1..]));
    PrependNothing(Drain(Reading(cap, sock), Read(InitRecv3, (0, 0)), g[10..]));
  }

  lemma VersionRead(cap: nat, sock: SocketType, g: seq<byte>)
    requires |g| == 64 && Progressive(Reading(cap, sock))
    ensures var m := Reading(cap, sock);
            var r := Drain(m, Read(InitRecv3, (0, 0)), g[10..]);
            if g[10] == 3 && g[11] <= 1 then
              r == Prepend([Send(GreetingTail())], Drain(m, Read(InitRecv5, (3, g[11])), g[12..]))
            else r.Stopped?
  {
    hide Drain;
    hide GreetingTail;
    ReadAt(cap, sock, Read(InitRecv3, (0, 0)), g, 10);
    ReadAt(cap, sock, Read(InitRecv4, (3, 0)), g, 11);
    PrependNothing(Drain(Reading(cap, sock), Read(InitRecv5, (3, g[11])), g[12..]));
  }

  lemma MechanismRead(cap: nat, sock: SocketType, g: seq<byte>)
    requires |g| == 64 && Progressive(Reading(cap, sock))
    ensures var r := Drain(Reading(cap, sock), Read(InitRecv5, (3, g[11])), g[12..]);
            if NamesMechanism(g[12..32]) then
              r == Running(FRESH.(st := ReadFrameFlags, outEnable := true, peerVer := (3, g[11])), [],
                           [Send(ReadyCommand(sock))])
            else r.Stopped?
  {
    hide Drain;
    hide ReadyCommand;
    hide IsUtf8;
    hide NamesMechanism;
    var p, q := Read(InitRecv5, (3, g[11])), Read(ReadFrameFlags, (3, g[11])).(outEnable := true);
    ReadAt(cap, sock, p, g, 12);
    var c := g[12..64];
    assert c[..20] == g[12..32];
    var i := FirstNul(c[..20]);
    MechanismIff(c[..20]);
    assert i < 20 ==> c[..i] == c[..20][..i];
    assert g[64..] == [];
    DrainShort(Reading(cap, sock), q, []);
    assert [Send(ReadyCommand(sock))] + [] == [Send(ReadyCommand(sock))];
  }
}
