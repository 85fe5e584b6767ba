/**
 UTF-8: the test of the reader in `ZmtpWire` against the encoding of characters.
 */
module Utf8 {
  import opened Bytes
  import opened ZmtpWire

  /** The characters of Unicode, and their encoding (section 3 of RFC 3629). */
  type Char = c: nat | c < 0xd800 || 0xe000 <= c < 0x11_0000 witness 0

  function EncodeChar(c: Char): (s: seq<byte>)
    ensures s != []
  {
    if c < 0x80 then [c]
    else if c < 0x800 then [0xc0 + c / 0x40, 0x80 + c % 0x40]
    else if c < 0x1_0000 then [0xe0 + c / 0x1000, 0x80 + c / 0x40 % 0x40, 0x80 + c % 0x40]
    else [0xf0 + c / 0x4_0000, 0x80 + c / 0x1000 % 0x40, 0x80 + c / 0x40 % 0x40, 0x80 + c % 0x40]
  }

  function Encode(cs: seq<Char>): seq<byte> {
    if cs == [] then [] else EncodeChar(cs[0]) + Encode(cs[1..])
  }

  lemma CharLeads(c: Char, rest: seq<byte>)
    ensures Utf8Lead(EncodeChar(c) + rest) == |EncodeChar(c)|
  {
    hide EncodeChar;
    hide Utf8Lead;
    CharLead(c);
    LeadOfFront(EncodeChar(c), rest);
  }

  /** A sequence at the front stays one whatever follows. */
  lemma LeadOfFront(s: seq<byte>, rest: seq<byte>)
    requires s != [] && Utf8Lead(s) == |s|
    ensures Utf8Lead(s + rest) == |s|
  {
    assert forall i :: 0 <= i < |s| ==> (s + rest)[i] == s[i];
  }

  lemma CharLead(c: Char)
    ensures Utf8Lead(EncodeChar(c)) == |EncodeChar(c)|
  {
    if c >= 0x1_0000 {
      LongCharLead(c);
    }
  }

  lemma LongCharLead(c: Char)
    requires c >= 0x1_0000
    ensures Utf8Lead(EncodeChar(c)) == 4
  {
  }

  /** Six more bits at the end of a number. */
  function Joined(hi: int, lo: int): int {
    0x40 * hi + lo
  }

  lemma Divided(hi: int, lo: int)
    requires 0 <= lo < 0x40
    ensures Joined(hi, lo) / 0x40 == hi && Joined(hi, lo) % 0x40 == lo
  {
  }

  lemma DividedTwice(hi: int, mid: int, lo: int)
    requires 0 <= mid < 0x40 && 0 <= lo < 0x40
    ensures Joined(Joined(hi, mid), lo) / 0x1000 == hi
  {
  }

  lemma DividedThrice(hi: int, b: int, mid: int, lo: int)
    requires 0 <= b < 0x40 && 0 <= mid < 0x40 && 0 <= lo < 0x40
    ensures var c := Joined(Joined(Joined(hi, b), mid), lo); c / 0x4_0000 == hi && c / 0x1000 == Joined(hi, b)
  {
  }

  lemma LeadIsChar(s: seq<byte>) returns (c: Char)
    requires Utf8Lead(s) > 0
    ensures s[..Utf8Lead(s)] == EncodeChar(c)
  {
    match Utf8Lead(s)
    case 1 =>
      c := s[0];
    case 2 =>
      c := Joined(s[0] - 0xc0, s[1] - 0x80);
      Divided(s[0] - 0xc0, s[1] - 0x80);
    case 3 =>
      c := ThreeBytes(s);
    case _ =>
      c := FourBytes(s);
  }

  lemma ThreeBytes(s: seq<byte>) returns (c: Char)
    requires Utf8Lead(s) == 3
    ensures s[..3] == EncodeChar(c)
  {
    var x, y, z := s[0] - 0xe0, s[1] - 0x80, s[2] - 0x80;
    c := Joined(Joined(x, y), z);
    Divided(x, y);
    Divided(Joined(x, y), z);
    DividedTwice(x, y, z);
  }

  lemma FourBytes(s: seq<byte>) returns (c: Char)
    requires Utf8Lead(s) == 4
    ensures s[..4] == EncodeChar(c)
  {
    var w, x, y, z := s[0] - 0xf0, s[1] - 0x80, s[2] - 0x80, s[3] - 0x80;
    c := Joined(Joined(Joined(w, x), y), z);
    Divided(w, x);
    Divided(Joined(w, x), y);
    Divided(Joined(Joined(w, x), y), z);
    DividedThrice(w, x, y, z);
  }

  lemma {:induction false} EncodedIsUtf8(cs: seq<Char>)
    ensures IsUtf8(Encode(cs))
  {
    hide EncodeChar;
    hide Utf8Lead;
    if cs != [] {
      CharLeads(cs[0], Encode(cs[1..]));
      assert Encode(cs)[|EncodeChar(cs[0])|..] == Encode(cs[1..]);
      EncodedIsUtf8(cs[1..]);
    }
  }

  lemma {:induction false} Utf8IsEncoded(s: seq<byte>) returns (cs: seq<Char>)
    requires IsUtf8(s)
    ensures s == Encode(cs)
  {
    hide EncodeChar;
    hide Utf8Lead;
    if s == [] {
      cs := [];
    } else {
      var n := Utf8Lead(s);
      var c := LeadIsChar(s);
      var more := Utf8IsEncoded(s[n..]);
      cs := [c] + more;
      assert cs[0] == c && cs[1..] == more;
      assert s == s[..n] + s[n..];
    }
  }

  /** What the source takes for text is exactly what encodes some characters. */
  lemma TextIff(s: seq<byte>)
    ensures IsUtf8(s) <==> exists cs: seq<Char> :: s == Encode(cs)
  {
    if IsUtf8(s) {
      var cs := Utf8IsEncoded(s);
    }
    if cs: seq<Char> :| s == Encode(cs) {
      EncodedIsUtf8(cs);
    }
  }
}
