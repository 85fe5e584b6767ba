/** Bytes and the big-endian encoding that every wire format of the daemon uses. */
module Bytes {

  type byte = x: int | 0 <= x < 256 witness 0

  function Ascii(s: string): (bs: seq<byte>)
    ensures |bs| == |s|
  {
    seq(|s|, i requires 0 <= i < |s| => s[i] as int % 0x80)
  }

  /** 256^n, the number of values that n bytes can hold. */
  function Pow256(n: nat): (p: nat)
    ensures p > 0
  {
    if n == 0 then 1 else 256 * Pow256(n - 1)
  }

  /** The powers that are the ranges of the integer types. */
  lemma Powers()
    ensures Pow256(1) == 0x100 && Pow256(2) == 0x1_0000 && Pow256(4) == 0x1_0000_0000
    ensures Pow256(8) == 0x1_0000_0000_0000_0000
  {
    assert Pow256(3) == 0x100_0000 && Pow256(5) == 0x100_0000_0000;
    assert Pow256(6) == 0x1_0000_0000_0000 && Pow256(7) == 0x100_0000_0000_0000;
  }

  /** The n low-order bytes of v, most significant byte first. */
  function ToBe(v: nat, n: nat): (s: seq<byte>)
    ensures |s| == n
    decreases n
  {
    if n == 0 then [] else ToBe(v / 256, n - 1) + [v % 256]
  }

  /** The number whose big-endian digits are s. */
  function FromBe(s: seq<byte>): nat {
    if s == [] then 0 else 256 * FromBe(s[..|s| - 1]) + s[|s| - 1]
  }

  lemma {:induction false} FromBeBound(s: seq<byte>)
    ensures FromBe(s) < Pow256(|s|)
  {
    if s != [] {
      FromBeBound(s[..|s| - 1]);
    }
  }

  /** Decoding inverts encoding exactly on the values that fit. */
  lemma {:induction false} DecodeEncode(v: nat, n: nat)
    ensures FromBe(ToBe(v, n)) == v <==> v < Pow256(n)
    decreases n
  {
    FromBeBound(ToBe(v, n));
    if n > 0 {
      assert ToBe(v, n)[..n - 1] == ToBe(v / 256, n - 1);
      DecodeEncode(v / 256, n - 1);
    }
  }

  /** Encoding inverts decoding. */
  lemma {:induction false} EncodeDecode(s: seq<byte>)
    ensures ToBe(FromBe(s), |s|) == s
  {
    if s != [] {
      var front, last := s[..|s| - 1], s[|s| - 1];
      EncodeDecode(front);
      LastDigit(FromBe(front), last);
      assert s == front + [last];
    }
  }

  function Word(a: nat, b: nat): nat {
    0x100 * a + b
  }

  function Long(a: nat, b: nat, c: nat, d: nat): nat {
    0x100_0000 * a + 0x1_0000 * b + 0x100 * c + d
  }

  /** The most significant byte comes first. */
  lemma InNetworkOrder(a: byte, b: byte, c: byte, d: byte)
    ensures FromBe([a]) == a && FromBe([a, b]) == Word(a, b) && FromBe([a, b, c, d]) == Long(a, b, c, d)
    ensures ToBe(Word(a, b), 2) == [a, b] && ToBe(Long(a, b, c, d), 4) == [a, b, c, d]
  {
    assert [a, b, c, d][..3] == [a, b, c] && [a, b, c][..2] == [a, b] && [a, b][..1] == [a] && [a][..0] == [];
    EncodeDecode([a, b]);
    EncodeDecode([a, b, c, d]);
  }

  lemma LastDigit(v: nat, b: byte)
    ensures (256 * v + b) / 256 == v && (256 * v + b) % 256 == b
  {
  }

  /** Bit k of a byte, as the source tests it with a mask. */
  function Bit(b: byte, k: nat): bool
    requires k < 3
  {
    if k == 0 then b % 2 == 1 else if k == 1 then b / 2 % 2 == 1 else b / 4 % 2 == 1
  }
}
