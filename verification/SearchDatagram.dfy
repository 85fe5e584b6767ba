/**
 The datagrams of the search engine (netfetch/src/ca/findioc.rs): what a batch is serialised to.
 */
module SearchDatagram {
  import opened Bytes
  import opened CaWire

  const VERSION_HEAD: HeadInfo := HeadInfo(0, 0, 0, 13, 0, 0)

  /** The size field is 16 bits wide, whatever the length of the name. */
  function SearchHead(sid: u32, name: seq<byte>): HeadInfo {
    HeadInfo(6, Padded(|name|) % 0x1_0000, 0, 13, 0, sid)
  }

  /** A search request: the payload is the name, its terminating NUL and padding. */
  function SearchPiece(sid: u32, name: seq<byte>): Piece {
    Piece(SearchHead(sid, name), ZeroPadded(name, Padded(|name|)))
  }

  function Searches(sids: seq<u32>, names: seq<seq<byte>>): (ps: seq<Piece>)
    requires |sids| == |names|
    ensures |ps| == |sids| && forall i :: 0 <= i < |sids| ==> ps[i] == SearchPiece(sids[i], names[i])
  {
    seq(|sids|, i requires 0 <= i < |sids| => SearchPiece(sids[i], names[i]))
  }

  function Datagram(sids: seq<u32>, names: seq<seq<byte>>): seq<byte>
    requires |sids| == |names|
  {
    EncodeHead(VERSION_HEAD) + EncodePieces(Searches(sids, names))
  }

  /** Whether the size field can hold the size of the payload. */
  predicate Carriable(name: seq<byte>) {
    |name| <= 65527
  }

  lemma CarriableIsWellSized(sid: u32, name: seq<byte>)
    ensures WellSized(SearchPiece(sid, name)) <==> Carriable(name)
  {
    if Carriable(name) {
      assert Padded(|name|) <= 65528;
    } else {
      assert Padded(|name|) >= 65536;
    }
  }

  /** Receiving a datagram: one version message, then one search request for each entry in order,
      with the minor version 13, no address, its search id and its name up to the NUL, in a payload that
      is a multiple of 8 bytes and longer than the name. */
  ghost predicate Conveys(s: seq<byte>, sids: seq<u32>, names: seq<seq<byte>>)
    requires |sids| == |names|
  {
    var (ps, rest) := Split(s);
    && rest == [] && |ps| == 1 + |sids| && ps[0] == Piece(HeadInfo(0, 0, 0, 13, 0, 0), [])
    && forall i {:trigger sids[i]} :: 0 <= i < |sids| ==>
      var p := ps[1 + i];
      && |p.payload| < 0x1_0000 && p.head == HeadInfo(6, |p.payload|, 0, 13, 0, sids[i])
      && UpToNul(p.payload) == names[i]
      && |p.payload| % 8 == 0 && |p.payload| > |names[i]|
  }

  lemma SplitVersion(tail: seq<byte>)
    ensures Split(EncodeHead(VERSION_HEAD) + tail) == ([Piece(VERSION_HEAD, [])] + Split(tail).0, Split(tail).1)
  {
    assert EncodePiece(Piece(VERSION_HEAD, [])) == EncodeHead(VERSION_HEAD);
    SplitOne(Piece(VERSION_HEAD, []), tail);
  }

  lemma SplitDatagram(sids: seq<u32>, names: seq<seq<byte>>)
    requires |sids| == |names| && forall i :: 0 <= i < |names| ==> Carriable(names[i])
    ensures Split(Datagram(sids, names)) == ([Piece(VERSION_HEAD, [])] + Searches(sids, names), [])
  {
    hide EncodeHead;
    hide Split;
    hide SearchPiece;
    var ps := Searches(sids, names);
    forall i | 0 <= i < |ps|
      ensures WellSized(ps[i])
    {
      CarriableIsWellSized(sids[i], names[i]);
    }
    SplitInvertsEncode(ps, []);
    assert EncodePieces(ps) + [] == EncodePieces(ps);
    SplitNothing();
    assert ps + [] == ps;
    SplitVersion(EncodePieces(ps));
  }

  lemma SplitNothing()
    ensures Split([]) == ([], [])
  {
  }

  /** The first name that is too long makes the datagram say something else: its request comes
      out with a payload that cannot hold the name. */
  lemma TooLongIsLost(sids: seq<u32>, names: seq<seq<byte>>, j: nat)
    requires |sids| == |names| && j < |names| && !Carriable(names[j])
    requires forall i :: 0 <= i < j ==> Carriable(names[i])
    ensures var ps := Split(Datagram(sids, names)).0; |ps| > 1 + j ==> |ps[1 + j].payload| <= |names[j]|
    ensures !Conveys(Datagram(sids, names), sids, names)
  {
    hide EncodeHead;
    hide SearchPiece;
    hide Split;
    hide EncodePiece;
    var ps := Searches(sids, names);
    var s := EncodePieces(ps[j..]);
    forall i | 0 <= i < j
      ensures WellSized(ps[..j][i])
    {
      CarriableIsWellSized(sids[i], names[i]);
    }
    EncodePiecesAppend(ps[..j], ps[j..]);
    assert ps == ps[..j] + ps[j..];
    SplitInvertsEncode(ps[..j], s);
    SplitVersion(EncodePieces(ps));
    FirstPiece(ps[j], EncodePieces(ps[j + 1..]));
    assert s == EncodePiece(ps[j]) + EncodePieces(ps[j + 1..]) by {
      assert ps[j..][0] == ps[j] && ps[j..][1..] == ps[j + 1..];
    }
    SearchSize(sids[j], names[j]);
  }

  lemma SearchSize(sid: u32, name: seq<byte>)
    requires !Carriable(name)
    ensures SearchPiece(sid, name).head.payloadSize <= |name|
  {
  }

  lemma FirstPiece(p: Piece, tail: seq<byte>)
    ensures var ps := Split(EncodePiece(p) + tail).0; ps != [] ==> |ps[0].payload| == p.head.payloadSize
  {
    var s := EncodePiece(p) + tail;
    assert s[..16] == EncodeHead(p.head);
    DecodeEncodeHead(p.head);
  }

  lemma {:induction false} EncodePiecesAppend(a: seq<Piece>, b: seq<Piece>)
    ensures EncodePieces(a + b) == EncodePieces(a) + EncodePieces(b)
  {
    hide EncodePiece;
    if a == [] {
      assert a + b == b;
    } else {
      assert (a + b)[0] == a[0] && (a + b)[1..] == a[1..] + b;
      EncodePiecesAppend(a[1..], b);
      assert EncodePiece(a[0]) + (EncodePieces(a[1..]) + EncodePieces(b))
          == (EncodePiece(a[0]) + EncodePieces(a[1..])) + EncodePieces(b);
    }
  }

  lemma {:induction false} FirstTooLong(names: seq<seq<byte>>) returns (j: nat)
    requires exists i :: 0 <= i < |names| && !Carriable(names[i])
    ensures j < |names| && !Carriable(names[j]) && forall i :: 0 <= i < j ==> Carriable(names[i])
  {
    if !Carriable(names[0]) {
      j := 0;
    } else {
      var i :| 0 <= i < |names| && !Carriable(names[i]);
      assert names[1..][i - 1] == names[i];
      var k := FirstTooLong(names[1..]);
      j := k + 1;
      forall i | 0 <= i < j
        ensures Carriable(names[i])
      {
        if i > 0 {
          assert names[1..][i - 1] == names[i];
        }
      }
    }
  }

  /** Inversion of `serialize_batch`, for any number of names without NUL: the datagram conveys the
      batch exactly when no name is longer than 65527 bytes. */
  lemma DatagramConveys(sids: seq<u32>, names: seq<seq<byte>>)
    requires |sids| == |names| && forall i :: 0 <= i < |names| ==> NulFree(names[i])
    ensures Conveys(Datagram(sids, names), sids, names) <==> forall i :: 0 <= i < |names| ==> Carriable(names[i])
  {
    hide Split;
    hide Datagram;
    hide UpToNul;
    hide ZeroPadded;
    if forall i :: 0 <= i < |names| ==> Carriable(names[i]) {
      SplitDatagram(sids, names);
      forall i | 0 <= i < |names|
        ensures UpToNul(SearchPiece(sids[i], names[i]).payload) == names[i]
      {
        NameSurvivesPadding(names[i], Padded(|names[i]|));
      }
    } else {
      var j := FirstTooLong(names);
      TooLongIsLost(sids, names, j);
    }
  }

  /** `serialize_batch`, which appends to the buffer. */
  method SerializeBatch(buf: seq<byte>, sids: seq<u32>, names: seq<seq<byte>>) returns (out: seq<byte>)
    requires |sids| == |names|
    ensures out == buf + Datagram(sids, names)
  {
    hide EncodePieces;
    hide EncodePiece;
    hide EncodeHead;
    hide ToBe;
    hide CaWire.Zeros;
    out := buf + [0, 0, 0, 0] + [0, 0, 0, 13] + [0, 0, 0, 0] + [0, 0, 0, 0];
    VersionBytes();
    ghost var ps := Searches(sids, names);
    ghost var base := buf + EncodeHead(VERSION_HEAD);
    assert out == base;
    EncodePiecesNone();
    for i := 0 to |sids|
      invariant out == base + EncodePieces(ps[..i])
    {
      var chb := names[i];
      var npadded := (|chb| + 1 + 7) / 8 * 8;
      var npad := npadded - |chb|;
      ghost var before := out;
      SearchBytes(sids[i], chb);
      out := out + ([0, 6] + ToBe(npadded, 2) + [0, 0, 0, 13] + [0, 0, 0, 0] + ToBe(sids[i], 4))
             + chb + CaWire.Zeros(npad);
      assert out == before + EncodePiece(ps[i]);
      assert ps[..i + 1] == ps[..i] + [ps[i]];
      EncodePiecesAppend(ps[..i], [ps[i]]);
      EncodePiecesOne(ps[i]);
      assert (base + EncodePieces(ps[..i])) + EncodePiece(ps[i]) == base + EncodePieces(ps[..i + 1]);
    }
    assert ps[..|sids|] == ps;
    assert (buf + EncodeHead(VERSION_HEAD)) + EncodePieces(ps) == buf + Datagram(sids, names);
  }

  lemma EncodePiecesNone()
    ensures EncodePieces([]) == []
  {
  }

  lemma EncodePiecesOne(p: Piece)
    ensures EncodePieces([p]) == EncodePiece(p)
  {
    assert [p][1..] == [];
  }

  lemma VersionBytes()
    ensures EncodeHead(VERSION_HEAD) == [0, 0, 0, 0] + [0, 0, 0, 13] + [0, 0, 0, 0] + [0, 0, 0, 0]
  {
  }

  lemma SearchBytes(sid: u32, name: seq<byte>)
    ensures var n := Padded(|name|);
            EncodePiece(SearchPiece(sid, name)) ==
            ([0, 6] + ToBe(n, 2) + [0, 0, 0, 13] + [0, 0, 0, 0] + ToBe(sid, 4)) + name + CaWire.Zeros(n - |name|)
  {
    var n := Padded(|name|);
    TwoBytes(n);
    assert ToBe(6, 2) == [0, 6] && ToBe(0, 2) + ToBe(13, 2) == [0, 0, 0, 13] && ToBe(0, 4) == [0, 0, 0, 0];
  }

  lemma TwoBytes(n: nat)
    ensures ToBe(n, 2) == ToBe(n % 0x1_0000, 2)
  {
    hide ToBe;
    var q, r := n / 0x1_0000, n % 0x1_0000;
    assert n == 256 * (256 * q + r / 256) + r % 256;
    assert n / 256 == 256 * q + r / 256 && n % 256 == r % 256;
    assert n / 256 % 256 == r / 256 % 256;
    TwoDigits(n);
    TwoDigits(r);
  }

  lemma TwoDigits(n: nat)
    ensures ToBe(n, 2) == [n / 256 % 256] + [n % 256]
  {
    assert ToBe(n, 2) == (ToBe(n / 256 / 256, 0) + [n / 256 % 256]) + [n % 256];
  }
}
