/**
 The Channel Access messages of netfetch/src/ca/proto.rs on values: the header fields of each
 message, its payload, and the 16-byte header on the wire ("Message Structure" of the EPICS
 Channel Access Protocol Specification). Names are byte strings.
 */
module CaWire {
  import opened Bytes
  import opened Wrappers

  type u16 = x: int | 0 <= x < 0x1_0000 witness 0
  type u32 = x: int | 0 <= x < 0x1_0000_0000 witness 0

  const CA_PROTO_VERSION: u16 := 13

  /** "daqingest" */
  const CLIENT_NAME: seq<byte> := [0x64, 0x61, 0x71, 0x69, 0x6e, 0x67, 0x65, 0x73, 0x74]

  /** The event mask that every EventAdd asks for. */
  const EVENT_MASK: seq<byte> := [0, 0, 0, 0, 0, 0, 0, 0, 0, 0, 0, 0, 0, 0x0e, 0, 0]

  datatype CaMsg =
    | Version
    | VersionRes(version: u16)
    | Error(msg: seq<byte>)
    | ClientName
    | ClientNameRes(name: seq<byte>)
    | HostName(host: seq<byte>)
    | Search(id: u32, channel: seq<byte>)
    | SearchRes(addr: u32, tcpPort: u16, searchId: u32)
    | CreateChan(cid: u32, channel: seq<byte>)
    | CreateChanRes(dataType: u16, dataCount: u16, cid: u32, sid: u32)
    | CreateChanFail(cid: u32)
    | AccessRightsRes(cid: u32, rights: u32)
    | EventAdd(dataType: u16, dataCount: u16, sid: u32, subid: u32)
    | EventAddRes(dataType: u16, dataCount: u16, status: u32, subid: u32)
    | ReadNotify(dataType: u16, dataCount: u16, sid: u32, ioid: u32)
    | ReadNotifyRes(dataType: u16, dataCount: u16, sid: u32, ioid: u32)
    | Echo

  /** The header of a message. */
  datatype HeadInfo = HeadInfo(cmdid: u16, payloadSize: u16, dataType: u16, dataCount: u16, param1: u32, param2: u32)

  function Cmdid(m: CaMsg): u16 {
    match m
    case Version => 0
    case VersionRes(_) => 0
    case Error(_) => 0x0b
    case ClientName => 0x14
    case ClientNameRes(_) => 0x14
    case HostName(_) => 0x15
    case Search(_, _) => 0x06
    case SearchRes(_, _, _) => 0x06
    case CreateChan(_, _) => 0x12
    case CreateChanRes(_, _, _, _) => 0x12
    case CreateChanFail(_) => 0x1a
    case AccessRightsRes(_, _) => 0x16
    case EventAdd(_, _, _, _) => 0x01
    case EventAddRes(_, _, _, _) => 0x01
    case ReadNotify(_, _, _, _) => 0x0f
    case ReadNotifyRes(_, _, _, _) => 0x0f
    case Echo => 0x17
  }

  /** Room for a name, its terminating NUL, and padding to a multiple of 8. */
  function Padded(n: nat): (p: nat)
    ensures p % 8 == 0 && n < p <= n + 8
  {
    (n + 1 + 7) / 8 * 8
  }

  /** The two responses that carry data are never serialised: the source panics. */
  function PayloadLen(m: CaMsg): nat
    requires !m.EventAddRes? && !m.ReadNotifyRes?
  {
    match m
    case Error(msg) => Padded(16 + |msg|)
    case ClientName => 0x10
    case ClientNameRes(name) => Padded(|name|)
    case HostName(_) => 0x18
    case Search(_, channel) => Padded(|channel|)
    case SearchRes(_, _, _) => 8
    case CreateChan(_, channel) => Padded(|channel|)
    case EventAdd(_, _, _, _) => 16
    case _ => 0
  }

  function DataType(m: CaMsg): u16 {
    match m
    case VersionRes(n) => n
    case Search(_, _) => 1
    case SearchRes(_, tcpPort, _) => tcpPort
    case CreateChanRes(dataType, _, _, _) => dataType
    case EventAdd(dataType, _, _, _) => dataType
    case EventAddRes(dataType, _, _, _) => dataType
    case ReadNotify(dataType, _, _, _) => dataType
    case ReadNotifyRes(dataType, _, _, _) => dataType
    case _ => 0
  }

  function DataCount(m: CaMsg): u16 {
    match m
    case Version => CA_PROTO_VERSION
    case Search(_, _) => CA_PROTO_VERSION
    case CreateChanRes(_, dataCount, _, _) => dataCount
    case EventAdd(_, dataCount, _, _) => dataCount
    case EventAddRes(_, dataCount, _, _) => dataCount
    case ReadNotify(_, dataCount, _, _) => dataCount
    case ReadNotifyRes(_, dataCount, _, _) => dataCount
    case _ => 0
  }

  function Param1(m: CaMsg): u32 {
    match m
    case Search(id, _) => id
    case SearchRes(addr, _, _) => addr
    case CreateChan(cid, _) => cid
    case CreateChanRes(_, _, cid, _) => cid
    case CreateChanFail(cid) => cid
    case AccessRightsRes(cid, _) => cid
    case EventAdd(_, _, sid, _) => sid
    case EventAddRes(_, _, status, _) => status
    case ReadNotify(_, _, sid, _) => sid
    case ReadNotifyRes(_, _, sid, _) => sid
    case _ => 0
  }

  function Param2(m: CaMsg): u32 {
    match m
    case Search(id, _) => id
    case SearchRes(_, _, id) => id
    case CreateChan(_, _) => CA_PROTO_VERSION
    case CreateChanRes(_, _, _, sid) => sid
    case AccessRightsRes(_, rights) => rights
    case EventAdd(_, _, _, subid) => subid
    case EventAddRes(_, _, _, subid) => subid
    case ReadNotify(_, _, _, ioid) => ioid
    case ReadNotifyRes(_, _, _, ioid) => ioid
    case _ => 0
  }

  /** The messages that `place_into` completes on. On all others it panics. */
  predicate Encodable(m: CaMsg) {
    && !m.Error? && !m.ClientNameRes? && !m.SearchRes? && !m.EventAddRes? && !m.ReadNotifyRes?
    && (m.HostName? ==> |m.host| <= 0x18)
    && PayloadLen(m) <= 0x4000 - 16
  }

  /** Names of up to 16367 bytes can be sent, and a host name of up to 24; of the answers those that are
      only a header. */
  lemma EncodableIff(m: CaMsg)
    ensures Encodable(m)
       <==> match m
            case Search(_, channel) => |channel| < 16368
            case CreateChan(_, channel) => |channel| < 16368
            case HostName(host) => |host| <= 24
            case _ => !m.Error? && !m.ClientNameRes? && !m.SearchRes? && !m.EventAddRes? && !m.ReadNotifyRes?
  {
  }

  function Zeros(n: nat): (s: seq<byte>)
    ensures |s| == n && forall i :: 0 <= i < n ==> s[i] == 0
  {
    seq(n, _ => 0)
  }

  /** s followed by zeros. */
  function ZeroPadded(s: seq<byte>, n: nat): (p: seq<byte>)
    requires |s| <= n
    ensures |p| == n
  {
    s + Zeros(n - |s|)
  }

  function Payload(m: CaMsg): (p: seq<byte>)
    requires Encodable(m)
    ensures |p| == PayloadLen(m)
  {
    match m
    case ClientName => ZeroPadded(CLIENT_NAME, 0x10)
    case HostName(host) => ZeroPadded(host, 0x18)
    case Search(_, channel) => ZeroPadded(channel, Padded(|channel|))
    case CreateChan(_, channel) => ZeroPadded(channel, Padded(|channel|))
    case EventAdd(_, _, _, _) => EVENT_MASK
    case _ => []
  }

  function HeadOf(m: CaMsg): HeadInfo
    requires Encodable(m)
  {
    HeadInfo(Cmdid(m), PayloadLen(m), DataType(m), DataCount(m), Param1(m), Param2(m))
  }

  function EncodeHead(h: HeadInfo): (s: seq<byte>)
    ensures |s| == 16
  {
    ToBe(h.cmdid, 2) + ToBe(h.payloadSize, 2) + ToBe(h.dataType, 2) + ToBe(h.dataCount, 2)
    + ToBe(h.param1, 4) + ToBe(h.param2, 4)
  }

  function Be16(s: seq<byte>): u16
    requires |s| == 2
  {
    FromBeBound(s);
    FromBe(s)
  }

  function Be32(s: seq<byte>): u32
    requires |s| == 4
  {
    FromBeBound(s);
    FromBe(s)
  }

  function DecodeHead(s: seq<byte>): HeadInfo
    requires |s| == 16
  {
    HeadInfo(Be16(s[0..2]), Be16(s[2..4]), Be16(s[4..6]), Be16(s[6..8]), Be32(s[8..12]), Be32(s[12..16]))
  }

  lemma DecodeEncodeHead(h: HeadInfo)
    ensures DecodeHead(EncodeHead(h)) == h
  {
    hide ToBe;
    hide Be16;
    hide Be32;
    HeadSlices(ToBe(h.cmdid, 2), ToBe(h.payloadSize, 2), ToBe(h.dataType, 2), ToBe(h.dataCount, 2),
               ToBe(h.param1, 4), ToBe(h.param2, 4));
    Be16Of(h.cmdid);
    Be16Of(h.payloadSize);
    Be16Of(h.dataType);
    Be16Of(h.dataCount);
    Be32Of(h.param1);
    Be32Of(h.param2);
  }

  /** The fields of a header are numbers in network order, in this place each. */
  lemma HeadBytes(s: seq<byte>)
    requires |s| == 16
    ensures DecodeHead(s)
         == HeadInfo(Word(s[0], s[1]), Word(s[2], s[3]), Word(s[4], s[5]), Word(s[6], s[7]),
                     Long(s[8], s[9], s[10], s[11]), Long(s[12], s[13], s[14], s[15]))
  {
    hide FromBe;
    hide Word;
    hide Long;
    WordAt(s, 0);
    WordAt(s, 2);
    WordAt(s, 4);
    WordAt(s, 6);
    LongAt(s, 8);
    LongAt(s, 12);
  }

  lemma WordAt(s: seq<byte>, i: nat)
    requires i + 2 <= |s|
    ensures FromBe(s[i..i + 2]) == Word(s[i], s[i + 1])
  {
    assert s[i..i + 2] == [s[i], s[i + 1]];
    InNetworkOrder(s[i], s[i + 1], 0, 0);
  }

  lemma LongAt(s: seq<byte>, i: nat)
    requires i + 4 <= |s|
    ensures FromBe(s[i..i + 4]) == Long(s[i], s[i + 1], s[i + 2], s[i + 3])
  {
    hide Long;
    hide FromBe;
    assert s[i..i + 4] == [s[i], s[i + 1], s[i + 2], s[i + 3]];
    InNetworkOrder(s[i], s[i + 1], s[i + 2], s[i + 3]);
  }

  lemma HeadSlices(a: seq<byte>, b: seq<byte>, c: seq<byte>, d: seq<byte>, e: seq<byte>, f: seq<byte>)
    requires |a| == |b| == |c| == |d| == 2 && |e| == |f| == 4
    ensures var s := a + b + c + d + e + f;
            && |s| == 16 && s[0..2] == a && s[2..4] == b && s[4..6] == c && s[6..8] == d
            && s[8..12] == e && s[12..16] == f
  {
  }

  lemma Be16Of(n: u16)
    ensures Be16(ToBe(n, 2)) == n
  {
    hide ToBe;
    hide FromBe;
    hide Pow256;
    Powers();
    DecodeEncode(n, 2);
  }

  lemma Be32Of(n: u32)
    ensures Be32(ToBe(n, 4)) == n
  {
    hide ToBe;
    hide FromBe;
    hide Pow256;
    Powers();
    DecodeEncode(n, 4);
  }

  /** A message as a receiver sees it before it looks inside. */
  datatype Piece = Piece(head: HeadInfo, payload: seq<byte>)

  predicate WellSized(p: Piece) {
    |p.payload| == p.head.payloadSize
  }

  function EncodePiece(p: Piece): seq<byte> {
    EncodeHead(p.head) + p.payload
  }

  function EncodePieces(ps: seq<Piece>): seq<byte> {
    if ps == [] then [] else EncodePiece(ps[0]) + EncodePieces(ps[1..])
  }

  /** Cuts a stream at its headers; the second part is an incomplete message at the end. */
  function Split(s: seq<byte>): (r: (seq<Piece>, seq<byte>))
    ensures |r.1| <= |s|
    decreases |s|
  {
    if |s| < 16 then ([], s)
    else
      var h := DecodeHead(s[..16]);
      if |s| < 16 + h.payloadSize then ([], s)
      else
        var (ps, rest) := Split(s[16 + h.payloadSize..]);
        ([Piece(h, s[16..16 + h.payloadSize])] + ps, rest)
  }

  lemma SplitOne(p: Piece, tail: seq<byte>)
    requires WellSized(p)
    ensures Split(EncodePiece(p) + tail) == ([p] + Split(tail).0, Split(tail).1)
  {
    hide EncodeHead;
    hide DecodeHead;
    var s := EncodePiece(p) + tail;
    var n := 16 + p.head.payloadSize;
    DecodeEncodeHead(p.head);
    assert s[..16] == EncodeHead(p.head) && s[16..n] == p.payload && s[n..] == tail;
  }

  /** Splitting recovers every header and every payload, whatever follows. */
  lemma {:induction false} SplitInvertsEncode(ps: seq<Piece>, tail: seq<byte>)
    requires forall i :: 0 <= i < |ps| ==> WellSized(ps[i])
    ensures Split(EncodePieces(ps) + tail) == (ps + Split(tail).0, Split(tail).1)
  {
    hide Split;
    hide EncodePiece;
    var (last, end) := Split(tail);
    if ps == [] {
      assert [] + tail == tail;
      assert [] + last == last;
    } else {
      var rest := EncodePieces(ps[1..]) + tail;
      assert EncodePieces(ps) + tail == EncodePiece(ps[0]) + rest;
      SplitOne(ps[0], rest);
      SplitInvertsEncode(ps[1..], tail);
      assert [ps[0]] + (ps[1..] + last) == ps + last;
    }
  }

  lemma EncodeDecodeHead(s: seq<byte>)
    requires |s| == 16
    ensures EncodeHead(DecodeHead(s)) == s
  {
    hide ToBe;
    hide FromBe;
    EncodeDecode(s[0..2]);
    EncodeDecode(s[2..4]);
    EncodeDecode(s[4..6]);
    EncodeDecode(s[6..8]);
    EncodeDecode(s[8..12]);
    EncodeDecode(s[12..16]);
    SixParts(s);
  }

  lemma SixParts(s: seq<byte>)
    requires |s| == 16
    ensures s == s[0..2] + s[2..4] + s[4..6] + s[6..8] + s[8..12] + s[12..16]
  {
  }

  lemma ConsPiece(p: Piece, ps: seq<Piece>, rest: seq<byte>)
    ensures EncodePieces([p] + ps) + rest == EncodePiece(p) + (EncodePieces(ps) + rest)
  {
    hide EncodePiece;
    assert ([p] + ps)[1..] == ps;
    assert EncodePiece(p) + (EncodePieces(ps) + rest) == (EncodePiece(p) + EncodePieces(ps)) + rest;
  }

  /** And nothing of a stream is lost or invented: its pieces, put together again, are the
      stream. */
  lemma {:induction false} EncodeInvertsSplit(s: seq<byte>)
    ensures var (ps, rest) := Split(s);
            EncodePieces(ps) + rest == s && forall i :: 0 <= i < |ps| ==> WellSized(ps[i])
    decreases |s|
  {
    hide EncodeHead;
    hide DecodeHead;
    hide EncodePieces;
    if |s| >= 16 && |s| >= 16 + DecodeHead(s[..16]).payloadSize {
      var h := DecodeHead(s[..16]);
      var n := 16 + h.payloadSize;
      EncodeInvertsSplit(s[n..]);
      hide Split;
      var (ps, rest) := Split(s[n..]);
      ConsPiece(Piece(h, s[16..n]), ps, rest);
      OnePiece(s);
      assert Split(s) == ([Piece(h, s[16..n])] + ps, rest) by {
        SplitStep(s);
      }
    } else {
      assert EncodePieces([]) + s == s by { NoPieces(s); }
    }
  }

  lemma SplitStep(s: seq<byte>)
    requires |s| >= 16 && |s| >= 16 + DecodeHead(s[..16]).payloadSize
    ensures var h := DecodeHead(s[..16]);
            var n := 16 + h.payloadSize;
            Split(s) == ([Piece(h, s[16..n])] + Split(s[n..]).0, Split(s[n..]).1)
  {
    hide DecodeHead;
  }

  lemma NoPieces(s: seq<byte>)
    ensures EncodePieces([]) + s == s
  {
    assert [] + s == s;
  }

  /** The bytes of the first message of a stream. */
  lemma OnePiece(s: seq<byte>)
    requires |s| >= 16 && |s| >= 16 + DecodeHead(s[..16]).payloadSize
    ensures var h := DecodeHead(s[..16]);
            var n := 16 + h.payloadSize;
            EncodePiece(Piece(h, s[16..n])) + s[n..] == s
  {
    hide EncodeHead;
    hide DecodeHead;
    var n := 16 + DecodeHead(s[..16]).payloadSize;
    EncodeDecodeHead(s[..16]);
    assert s == (s[..16] + s[16..n]) + s[n..];
  }

  function PieceOf(m: CaMsg): (p: Piece)
    requires Encodable(m)
    ensures WellSized(p)
  {
    Piece(HeadOf(m), Payload(m))
  }

  /** The bytes that `place_into` produces. */
  function Encode(m: CaMsg): (s: seq<byte>)
    requires Encodable(m)
    ensures |s| == 16 + PayloadLen(m)
  {
    EncodePiece(PieceOf(m))
  }

  predicate AllEncodable(ms: seq<CaMsg>) {
    forall i :: 0 <= i < |ms| ==> Encodable(ms[i])
  }

  function EncodeAll(ms: seq<CaMsg>): seq<byte>
    requires AllEncodable(ms)
  {
    if ms == [] then [] else Encode(ms[0]) + EncodeAll(ms[1..])
  }

  function PiecesOf(ms: seq<CaMsg>): (ps: seq<Piece>)
    requires AllEncodable(ms)
    ensures |ps| == |ms| && forall i :: 0 <= i < |ms| ==> ps[i] == PieceOf(ms[i])
  {
    if ms == [] then [] else [PieceOf(ms[0])] + PiecesOf(ms[1..])
  }

  lemma {:induction false} EncodeAllIsPieces(ms: seq<CaMsg>)
    requires AllEncodable(ms)
    ensures EncodeAll(ms) == EncodePieces(PiecesOf(ms))
  {
    if ms != [] {
      EncodeAllIsPieces(ms[1..]);
      assert PiecesOf(ms)[1..] == PiecesOf(ms[1..]);
    }
  }

  lemma {:induction false} EncodeAllAppend(a: seq<CaMsg>, b: seq<CaMsg>)
    requires AllEncodable(a) && AllEncodable(b)
    ensures EncodeAll(a + b) == EncodeAll(a) + EncodeAll(b)
  {
    if a == [] {
      assert a + b == b;
    } else {
      assert (a + b)[0] == a[0] && (a + b)[1..] == a[1..] + b;
      EncodeAllAppend(a[1..], b);
      assert Encode(a[0]) + (EncodeAll(a[1..]) + EncodeAll(b)) == (Encode(a[0]) + EncodeAll(a[1..])) + EncodeAll(b);
    }
  }

  // ---- the requests, as the specification has a server read them ----

  function UpToNul(s: seq<byte>): (p: seq<byte>)
    ensures p <= s && 0 !in p && (p == s || s[|p|] == 0)
  {
    if s == [] || s[0] == 0 then [] else [s[0]] + UpToNul(s[1..])
  }

  predicate NulFree(s: seq<byte>) {
    forall i :: 0 <= i < |s| ==> s[i] != 0
  }

  /** A client request, read as strictly as the specification allows: every number of the header is
      the one that belongs there, names fill a multiple of eight bytes, the client gives its name
      "daqingest", and the mask of a subscription asks for values, log values and alarms. */
  function ReadRequest(p: Piece): Option<CaMsg> {
    var h, n := p.head, |p.payload|;
    if h.cmdid == 0x01 && h.payloadSize == 16 && p.payload == [0, 0, 0, 0, 0, 0, 0, 0, 0, 0, 0, 0, 0, 0x0e, 0, 0] then
      Some(EventAdd(h.dataType, h.dataCount, h.param1, h.param2))
    else if h.cmdid == 0x0f && h.payloadSize == 0 then
      Some(ReadNotify(h.dataType, h.dataCount, h.param1, h.param2))
    else if h == HeadInfo(0x06, h.payloadSize, 1, 13, h.param1, h.param1) && n % 8 == 0 then
      Some(Search(h.param1, UpToNul(p.payload)))
    else if h == HeadInfo(0x12, h.payloadSize, 0, 0, h.param1, 13) && n % 8 == 0 then
      Some(CreateChan(h.param1, UpToNul(p.payload)))
    else if h == HeadInfo(0x14, 16, 0, 0, 0, 0)
            && p.payload == [0x64, 0x61, 0x71, 0x69, 0x6e, 0x67, 0x65, 0x73, 0x74, 0, 0, 0, 0, 0, 0, 0] then
      Some(ClientName)
    else if h == HeadInfo(0x15, 24, 0, 0, 0, 0) then Some(HostName(UpToNul(p.payload)))
    else if h == HeadInfo(0x00, 0, 0, 13, 0, 0) then Some(Version)
    else if h == HeadInfo(0x17, 0, 0, 0, 0, 0) then Some(Echo)
    else None
  }

  /** The requests a client sends, with names as the format can carry them. */
  predicate IsRequest(m: CaMsg) {
    match m
    case Search(_, channel) => NulFree(channel)
    case CreateChan(_, channel) => NulFree(channel)
    case HostName(host) => NulFree(host)
    case _ => m.Version? || m.ClientName? || m.EventAdd? || m.ReadNotify? || m.Echo?
  }

  lemma {:induction false} NameSurvivesPadding(s: seq<byte>, n: nat)
    requires NulFree(s) && |s| <= n
    ensures UpToNul(ZeroPadded(s, n)) == s
    decreases |s|
  {
    if s == [] {
      assert ZeroPadded(s, n) == Zeros(n);
    } else {
      assert ZeroPadded(s, n)[1..] == ZeroPadded(s[1..], n - 1);
      NameSurvivesPadding(s[1..], n - 1);
    }
  }

  lemma ClientNamePayload()
    ensures ZeroPadded(CLIENT_NAME, 0x10)
         == [0x64, 0x61, 0x71, 0x69, 0x6e, 0x67, 0x65, 0x73, 0x74, 0, 0, 0, 0, 0, 0, 0]
  {
  }

  lemma RequestSurvives(m: CaMsg)
    requires Encodable(m) && IsRequest(m)
    ensures ReadRequest(PieceOf(m)) == Some(m)
  {
    hide UpToNul;
    hide Padded;
    hide ZeroPadded;
    match m
    case ClientName => ClientNamePayload();
    case Search(_, channel) => NameSurvivesPadding(channel, Padded(|channel|));
    case CreateChan(_, channel) => NameSurvivesPadding(channel, Padded(|channel|));
    case HostName(host) => NameSurvivesPadding(host, 0x18);
    case _ =>
  }

  /** Inversion: cutting the bytes of any requests at their headers yields exactly those requests,
      in order, and a following incomplete message is left whole. */
  lemma RequestsSurvive(ms: seq<CaMsg>, tail: seq<byte>)
    requires AllEncodable(ms) && forall i :: 0 <= i < |ms| ==> IsRequest(ms[i])
    requires |tail| < 16
    ensures var (ps, rest) := Split(EncodeAll(ms) + tail);
            && rest == tail && |ps| == |ms|
            && forall i :: 0 <= i < |ms| ==> ReadRequest(ps[i]) == Some(ms[i])
  {
    hide EncodeAll;
    hide EncodePieces;
    hide Split;
    hide PiecesOf;
    hide PieceOf;
    hide ReadRequest;
    hide IsRequest;
    EncodeAllIsPieces(ms);
    SplitInvertsEncode(PiecesOf(ms), tail);
    assert Split(tail) == ([], tail) by { TooShort(tail); }
    assert PiecesOf(ms) + [] == PiecesOf(ms);
    forall i | 0 <= i < |ms|
      ensures ReadRequest(PiecesOf(ms)[i]) == Some(ms[i])
    {
      RequestSurvives(ms[i]);
    }
  }

  lemma TooShort(s: seq<byte>)
    requires |s| < 16
    ensures Split(s) == ([], s)
  {
  }
}
