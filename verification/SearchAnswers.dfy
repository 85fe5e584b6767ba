/**
 What the search engine reads from a datagram (`try_read` in netfetch/src/ca/findioc.rs): its
 messages are cut apart and decoded, and the answers to searches are picked out.
 */
module SearchAnswers {
  import opened Bytes
  import opened Arithmetic
  import opened Wrappers
  import opened SlideBuffer
  import opened CaWire
  import opened CaReading
  import opened FindIocState
  import CaDecode
  import CaProto

  /** The receive buffer. What a datagram has beyond it is lost. */
  const RECEIVE_SIZE: nat := 1024
  const ARRAY_LIMIT: nat := 32

  type Shapes = u16 -> Option<CaDecode.Shape>

  function SearchDecoder(shapeOf: Shapes): Decoder {
    Decoder(shapeOf, ARRAY_LIMIT)
  }

  /** The complete messages of a datagram. The payload that is handed on for decoding is not cut off
      at its size: it is everything that follows the header. */
  function Cut(s: seq<byte>): (ps: seq<Piece>)
    decreases |s|
  {
    if |s| < 16 then []
    else
      var h, rest := DecodeHead(s[..16]), s[16..];
      if |rest| < h.payloadSize then [] else [Piece(h, rest)] + Cut(rest[h.payloadSize..])
  }

  function FoundOne(o: CaDecode.Outcome, ip: nat): seq<(SearchId, Addr)> {
    match o
    case Decoded(Message(SearchRes(_, port, id))) => [(id, Addr(ip, port))]
    case _ => []
  }

  /** The answers to searches among the messages. */
  function Found(os: seq<CaDecode.Outcome>, ip: nat): seq<(SearchId, Addr)> {
    if os == [] then [] else FoundOne(os[0], ip) + Found(os[1..], ip)
  }

  datatype Received = Crashed | Received(env: ReadEnv)

  /** What is made of the messages. The first one is skipped without a look at what it is, unless it
      is a version that does not fit, which discards the others. */
  function Picked(os: seq<CaDecode.Outcome>, src: Addr): Received {
    if os == [] then Crashed
    else if os[|os| - 1].Failed? then Received(ReadFailed)
    else if os[|os| - 1].Panics? then Crashed
    else
      match os[0]
      case Decoded(Message(VersionRes(v))) => Received(Got(src, if v != 13 then [] else Found(os[1..], src.ip)))
      case _ => Received(Got(src, Found(os[1..], src.ip)))
  }

  /** `try_read` for a datagram. */
  function TryRead(datagram: seq<byte>, src: Addr, shapeOf: Shapes): Received {
    var received := datagram[..Min(|datagram|, RECEIVE_SIZE)];
    if received == [] then Received(ReadFailed)
    else Picked(Outcomes(SearchDecoder(shapeOf), Cut(received)), src)
  }

  // ---- the loops ----

  /** The loop that cuts and decodes. It ends at an incomplete message or at one that is refused. */
  method DecodeMessages(received: seq<byte>, d: Decoder) returns (msgs: seq<CaDecode.Outcome>)
    requires |received| <= RECEIVE_SIZE
    ensures msgs == Outcomes(d, Cut(received))
  {
    hide SlideBuf.Data;
    hide DecodeHead;
    hide DecodePiece;
    hide Cut;
    hide Outcomes;
    var nb := new SlideBuf(2048);
    var p := nb.PutSlice(received);
    msgs := [];
    assert [] + received == received;
    assert msgs + Outcomes(d, Cut(received)) == Outcomes(d, Cut(received));
    while nb.Len() >= 16
      invariant fresh(nb) && fresh(nb.buf) && nb.Valid()
      invariant msgs + Outcomes(d, Cut(nb.Data())) == Outcomes(d, Cut(received))
      decreases |nb.Data()|
    {
      ghost var s := nb.Data();
      var hi := CaProto.FromNetbuf(nb);
      var n := hi.value.payloadSize as nat;
      if nb.Len() < n {
        CutNone(s, d);
        assert msgs + [] == msgs;
        return;
      }
      var piece := Piece(hi.value, nb.Data());
      CutOne(s, d);
      var msg := DecodePiece(d, piece);
      if !msg.Decoded? {
        assert [msg] + [] == [msg];
        return msgs + [msg];
      }
      var a := nb.Adv(n);
      assert msgs + ([msg] + Outcomes(d, Cut(nb.Data()))) == (msgs + [msg]) + Outcomes(d, Cut(nb.Data()));
      msgs := msgs + [msg];
    }
    CutNone(nb.Data(), d);
    assert msgs + [] == msgs;
  }

  lemma CutNone(s: seq<byte>, d: Decoder)
    requires Incomplete(s)
    ensures Cut(s) == [] && Outcomes(d, Cut(s)) == []
  {
    hide DecodeHead;
  }

  lemma CutOne(s: seq<byte>, d: Decoder)
    requires |s| >= 16 && |s[16..]| >= DecodeHead(s[..16]).payloadSize
    ensures var h, rest := DecodeHead(s[..16]), s[16..];
            var o, more := DecodePiece(d, Piece(h, rest)), Cut(rest[h.payloadSize..]);
            && Cut(s) == [Piece(h, rest)] + more
            && Outcomes(d, Cut(s)) == [o] + if o.Decoded? then Outcomes(d, more) else []
  {
    hide DecodeHead;
    hide DecodePiece;
    var h, rest := DecodeHead(s[..16]), s[16..];
    assert ([Piece(h, rest)] + Cut(rest[h.payloadSize..]))[1..] == Cut(rest[h.payloadSize..]);
  }

  /** `try_read`, for a datagram that is there. */
  method ReadDatagram(datagram: seq<byte>, src: Addr, shapeOf: Shapes) returns (r: Received)
    ensures r == TryRead(datagram, src, shapeOf)
  {
    hide Cut;
    hide Outcomes;
    var received := datagram[..Min(|datagram|, RECEIVE_SIZE)];
    if received == [] {
      return Received(ReadFailed);
    }
    var msgs := DecodeMessages(received, SearchDecoder(shapeOf));
    r := PickAnswers(msgs, src);
  }

  /** What `try_read` makes of the messages. */
  method PickAnswers(msgs: seq<CaDecode.Outcome>, src: Addr) returns (r: Received)
    ensures r == Picked(msgs, src)
  {
    if msgs != [] && !msgs[|msgs| - 1].Decoded? {
      return if msgs[|msgs| - 1].Failed? then Received(ReadFailed) else Crashed;
    }
    if msgs == [] {
      return Crashed;
    }
    var good := true;
    match msgs[0] {
      case Decoded(Message(VersionRes(v))) =>
        if v != 13 {
          good := false;
        }
      case _ =>
    }
    var res := [];
    if good {
      res := FindAnswers(msgs, src.ip);
    }
    r := Received(Got(src, res));
  }

  /** The loop over all messages but the first. */
  method FindAnswers(msgs: seq<CaDecode.Outcome>, ip: nat) returns (res: seq<(SearchId, Addr)>)
    requires msgs != []
    ensures res == Found(msgs[1..], ip)
  {
    hide Found;
    res := [];
    assert [] + Found(msgs[1..], ip) == Found(msgs[1..], ip);
    for i := 1 to |msgs|
      invariant res + Found(msgs[i..], ip) == Found(msgs[1..], ip)
    {
      FoundStep(msgs, i, ip, res);
      match msgs[i] {
        case Decoded(Message(SearchRes(_, port, id))) =>
          res := res + [(id, Addr(ip, port))];
        case _ =>
          assert res + [] == res;
      }
    }
    NothingFound(msgs, ip);
    assert res + [] == res;
  }

  lemma NothingFound(msgs: seq<CaDecode.Outcome>, ip: nat)
    ensures Found(msgs[|msgs|..], ip) == []
  {
  }

  /** What message i adds to the answers that were found before. */
  lemma FoundStep(msgs: seq<CaDecode.Outcome>, i: nat, ip: nat, res: seq<(SearchId, Addr)>)
    requires i < |msgs|
    ensures res + Found(msgs[i..], ip) == (res + FoundOne(msgs[i], ip)) + Found(msgs[i + 1..], ip)
  {
    assert msgs[i..][0] == msgs[i] && msgs[i..][1..] == msgs[i + 1..];
    var one, more := FoundOne(msgs[i], ip), Found(msgs[i + 1..], ip);
    assert res + (one + more) == (res + one) + more;
  }

  // ---- datagrams that cannot be read ----

  /** A message whose decoding slices its payload out of range. */
  predicate BadSlice(p: Piece, shapeOf: Shapes) {
    || (p.head.cmdid == 0x0b && |p.payload| == 17)
    || (p.head.cmdid == 1 && 14 <= p.head.dataType <= 20 && shapeOf(p.head.dataCount).Some?
        && 12 <= |p.payload| < CaDecode.WireOffset(p.head.dataType))
  }

  /** Such a message comes after others that are decoded. */
  ghost predicate MeetsBadSlice(ps: seq<Piece>, shapeOf: Shapes) {
    exists i | 0 <= i < |ps| :: Accepts(SearchDecoder(shapeOf), ps[..i]) && BadSlice(ps[i], shapeOf)
  }

  /** The datagram does not even hold the first message that it announces. */
  predicate Incomplete(s: seq<byte>) {
    |s| < 16 || |s| < 16 + DecodeHead(s[..16]).payloadSize
  }

  /** Reading panics exactly if there is something in the datagram but no complete message, or the
      first message that is not decoded is one whose payload is sliced out of range. */
  lemma CrashesIff(datagram: seq<byte>, src: Addr, shapeOf: Shapes)
    ensures var received := datagram[..Min(|datagram|, 1024)];
            TryRead(datagram, src, shapeOf) == Crashed
            <==> received != [] && (Incomplete(received) || MeetsBadSlice(Cut(received), shapeOf))
  {
    hide DecodePiece;
    hide Outcomes;
    hide BadSlice;
    hide DecodeHead;
    hide Found;
    var d := SearchDecoder(shapeOf);
    var received := datagram[..Min(|datagram|, RECEIVE_SIZE)];
    var ps := Cut(received);
    assert ps == [] <==> Incomplete(received);
    hide Cut;
    hide Incomplete;
    hide MeetsBadSlice;
    OutcomesAre(d, ps);
    LastPanicsIff(ps, shapeOf);
    PickedCrashes(Outcomes(d, ps), src);
    hide Picked;
    assert ps == [] <==> Outcomes(d, ps) == [];
  }

  lemma PickedCrashes(os: seq<CaDecode.Outcome>, src: Addr)
    ensures Picked(os, src) == Crashed <==> os == [] || os[|os| - 1].Panics?
  {
  }

  /** Decoding ends with a panic exactly at the first piece that is not decoded. */
  lemma LastPanicsIff(ps: seq<Piece>, shapeOf: Shapes)
    ensures var d := SearchDecoder(shapeOf);
            var os := Outcomes(d, ps);
            os != [] && os[|os| - 1].Panics?
            <==> MeetsBadSlice(ps, shapeOf)
  {
    hide DecodePiece;
    hide Outcomes;
    hide BadSlice;
    var d := SearchDecoder(shapeOf);
    var os := Outcomes(d, ps);
    OutcomesAre(d, ps);
    if i :| 0 <= i < |ps| && Accepts(d, ps[..i]) && BadSlice(ps[i], shapeOf) {
      BadSliceIs(ps[i], shapeOf);
      FirstRefused(d, ps, i);
    }
    if os != [] && os[|os| - 1].Panics? {
      var i := |os| - 1;
      BadSliceIs(ps[i], shapeOf);
      assert forall j :: 0 <= j < i ==> ps[..i][j] == ps[j] && os[j].Decoded?;
      assert Accepts(d, ps[..i]);
    }
  }

  lemma BadSliceIs(p: Piece, shapeOf: Shapes)
    ensures DecodePiece(SearchDecoder(shapeOf), p).Panics? <==> BadSlice(p, shapeOf)
  {
    hide CaDecode.Decode;
    CaDecode.PanicsIff(p.head, shapeOf(p.head.dataCount), p.payload, ARRAY_LIMIT);
  }

  /** The first piece that is refused is the last one that is looked at. */
  lemma FirstRefused(d: Decoder, ps: seq<Piece>, i: nat)
    requires i < |ps| && Accepts(d, ps[..i]) && !DecodePiece(d, ps[i]).Decoded?
    ensures var os := Outcomes(d, ps); |os| == i + 1 && os[i] == DecodePiece(d, ps[i])
  {
    hide DecodePiece;
    hide Outcomes;
    OutcomesAre(d, ps);
    assert forall j :: 0 <= j < i ==> ps[..i][j] == ps[j];
  }

  // ---- what an IOC answers ----

  /** An answer to a search as the specification has it: the TCP port in the place of the type, and
      the minor version in a payload of eight bytes. */
  function AnswerPiece(id: SearchId, port: u16): Piece {
    Piece(HeadInfo(6, 8, port, 0, 0xffff_ffff, id), ToBe(13, 2) + Zeros(6))
  }

  function AnswerPieces(answers: seq<(SearchId, u16)>): (ps: seq<Piece>)
    ensures |ps| == |answers| && forall i :: 0 <= i < |ps| ==> ps[i] == AnswerPiece(answers[i].0, answers[i].1)
  {
    seq(|answers|, i requires 0 <= i < |answers| => AnswerPiece(answers[i].0, answers[i].1))
  }

  const VERSION_PIECE: Piece := Piece(HeadInfo(0, 0, 0, 13, 0, 0), [])

  /** A datagram with these answers, with or without the version in front. */
  function AnswerDatagram(version: bool, answers: seq<(SearchId, u16)>): seq<byte> {
    (if version then EncodePiece(VERSION_PIECE) else []) + EncodePieces(AnswerPieces(answers))
  }

  function Addresses(answers: seq<(SearchId, u16)>, ip: nat): seq<(SearchId, Addr)> {
    seq(|answers|, i requires 0 <= i < |answers| => (answers[i].0, Addr(ip, answers[i].1)))
  }

  predicate IsAnswer(o: CaDecode.Outcome, a: (SearchId, u16)) {
    o == CaDecode.Decoded(CaDecode.Message(SearchRes(0xffff_ffff, a.1, a.0)))
  }

  lemma {:induction false} FoundAll(os: seq<CaDecode.Outcome>, answers: seq<(SearchId, u16)>, ip: nat)
    requires |os| == |answers| && forall i :: 0 <= i < |os| ==> IsAnswer(os[i], answers[i])
    ensures Found(os, ip) == Addresses(answers, ip)
  {
    if os != [] {
      FoundAll(os[1..], answers[1..], ip);
      assert Addresses(answers, ip) == [(answers[0].0, Addr(ip, answers[0].1))] + Addresses(answers[1..], ip);
    }
  }

  /** So many answers fit into n bytes. */
  function Fitting(k: nat, n: nat): (f: nat)
    ensures f <= k
  {
    Min(k, n / 24)
  }

  lemma AnswerFirst(id: SearchId, port: u16, tail: seq<byte>, n: nat, d: Decoder)
    requires n <= 24 + |tail|
    ensures var s := (EncodePiece(AnswerPiece(id, port)) + tail)[..n];
            if n < 24 then Cut(s) == []
            else Outcomes(d, Cut(s)) == [CaDecode.Decoded(CaDecode.Message(SearchRes(0xffff_ffff, port, id)))]
                                        + Outcomes(d, Cut(tail[..n - 24]))
  {
    hide EncodeHead;
    hide DecodeHead;
    hide Outcomes;
    var p := AnswerPiece(id, port);
    var all := EncodePiece(p) + tail;
    var s := all[..n];
    DecodeEncodeHead(p.head);
    if n >= 16 {
      assert s[..16] == all[..16] == EncodeHead(p.head);
      if n >= 24 {
        CutOne(s, d);
        assert s[16..][8..] == tail[..n - 24];
      }
    }
  }

  lemma {:induction false} AnswersCut(answers: seq<(SearchId, u16)>, n: nat, d: Decoder)
    requires n <= |EncodePieces(AnswerPieces(answers))|
    ensures |EncodePieces(AnswerPieces(answers))| == 24 * |answers|
    ensures var os := Outcomes(d, Cut(EncodePieces(AnswerPieces(answers))[..n]));
            && |os| == Fitting(|answers|, n)
            && forall i :: 0 <= i < |os| ==> IsAnswer(os[i], answers[i])
  {
    hide AnswerPiece;
    hide EncodePiece;
    hide Outcomes;
    hide Cut;
    if answers == [] {
      NothingCut(d);
    } else {
      var rest := answers[1..];
      var tail := EncodePieces(AnswerPieces(rest));
      assert AnswerPieces(answers)[1..] == AnswerPieces(rest);
      AnswerSize(answers[0].0, answers[0].1);
      assert EncodePieces(AnswerPieces(answers)) == EncodePiece(AnswerPiece(answers[0].0, answers[0].1)) + tail;
      AnswersCut(rest, if n < 24 then 0 else n - 24, d);
      AnswerFirst(answers[0].0, answers[0].1, tail, n, d);
      if n < 24 {
        NothingCut(d);
      }
    }
  }

  lemma AnswerSize(id: SearchId, port: u16)
    ensures |EncodePiece(AnswerPiece(id, port))| == 24
  {
  }

  lemma NothingCut(d: Decoder)
    ensures Cut([]) == [] && Outcomes(d, []) == []
  {
  }

  lemma VersionFirst(tail: seq<byte>, d: Decoder)
    ensures |EncodePiece(VERSION_PIECE)| == 16
    ensures Outcomes(d, Cut(EncodePiece(VERSION_PIECE) + tail))
         == [CaDecode.Decoded(CaDecode.Message(VersionRes(13)))] + Outcomes(d, Cut(tail))
  {
    hide EncodeHead;
    hide DecodeHead;
    hide Outcomes;
    var s := EncodePiece(VERSION_PIECE) + tail;
    DecodeEncodeHead(VERSION_PIECE.head);
    assert s[..16] == EncodeHead(VERSION_PIECE.head) && s[16..] == tail && tail[0..] == tail;
    CutOne(s, d);
  }

  /** So many answers arrive: those that fit into the receive buffer, behind a version or not. */
  const MOST_ANSWERS: nat := 42

  lemma VersionedArrive(answers: seq<(SearchId, u16)>, src: Addr, shapeOf: Shapes)
    ensures TryRead(AnswerDatagram(true, answers), src, shapeOf)
         == Received(Got(src, Addresses(answers[..Min(|answers|, MOST_ANSWERS)], src.ip)))
  {
    hide EncodePieces;
    hide EncodePiece;
    hide AnswerPieces;
    hide Outcomes;
    hide Cut;
    hide Found;
    var d, body := SearchDecoder(shapeOf), EncodePieces(AnswerPieces(answers));
    AnswersCut(answers, 0, d);
    var n := Min(|body|, RECEIVE_SIZE - 16);
    AnswersCut(answers, n, d);
    VersionFirst(body[..n], d);
    var datagram := EncodePiece(VERSION_PIECE) + body;
    assert datagram[..Min(|datagram|, RECEIVE_SIZE)] == EncodePiece(VERSION_PIECE) + body[..n];
    var os := Outcomes(d, Cut(body[..n]));
    FoundAll(os, answers[..|os|], src.ip);
    var version := CaDecode.Decoded(CaDecode.Message(VersionRes(13)));
    assert ([version] + os)[1..] == os;
  }

  lemma UnversionedArrive(answers: seq<(SearchId, u16)>, src: Addr, shapeOf: Shapes)
    requires answers != []
    ensures TryRead(AnswerDatagram(false, answers), src, shapeOf)
         == Received(Got(src, Addresses(answers[1..Min(|answers|, MOST_ANSWERS)], src.ip)))
  {
    hide EncodePieces;
    hide EncodePiece;
    hide AnswerPieces;
    hide Outcomes;
    hide Cut;
    hide Found;
    var d, body := SearchDecoder(shapeOf), EncodePieces(AnswerPieces(answers));
    AnswersCut(answers, 0, d);
    var n := Min(|body|, RECEIVE_SIZE);
    AnswersCut(answers, n, d);
    assert [] + body == body;
    var os := Outcomes(d, Cut(body[..n]));
    forall i | 0 <= i < |os| - 1
      ensures IsAnswer(os[1..][i], answers[1..|os|][i])
    {
      assert IsAnswer(os[i + 1], answers[i + 1]);
    }
    assert IsAnswer(os[0], answers[0]) && IsAnswer(os[|os| - 1], answers[|os| - 1]);
    FoundAll(os[1..], answers[1..|os|], src.ip);
  }

  /** What an IOC answers arrives, in order and from its address, exactly if the IOC puts its version
      in front and there are at most 42 answers. Without a version the first answer is lost. */
  lemma AnswersArriveIff(version: bool, answers: seq<(SearchId, u16)>, src: Addr, shapeOf: Shapes)
    requires answers != []
    ensures TryRead(AnswerDatagram(version, answers), src, shapeOf) == Received(Got(src, Addresses(answers, src.ip)))
       <==> version && |answers| <= MOST_ANSWERS
    ensures TryRead(AnswerDatagram(version, answers), src, shapeOf)
         == Received(Got(src, Addresses(answers[if version then 0 else 1..Min(|answers|, MOST_ANSWERS)], src.ip)))
  {
    hide TryRead;
    hide AnswerDatagram;
    var n := Min(|answers|, MOST_ANSWERS);
    assert answers[0..n] == answers[..n];
    assert |answers| <= MOST_ANSWERS ==> answers[..n] == answers;
    assert |Addresses(answers, src.ip)| == |answers|;
    if version {
      VersionedArrive(answers, src, shapeOf);
      assert |Addresses(answers[..n], src.ip)| == n;
    } else {
      UnversionedArrive(answers, src, shapeOf);
      assert |Addresses(answers[1..n], src.ip)| == n - 1;
    }
  }
}
