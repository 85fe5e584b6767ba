/**
 The receiving half of netfetch/src/ca/proto.rs on values: the reader's states and one parse
 step. One incremental machine emits pieces (a header and its payload); the other one decodes each
 of them, and stops at the first one that is refused.
 */
module CaReading {
  import opened Bytes
  import opened Incremental
  import opened Wrappers
  import opened CaWire
  import CaDecode

  datatype CaState = StdHead | ExtHead(hi: HeadInfo) | AtPayload(hi: HeadInfo) | Done

  function NeedMin(st: CaState): nat {
    match st
    case StdHead => 16
    case ExtHead(_) => 8
    case AtPayload(hi) => hi.payloadSize
    case Done => 123
  }

  /** A header that announces an extended header. */
  predicate Extends(hi: HeadInfo) {
    hi.payloadSize == 0xffff && hi.dataCount == 0
  }

  /** One call of `parse_item` on the bytes it consumes. The size in an extended header decides
      which way to go but is not kept. */
  function Step(st: CaState, c: seq<byte>): Outcome<CaState, Piece>
    requires |c| == NeedMin(st)
  {
    match st
    case StdHead =>
      var hi := DecodeHead(c);
      if Extends(hi) then Next(ExtHead(hi), [])
      else if hi.payloadSize == 0 then Next(StdHead, [Piece(hi, [])])
      else Next(AtPayload(hi), [])
    case ExtHead(hi) =>
      if Be32(c[0..4]) <= 16368 then Next(StdHead, [Piece(hi, [])]) else Next(AtPayload(hi), [])
    case AtPayload(hi) => Next(StdHead, [Piece(hi, c)])
    case Done => Stop([])
  }

  function Reading(): Machine<CaState, Piece> {
    Machine(
      (st: CaState) => NeedMin(st),
      (st: CaState, c: seq<byte>) => if |c| == NeedMin(st) then Step(st, c) else Stop([]),
      (st: CaState) => if st.AtPayload? then 1 else 0)
  }

  lemma ReadingProgresses()
    ensures Progressive(Reading())
  {
    var m := Reading();
    forall st: CaState | m.need(st) == 0 && m.step(st, []).Next?
      ensures m.rank(m.step(st, []).next) < m.rank(st)
    {
      assert st.AtPayload?;
    }
  }

  lemma DrainPiece(p: Piece, rest: seq<byte>)
    requires Progressive(Reading()) && WellSized(p) && !Extends(p.head)
    ensures Drain(Reading(), StdHead, EncodePiece(p) + rest) == Prepend([p], Drain(Reading(), StdHead, rest))
  {
    hide EncodeHead;
    hide DecodeHead;
    var m := Reading();
    var h := EncodeHead(p.head);
    DecodeEncodeHead(p.head);
    var all := EncodePiece(p) + rest;
    assert all[..16] == h && all[16..] == p.payload + rest;
    if p.payload == [] {
      assert p.payload + rest == rest;
    } else {
      var n := |p.payload|;
      var more := p.payload + rest;
      assert more[..n] == p.payload && more[n..] == rest;
      PrependNothing(Drain(m, AtPayload(p.head), more));
    }
  }

  lemma {:induction false} DrainPieces(ps: seq<Piece>, rest: seq<byte>)
    requires Progressive(Reading())
    requires forall i :: 0 <= i < |ps| ==> WellSized(ps[i]) && !Extends(ps[i].head)
    ensures Drain(Reading(), StdHead, EncodePieces(ps) + rest) == Prepend(ps, Drain(Reading(), StdHead, rest))
  {
    hide Drain;
    hide EncodePiece;
    var m := Reading();
    if ps == [] {
      assert [] + rest == rest;
      PrependNothing(Drain(m, StdHead, rest));
    } else {
      var more := EncodePieces(ps[1..]) + rest;
      assert EncodePieces(ps) + rest == EncodePiece(ps[0]) + more;
      DrainPiece(ps[0], more);
      DrainPieces(ps[1..], rest);
      PrependPrepend([ps[0]], ps[1..], Drain(m, StdHead, rest));
      assert [ps[0]] + ps[1..] == ps;
    }
  }

  /** Whatever the server sends with standard headers, in whatever chunks it arrives, comes out as
      the same messages in order, and the reader waits for the next header. */
  lemma AnyMessagesAnyChunks(ps: seq<Piece>, chunks: seq<seq<byte>>)
    requires forall i :: 0 <= i < |ps| ==> WellSized(ps[i]) && !Extends(ps[i].head)
    requires Concat(chunks) == EncodePieces(ps)
    ensures Progressive(Reading())
    ensures FeedAll(Reading(), Running(StdHead, [], []), chunks) == Running(StdHead, [], ps)
  {
    ReadingProgresses();
    var m := Reading();
    hide Drain;
    hide EncodePiece;
    DrainShort(m, StdHead, []);
    AnyChunking(m, StdHead, [], chunks);
    assert [] + Concat(chunks) == EncodePieces(ps) + [];
    DrainPieces(ps, []);
    assert ps + [] == ps;
  }

  // ---- extended headers ----

  /** A message with an extended header, which has the sizes that do not fit in a standard one. */
  function ExtendedMessage(h: HeadInfo, count: u32, payload: seq<byte>): seq<byte>
    requires |payload| < 0x1_0000_0000
  {
    EncodeHead(h) + ToBe(|payload|, 4) + ToBe(count, 4) + payload
  }

  /** Where the reader is after both headers. */
  lemma ExtendedStep(h: HeadInfo, count: u32, payload: seq<byte>, rest: seq<byte>)
    requires Progressive(Reading()) && Extends(h) && |payload| < 0x1_0000_0000
    ensures var m, more := Reading(), payload + rest;
            Drain(m, StdHead, ExtendedMessage(h, count, payload) + rest)
            == if |payload| <= 16368 then Prepend([Piece(h, [])], Drain(m, StdHead, more))
               else Drain(m, AtPayload(h), more)
  {
    hide Drain;
    hide EncodeHead;
    hide DecodeHead;
    hide ToBe;
    hide Be32;
    var m, size, more := Reading(), ToBe(|payload|, 4) + ToBe(count, 4), payload + rest;
    var s := ExtendedMessage(h, count, payload) + rest;
    ExtendedParts(EncodeHead(h), ToBe(|payload|, 4), ToBe(count, 4), payload, rest);
    DecodeEncodeHead(h);
    Be32Of(|payload|);
    OneStep(StdHead, s);
    OneStep(ExtHead(h), size + more);
    PrependNothing(Drain(m, ExtHead(h), size + more));
    PrependNothing(Drain(m, AtPayload(h), more));
  }

  lemma ExtendedParts(h: seq<byte>, n: seq<byte>, count: seq<byte>, payload: seq<byte>, rest: seq<byte>)
    requires |h| == 16 && |n| == |count| == 4
    ensures var s, size, more := h + n + count + payload + rest, n + count, payload + rest;
            && s[..16] == h && s[16..] == size + more
            && (size + more)[..8] == size && (size + more)[8..] == more && size[0..4] == n
  {
    assert h + n + count + payload + rest == h + (n + count + (payload + rest));
  }

  lemma OneStep(st: CaState, s: seq<byte>)
    requires Progressive(Reading()) && st != Done && |s| >= NeedMin(st)
    ensures var n := NeedMin(st);
            var r := Step(st, s[..n]);
            Drain(Reading(), st, s) == Prepend(r.events, Drain(Reading(), r.next, s[n..]))
  {
    hide DecodeHead;
    hide Be32;
    StepShape(st, s[..NeedMin(st)]);
  }

  /** A message with an extended header arrives if and only if it is empty or of 65535 bytes,
      whatever follows it: a small one is taken for empty and its payload for the next header, and
      of a large one the reader takes as many bytes as the standard header says. */
  lemma ExtendedArrivesIff(h: HeadInfo, count: u32, payload: seq<byte>, rest: seq<byte>)
    requires Progressive(Reading()) && Extends(h) && |payload| < 0x1_0000_0000
    ensures var m := Reading();
            Drain(m, StdHead, ExtendedMessage(h, count, payload) + rest)
            == Prepend([Piece(h, payload)], Drain(m, StdHead, rest))
            <==> |payload| == 0 || |payload| == 0xffff
  {
    hide Drain;
    hide ExtendedMessage;
    var m, more := Reading(), payload + rest;
    ExtendedStep(h, count, payload, rest);
    FirstEmitted(Piece(h, payload), Drain(m, StdHead, rest));
    if |payload| <= 16368 {
      FirstEmitted(Piece(h, []), Drain(m, StdHead, more));
      assert payload == [] ==> more == rest;
    } else if |more| < 0xffff {
      DrainShort(m, AtPayload(h), more);
    } else {
      OneStep(AtPayload(h), more);
      FirstEmitted(Piece(h, more[..0xffff]), Drain(m, StdHead, more[0xffff..]));
      assert |payload| == 0xffff ==> more[..0xffff] == payload && more[0xffff..] == rest;
    }
  }

  lemma FirstEmitted(p: Piece, r: Reader<CaState, Piece>)
    ensures var q := Prepend([p], r); q.emitted != [] && q.emitted[0] == p
  {
  }

  // ---- decoding ----

  /** What decoding depends on: the shape that belongs to a data count, and the limit for arrays. */
  datatype Decoder = Decoder(shapeOf: u16 -> Option<CaDecode.Shape>, arrayTruncate: nat)

  function DecodePiece(d: Decoder, p: Piece): CaDecode.Outcome {
    CaDecode.Decode(p.head, d.shapeOf(p.head.dataCount), p.payload, d.arrayTruncate)
  }

  /** One call of `parse_item`: what it makes of the piece that is complete, if any. */
  function DecodeStep(d: Decoder, st: CaState, c: seq<byte>): Outcome<CaState, CaDecode.Outcome>
    requires |c| == NeedMin(st)
  {
    match Step(st, c)
    case Stop(_) => Stop([])
    case Next(t, ps) =>
      if ps == [] then Next(t, [])
      else
        var o := DecodePiece(d, ps[0]);
        if o.Decoded? then Next(t, [o]) else Stop([o])
  }

  function Decoding(d: Decoder): Machine<CaState, CaDecode.Outcome> {
    Machine(
      (st: CaState) => NeedMin(st),
      (st: CaState, c: seq<byte>) => if |c| == NeedMin(st) then DecodeStep(d, st, c) else Stop([]),
      (st: CaState) => if st.AtPayload? then 1 else 0)
  }

  lemma DecodingProgresses(d: Decoder)
    ensures Progressive(Decoding(d))
  {
    hide CaDecode.Decode;
    var m := Decoding(d);
    forall st: CaState | m.need(st) == 0 && m.step(st, []).Next?
      ensures m.rank(m.step(st, []).next) < m.rank(st)
    {
      assert st.AtPayload?;
    }
  }

  /** Decodes the pieces up to the first one that is refused. */
  function Outcomes(d: Decoder, ps: seq<Piece>): (os: seq<CaDecode.Outcome>) {
    if ps == [] then []
    else
      var o := DecodePiece(d, ps[0]);
      [o] + if o.Decoded? then Outcomes(d, ps[1..]) else []
  }

  ghost predicate Accepts(d: Decoder, ps: seq<Piece>) {
    forall i :: 0 <= i < |ps| ==> DecodePiece(d, ps[i]).Decoded?
  }

  /** What comes out of a reader that emits the pieces. */
  ghost function Decoded(d: Decoder, r: Reader<CaState, Piece>): Reader<CaState, CaDecode.Outcome> {
    var os := Outcomes(d, r.emitted);
    if r.Running? && Accepts(d, r.emitted) then Running(r.state, r.unread, os) else Stopped(os)
  }

  lemma StepShape(st: CaState, c: seq<byte>)
    requires |c| == NeedMin(st)
    ensures st == Done ==> Step(st, c) == Stop([])
    ensures st != Done ==> Step(st, c).Next? && |Step(st, c).events| <= 1
  {
  }

  lemma DecodedOne(d: Decoder, p: Piece, r: Reader<CaState, Piece>)
    ensures var o := DecodePiece(d, p);
            Decoded(d, Prepend([p], r)) == if o.Decoded? then Prepend([o], Decoded(d, r)) else Stopped([o])
  {
    hide DecodePiece;
    var ps := [p] + r.emitted;
    assert ps[1..] == r.emitted && ps[0] == p;
    if DecodePiece(d, p).Decoded? && Accepts(d, r.emitted) {
      assert forall i :: 0 <= i < |ps| ==> ps[i] == p || ps[i] == r.emitted[i - 1];
    }
    if Accepts(d, ps) {
      assert forall i :: 0 <= i < |r.emitted| ==> r.emitted[i] == ps[i + 1];
    }
  }

  /** Decoding while reading is reading and then decoding, up to the first piece that is refused. */
  lemma {:induction false} DecodingFollows(d: Decoder, st: CaState, data: seq<byte>)
    requires Progressive(Reading()) && Progressive(Decoding(d))
    ensures Drain(Decoding(d), st, data) == Decoded(d, Drain(Reading(), st, data))
    decreases |data|, Reading().rank(st)
  {
    hide Step;
    hide DecodePiece;
    hide Accepts;
    var n := NeedMin(st);
    if |data| < n {
      DecodedNothing(d, st, data);
    } else {
      var c := data[..n];
      StepShape(st, c);
      assert n == 0 ==> c == [];
      if st != Done {
        var t, ps := Step(st, c).next, Step(st, c).events;
        DecodingFollows(d, t, data[n..]);
        var r := Drain(Reading(), t, data[n..]);
        if ps == [] {
          PrependNothing(r);
          PrependNothing(Decoded(d, r));
        } else {
          assert ps == [ps[0]];
          DecodedOne(d, ps[0], r);
        }
      }
    }
  }

  lemma DecodedNothing(d: Decoder, st: CaState, data: seq<byte>)
    ensures Decoded(d, Running(st, data, [])) == Running(st, data, [])
  {
  }

  /** The outcomes are those of the pieces, one by one: all of them, or those before the first one
      that is refused and the refusal. */
  lemma {:induction false} OutcomesAre(d: Decoder, ps: seq<Piece>)
    ensures var os := Outcomes(d, ps);
            && |os| <= |ps| && (forall i :: 0 <= i < |os| ==> os[i] == DecodePiece(d, ps[i]))
            && (forall i :: 0 <= i < |os| - 1 ==> os[i].Decoded?)
            && (Accepts(d, ps) ==> |os| == |ps|)
            && (!Accepts(d, ps) ==> os != [] && !os[|os| - 1].Decoded?)
  {
    hide DecodePiece;
    if ps != [] && DecodePiece(d, ps[0]).Decoded? {
      OutcomesAre(d, ps[1..]);
      if Accepts(d, ps[1..]) {
        assert forall i :: 1 <= i < |ps| ==> ps[i] == ps[1..][i - 1];
      }
    }
  }

  /** Whatever the server sends with standard headers, in whatever chunks it arrives: the decoded
      messages come out in order, until one is refused, and then the refusal and nothing more. */
  lemma AnyAnswersAnyChunks(d: Decoder, ps: seq<Piece>, chunks: seq<seq<byte>>)
    requires forall i :: 0 <= i < |ps| ==> WellSized(ps[i]) && !Extends(ps[i].head)
    requires Concat(chunks) == EncodePieces(ps)
    ensures Progressive(Decoding(d))
    ensures FeedAll(Decoding(d), Running(StdHead, [], []), chunks)
         == if Accepts(d, ps) then Running(StdHead, [], Outcomes(d, ps)) else Stopped(Outcomes(d, ps))
  {
    hide Drain;
    hide EncodePiece;
    hide Accepts;
    hide Outcomes;
    ReadingProgresses();
    DecodingProgresses(d);
    var m := Decoding(d);
    DrainShort(m, StdHead, []);
    AnyChunking(m, StdHead, [], chunks);
    assert [] + Concat(chunks) == EncodePieces(ps) + [];
    DecodingFollows(d, StdHead, EncodePieces(ps) + []);
    DrainShort(Reading(), StdHead, []);
    DrainPieces(ps, []);
    assert ps + [] == ps;
  }

  /** Answers that consist of a header arrive as they were sent, with the exception of a version. */
  lemma HeaderAnswersArrive(d: Decoder, ms: seq<CaMsg>, chunks: seq<seq<byte>>)
    requires forall m :: m in ms ==> CaDecode.HeaderAnswer(m) && (m.VersionRes? ==> m.version == 0)
    requires AllEncodable(ms) && Concat(chunks) == EncodeAll(ms)
    ensures Progressive(Decoding(d))
    ensures FeedAll(Decoding(d), Running(StdHead, [], []), chunks)
         == Running(StdHead, [], seq(|ms|, i requires 0 <= i < |ms| => CaDecode.Decoded(CaDecode.Message(ms[i]))))
  {
    hide FeedAll;
    hide EncodePieces;
    hide EncodeAll;
    hide DecodePiece;
    hide Outcomes;
    hide PiecesOf;
    var ps := PiecesOf(ms);
    EncodeAllIsPieces(ms);
    forall i | 0 <= i < |ps|
      ensures DecodePiece(d, ps[i]) == CaDecode.Decoded(CaDecode.Message(ms[i])) && !Extends(ps[i].head)
    {
      assert ms[i] in ms;
      HeaderArrives(d, ms[i]);
    }
    AnyAnswersAnyChunks(d, ps, chunks);
    OutcomesAre(d, ps);
    assert Outcomes(d, ps) == seq(|ms|, i requires 0 <= i < |ms| => CaDecode.Decoded(CaDecode.Message(ms[i])));
  }

  lemma HeaderArrives(d: Decoder, m: CaMsg)
    requires CaDecode.HeaderAnswer(m) && (m.VersionRes? ==> m.version == 0)
    ensures DecodePiece(d, PieceOf(m)) == CaDecode.Decoded(CaDecode.Message(m)) && !Extends(PieceOf(m).head)
  {
    CaDecode.HeaderAnswersSurvive(m, d.shapeOf(DataCount(m)), d.arrayTruncate);
  }
}
