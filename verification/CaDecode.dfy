/**
 What arrives in a Channel Access message (netfetch/src/ca/proto.rs): the meaning of a header and
 a payload. Floats are their bit patterns. The shape that belongs to a data count is an input,
 since its definition is not part of this repository.
 */
module CaDecode {
  import opened Arithmetic
  import opened Bytes
  import opened Wrappers
  import opened CaWire
  import EventPartition
  import opened EventCopies

  datatype ScalarType = I8 | I16 | I32 | F32 | F64 | Enum | Str
  datatype MetaType = Plain | Status | Time
  datatype DbrType = DbrType(meta: MetaType, scalar: ScalarType)
  datatype Shape = Scalar | Wave(n: nat)

  datatype DecodeError =
    | BadCaDbrTypeId(k: u16)
    | MismatchDbrTimeType
    | NotEnoughPayloadTimeMetadata(n: nat)
    | NotEnoughPayload
    | BadCaCount
    | TodoConversionArray
    | CaProtoVersionMissing
    | CaCommandNotSupported(cmd: u16)

  datatype Data =
    | One(t: ScalarType, v: int)
    | Many(t: ScalarType, vs: seq<int>)
    | Text(s: seq<byte>)
    | TodoArrayString

  datatype EventValue = EventValue(ts: nat, status: u16, severity: u16, data: Data)

  datatype Answer =
    | Message(msg: CaMsg)
    | Event(dataType: u16, dataCount: u16, status: u32, subid: u32, value: EventValue)
    | Problem(cid: u32, eid: u32, text: seq<byte>)
    | PeerName(raw: seq<byte>)
    | PeerHost

  /** `Panics`: a slice of the payload is out of range. */
  datatype Outcome = Decoded(answer: Answer) | Failed(error: DecodeError) | Panics

  const SEC: nat := 1_000_000_000
  const EPICS_EPOCH_OFFSET: nat := 631152000

  // ---- types ----

  function FromCaU16(k: u16): Result<DbrType, DecodeError> {
    if k > 20 then Err(BadCaDbrTypeId(k))
    else
      var meta := if k >= 14 then Time else if k >= 7 then Status else Plain;
      var i := if k >= 14 then k - 14 else if k >= 7 then k - 7 else k;
      Ok(DbrType(meta, if i == 4 then I8 else if i == 1 then I16 else if i == 5 then I32 else if i == 2 then F32
                       else if i == 6 then F64 else if i == 3 then Enum else Str))
  }

  function ToCaU16(t: ScalarType): u16 {
    match t
    case Str => 0
    case I16 => 1
    case F32 => 2
    case Enum => 3
    case I8 => 4
    case I32 => 5
    case F64 => 6
  }

  /** The type that a connection asks for, 14 above the channel's own, is the same scalar type with
      a timestamp; so its events are never refused for their type. This holds for the plain types
      and for no others. */
  lemma AskedTypeHasTime(k: u16)
    requires k + 14 < 0x1_0000
    ensures FromCaU16(k + 14).Ok? <==> k <= 6
    ensures k <= 6 ==> FromCaU16(k).Ok? && FromCaU16(k).value.meta == Plain
                       && FromCaU16(k + 14) == Ok(DbrType(Time, FromCaU16(k).value.scalar))
    ensures k <= 6 ==> ToCaU16(FromCaU16(k).value.scalar) == k
    ensures 7 <= k <= 13 ==> FromCaU16(k) == Ok(DbrType(Status, FromCaU16(k - 7).value.scalar))
  {
  }

  function Width(t: ScalarType): (w: nat)
    requires t != Str
    ensures 1 <= w <= 8
  {
    match t
    case I8 => 1
    case I16 => 2
    case I32 => 4
    case F32 => 4
    case F64 => 8
    case Enum => 2
  }

  /** Padding between the time stamp and the value. */
  function MetaPadding(t: ScalarType): nat {
    match t
    case I8 => 3
    case I16 => 2
    case F64 => 4
    case Enum => 2
    case _ => 0
  }

  predicate IsFloat(t: ScalarType) {
    t.F32? || t.F64?
  }

  // ---- values ----

  /** Two's complement for the integer types. */
  function Interpret(t: ScalarType, n: nat): int
    requires t != Str
  {
    if !IsFloat(t) && n >= Pow256(Width(t)) / 2 then n - Pow256(Width(t)) else n
  }

  /** The tag of decoded values: enumerations come out as 16-bit integers. */
  function Tag(t: ScalarType): ScalarType {
    if t == Enum then I16 else t
  }

  function ValueAt(t: ScalarType, buf: seq<byte>, i: nat): int
    requires t != Str && (i + 1) * Width(t) <= |buf|
  {
    Fits(i, Width(t), |buf|);
    Interpret(t, FromBe(buf[i * Width(t)..(i + 1) * Width(t)]))
  }

  lemma Fits(i: nat, w: nat, n: nat)
    requires (i + 1) * w <= n
    ensures i * w <= (i + 1) * w && i * w + w == (i + 1) * w
  {
  }

  lemma InRange(i: nat, k: nat, w: nat, n: nat)
    requires i < k && k * w <= n
    ensures (i + 1) * w <= n
  {
    if w > 0 {
      var d := k - (i + 1);
      assert k * w == (i + 1) * w + d * w;
      MulFacts(d, w);
    }
  }

  /** The first k values of the buffer. */
  function Values(t: ScalarType, buf: seq<byte>, k: nat): (vs: seq<int>)
    requires t != Str && k * Width(t) <= |buf|
    ensures |vs| == k
  {
    seq(k, i requires 0 <= i < k => InRange(i, k, Width(t), |buf|); ValueAt(t, buf, i))
  }

  function ScalarValue(t: ScalarType, buf: seq<byte>): Result<Data, DecodeError> {
    if t == Str then Ok(Text(UpToNul(buf)))
    else if |buf| < Width(t) then Err(NotEnoughPayload)
    else Ok(One(Tag(t), Interpret(t, FromBe(buf[..Width(t)]))))
  }

  lemma MinFits(n: nat, len: nat, w: nat)
    requires w > 0
    ensures Min(n, len / w) * w <= len
  {
    var k, q := Min(n, len / w), len / w;
    assert len == q * w + len % w;
    assert (q - k) * w == q * w - k * w;
    MulFacts(q - k, w);
  }

  function WaveValue(t: ScalarType, n: nat, buf: seq<byte>): Result<Data, DecodeError> {
    if t == Str then Ok(TodoArrayString)
    else if t == Enum then Err(TodoConversionArray)
    else
      MinFits(n, |buf|, Width(t));
      Ok(Many(t, Values(t, buf, Min(n, |buf| / Width(t)))))
  }

  // ---- messages ----

  /** A slice of the payload; None where the source panics because it is out of range. */
  function Slice(s: seq<byte>, from: int, to: int): Option<seq<byte>> {
    if 0 <= from <= to <= |s| then Some(s[from..to]) else None
  }

  function DecodeEvent(hi: HeadInfo, shape: Option<Shape>, payload: seq<byte>, arrayTruncate: nat): Outcome {
    var dbr := FromCaU16(hi.dataType);
    if dbr.Err? then Failed(dbr.error)
    else if dbr.value.meta != Time then Failed(MismatchDbrTimeType)
    else if |payload| < 12 then Failed(NotEnoughPayloadTimeMetadata(|payload|))
    else if shape.None? then Failed(BadCaCount)
    else
      var valbuf := Slice(payload, 12 + MetaPadding(dbr.value.scalar), |payload|);
      if valbuf.None? then Panics
      else
        var data := if shape.value.Scalar? then ScalarValue(dbr.value.scalar, valbuf.value)
                    else WaveValue(dbr.value.scalar, Min(shape.value.n, arrayTruncate), valbuf.value);
        if data.Err? then Failed(data.error)
        else Decoded(Event(hi.dataType, hi.dataCount, hi.param1, hi.param2,
                           EventValue(Timestamp(Be32(payload[4..8]), Be32(payload[8..12])),
                                      Be16(payload[0..2]), Be16(payload[2..4]), data.value)))
  }

  /** Nanoseconds since the Unix epoch. */
  function Timestamp(secs: u32, nanos: u32): nat {
    SEC * (secs + EPICS_EPOCH_OFFSET) + nanos
  }

  /** `from_proto_infos`. */
  function Decode(hi: HeadInfo, shape: Option<Shape>, payload: seq<byte>, arrayTruncate: nat): Outcome {
    if hi.cmdid == 0 then Decoded(Message(VersionRes(hi.dataCount)))
    else if hi.cmdid == 0x0b then
      if |payload| < 17 then Decoded(Problem(hi.param1, hi.param2, []))
      else
        var text := Slice(payload, 17, |payload| - 1);
        if text.None? then Panics else Decoded(Problem(hi.param1, hi.param2, text.value))
    else if hi.cmdid == 20 then Decoded(PeerName(payload))
    else if hi.cmdid == 21 then Decoded(PeerHost)
    else if hi.cmdid == 6 then
      if |payload| < 2 then Failed(CaProtoVersionMissing)
      else Decoded(Message(SearchRes(hi.param1, hi.dataType, hi.param2)))
    else if hi.cmdid == 18 then Decoded(Message(CreateChanRes(hi.dataType, hi.dataCount, hi.param1, hi.param2)))
    else if hi.cmdid == 22 then Decoded(Message(AccessRightsRes(hi.param1, hi.param2)))
    else if hi.cmdid == 26 then Decoded(Message(CreateChanFail(hi.param1)))
    else if hi.cmdid == 1 then DecodeEvent(hi, shape, payload, arrayTruncate)
    else if hi.cmdid == 15 then Decoded(Message(ReadNotifyRes(hi.dataType, hi.dataCount, hi.param1, hi.param2)))
    else if hi.cmdid == 0x17 then Decoded(Message(Echo))
    else Failed(CaCommandNotSupported(hi.cmdid))
  }

  /** The loop of `convert_wave_value`. */
  method ConvertWave(t: ScalarType, n: nat, buf: seq<byte>) returns (vs: seq<int>)
    requires t != Str
    ensures Min(n, |buf| / Width(t)) * Width(t) <= |buf|
    ensures vs == Values(t, buf, Min(n, |buf| / Width(t)))
  {
    hide ValueAt;
    hide Interpret;
    hide FromBe;
    hide Values;
    var w := Width(t);
    var nn := Min(n, |buf| / w);
    MinFits(n, |buf|, w);
    vs := [];
    var bb := buf;
    for i := 0 to nn
      invariant i * w <= |buf| && bb == buf[i * w..] && |vs| == i
      invariant forall j :: 0 <= j < i ==> (j + 1) * w <= |buf| && vs[j] == ValueAt(t, buf, j)
    {
      InRange(i, nn, w, |buf|);
      FrontValue(t, buf, i);
      vs := vs + [Interpret(t, FromBe(bb[..w]))];
      bb := bb[w..];
    }
    AllValues(t, buf, nn, vs);
  }

  /** The value at the front of what is left. */
  lemma FrontValue(t: ScalarType, buf: seq<byte>, i: nat)
    requires t != Str && (i + 1) * Width(t) <= |buf|
    ensures i * Width(t) + Width(t) == (i + 1) * Width(t)
    ensures var w := Width(t);
            var bb := buf[i * w..];
            |bb| >= w && Interpret(t, FromBe(bb[..w])) == ValueAt(t, buf, i) && bb[w..] == buf[(i + 1) * w..]
  {
    hide Interpret;
    hide FromBe;
    Fits(i, Width(t), |buf|);
    SliceFront(buf, i * Width(t), Width(t));
  }

  lemma SliceFront(s: seq<byte>, a: nat, w: nat)
    requires a + w <= |s|
    ensures s[a..][..w] == s[a..a + w] && s[a..][w..] == s[a + w..]
  {
  }

  lemma AllValues(t: ScalarType, buf: seq<byte>, k: nat, vs: seq<int>)
    requires t != Str && k * Width(t) <= |buf| && |vs| == k
    requires forall j :: 0 <= j < k ==> (j + 1) * Width(t) <= |buf| && vs[j] == ValueAt(t, buf, j)
    ensures vs == Values(t, buf, k)
  {
    hide ValueAt;
  }

  // ---- round trips ----

  predicate HeaderAnswer(m: CaMsg) {
    m.VersionRes? || m.CreateChanRes? || m.CreateChanFail? || m.AccessRightsRes? || m.Echo?
  }

  /** The answers that consist of a header survive, except that a version is sent in one field and
      read from another. */
  lemma HeaderAnswersSurvive(m: CaMsg, shape: Option<Shape>, arrayTruncate: nat)
    requires HeaderAnswer(m)
    ensures Decode(HeadOf(m), shape, Payload(m), arrayTruncate) == Decoded(Message(m))
       <==> (m.VersionRes? ==> m.version == 0)
  {
  }

  // ---- events on the wire ----

  /** The types with a time stamp, by their numbers in the specification: string 14, short 15,
      float 16, enumeration 17, char 18, long 19, double 20. */
  type TimeType = k: u16 | 14 <= k <= 20 witness 14
  type NumberType = k: u16 | 15 <= k <= 20 witness 15

  function ScalarOf(k: TimeType): ScalarType {
    match k
    case 14 => Str
    case 15 => I16
    case 16 => F32
    case 17 => Enum
    case 18 => I8
    case 19 => I32
    case _ => F64
  }

  /** The type that its values come out with. */
  function DecodedAs(k: NumberType): ScalarType {
    match k
    case 15 => I16
    case 16 => F32
    case 17 => I16
    case 18 => I8
    case 19 => I32
    case _ => F64
  }

  /** Where the value begins in the payload. */
  function WireOffset(k: TimeType): nat {
    match k
    case 14 => 12
    case 15 => 14
    case 16 => 12
    case 17 => 14
    case 18 => 15
    case 19 => 12
    case _ => 16
  }

  /** The size of one value. */
  function WireWidth(k: NumberType): nat {
    match k
    case 15 => 2
    case 16 => 4
    case 17 => 2
    case 18 => 1
    case 19 => 4
    case _ => 8
  }

  predicate WireFloat(k: NumberType) {
    k == 16 || k == 20
  }

  /** Half the range of an integer type. */
  function WireHalf(k: NumberType): int {
    match k
    case 18 => 0x80
    case 19 => 0x8000_0000
    case _ => 0x8000
  }

  /** The bits of a float, or an integer in two's complement. */
  function WireNumber(k: NumberType, n: nat): int {
    if !WireFloat(k) && n >= WireHalf(k) then n - 2 * WireHalf(k) else n
  }

  predicate Representable(k: NumberType, v: int) {
    if k == 16 then 0 <= v < 0x1_0000_0000
    else if k == 20 then 0 <= v < 0x1_0000_0000_0000_0000
    else -WireHalf(k) <= v < WireHalf(k)
  }

  function EncodeValue(k: NumberType, v: int): (s: seq<byte>)
    requires Representable(k, v)
    ensures |s| == WireWidth(k)
  {
    ToBe(if v < 0 then v + 2 * WireHalf(k) else v, WireWidth(k))
  }

  function EncodeValues(k: NumberType, vs: seq<int>): (s: seq<byte>)
    requires forall v :: v in vs ==> Representable(k, v)
    ensures |s| == |vs| * WireWidth(k)
  {
    if vs == [] then [] else
      assert |vs| * WireWidth(k) == WireWidth(k) + |vs[1..]| * WireWidth(k);
      EncodeValue(k, vs[0]) + EncodeValues(k, vs[1..])
  }

  function EventHead(status: u16, severity: u16, secs: u32, nanos: u32): (s: seq<byte>)
    ensures |s| == 12
  {
    ToBe(status, 2) + ToBe(severity, 2) + ToBe(secs, 4) + ToBe(nanos, 4)
  }

  /** The model's tables are those of the specification. */
  lemma TypeTable(k: TimeType)
    ensures FromCaU16(k) == Ok(DbrType(Time, ScalarOf(k))) && ToCaU16(ScalarOf(k)) + 14 == k
    ensures 12 + MetaPadding(ScalarOf(k)) == WireOffset(k)
    ensures ScalarOf(k) == Str <==> k == 14
    ensures k != 14 ==> Width(ScalarOf(k)) == WireWidth(k) && Tag(ScalarOf(k)) == DecodedAs(k)
  {
  }

  lemma NumberTable(k: NumberType, n: nat)
    ensures Interpret(ScalarOf(k), n) == WireNumber(k, n)
  {
    Powers();
  }

  lemma ValueSurvives(k: NumberType, v: int)
    requires Representable(k, v)
    ensures WireNumber(k, FromBe(EncodeValue(k, v))) == v
  {
    hide ToBe;
    hide FromBe;
    Powers();
    DecodeEncode(if v < 0 then v + 2 * WireHalf(k) else v, WireWidth(k));
  }

  lemma SliceOfTail(a: seq<byte>, tail: seq<byte>, from: nat, to: nat)
    requires |a| <= from <= to <= |a + tail|
    ensures (a + tail)[from..to] == tail[from - |a|..to - |a|]
  {
  }

  /** Value i of those that were put in a row. */
  lemma {:induction false} ValuesSurvive(k: NumberType, vs: seq<int>, rest: seq<byte>, i: nat)
    requires (forall v :: v in vs ==> Representable(k, v)) && i < |vs|
    ensures var w, s := WireWidth(k), EncodeValues(k, vs) + rest;
            0 <= i * w <= (i + 1) * w <= |s| && WireNumber(k, FromBe(s[i * w..(i + 1) * w])) == vs[i]
  {
    hide FromBe;
    hide ToBe;
    hide WireNumber;
    hide Representable;
    hide EncodeValue;
    var w := WireWidth(k);
    var s := EncodeValues(k, vs) + rest;
    InRange(i, |vs|, w, |vs| * w);
    Fits(i, w, |s|);
    var tail := EncodeValues(k, vs[1..]) + rest;
    assert s == EncodeValue(k, vs[0]) + tail;
    if i == 0 {
      assert 0 * w == 0 && 1 * w == w;
      assert s[0..w] == EncodeValue(k, vs[0]);
      ValueSurvives(k, vs[0]);
    } else {
      ValuesSurvive(k, vs[1..], rest, i - 1);
      assert i * w == (i - 1) * w + w && (i + 1) * w == i * w + w;
      SliceOfTail(EncodeValue(k, vs[0]), tail, i * w, (i + 1) * w);
    }
  }

  /** A decoded event with the fields of the header, and its time in nanoseconds since 1970 where
      the wire counts from 1990. */
  function EventOf(hi: HeadInfo, status: u16, severity: u16, secs: u32, nanos: u32, data: Data): Outcome {
    Decoded(Event(hi.dataType, hi.dataCount, hi.param1, hi.param2,
                  EventValue(1_000_000_000 * (secs + 631_152_000) + nanos, status, severity, data)))
  }

  /** The scalar type's reading of what follows the time stamp is put in the event. */
  lemma EventParts(hi: HeadInfo, status: u16, severity: u16, secs: u32, nanos: u32, rest: seq<byte>,
                   shape: Shape, arrayTruncate: nat)
    requires hi.cmdid == 1 && 14 <= hi.dataType <= 20 && 12 + |rest| >= WireOffset(hi.dataType)
    ensures var t, valbuf := ScalarOf(hi.dataType), rest[WireOffset(hi.dataType) - 12..];
            var data := if shape.Scalar? then ScalarValue(t, valbuf)
                        else WaveValue(t, Min(shape.n, arrayTruncate), valbuf);
            Decode(hi, Some(shape), EventHead(status, severity, secs, nanos) + rest, arrayTruncate)
            == if data.Err? then Failed(data.error)
               else EventOf(hi, status, severity, secs, nanos, data.value)
  {
    hide Be16;
    hide Be32;
    hide EventHead;
    hide ScalarValue;
    hide WaveValue;
    hide FromCaU16;
    hide MetaPadding;
    hide Timestamp;
    hide Decode;
    hide WireOffset;
    var p, o := EventHead(status, severity, secs, nanos) + rest, WireOffset(hi.dataType);
    HeadFields(status, severity, secs, nanos, rest);
    TypeTable(hi.dataType);
    ValueBuffer(p, rest, o);
    DecodedParts(ScalarOf(hi.dataType), p, hi, shape, arrayTruncate);
    TimeOf(secs, nanos);
  }

  lemma TimeOf(secs: u32, nanos: u32)
    ensures Timestamp(secs, nanos) == 1_000_000_000 * (secs + 631_152_000) + nanos
  {
  }

  lemma ValueBuffer(p: seq<byte>, rest: seq<byte>, o: nat)
    requires 12 <= o <= |p| && p[12..] == rest
    ensures p[o..|p|] == rest[o - 12..]
  {
  }

  lemma DecodedParts(t: ScalarType, p: seq<byte>, hi: HeadInfo, shape: Shape, arrayTruncate: nat)
    requires hi.cmdid == 1 && FromCaU16(hi.dataType) == Ok(DbrType(Time, t)) && |p| >= 12 + MetaPadding(t)
    ensures var valbuf := p[12 + MetaPadding(t)..|p|];
            var data := if shape.Scalar? then ScalarValue(t, valbuf)
                        else WaveValue(t, Min(shape.n, arrayTruncate), valbuf);
            Decode(hi, Some(shape), p, arrayTruncate)
            == if data.Err? then Failed(data.error)
               else Decoded(Event(hi.dataType, hi.dataCount, hi.param1, hi.param2,
                                  EventValue(Timestamp(Be32(p[4..8]), Be32(p[8..12])),
                                             Be16(p[0..2]), Be16(p[2..4]), data.value)))
  {
    hide Be16;
    hide Be32;
    hide ScalarValue;
    hide WaveValue;
    hide Timestamp;
    hide FromCaU16;
    hide MetaPadding;
  }

  lemma HeadFields(status: u16, severity: u16, secs: u32, nanos: u32, rest: seq<byte>)
    ensures var p := EventHead(status, severity, secs, nanos) + rest;
            && |p| == 12 + |rest| && p[12..] == rest
            && Be16(p[0..2]) == status && Be16(p[2..4]) == severity
            && Be32(p[4..8]) == secs && Be32(p[8..12]) == nanos
  {
    hide Be16;
    hide Be32;
    hide ToBe;
    hide EventHead;
    HeadParts(status, severity, secs, nanos, rest);
    Be16Of(status);
    Be16Of(severity);
    Be32Of(secs);
    Be32Of(nanos);
  }

  lemma HeadParts(status: u16, severity: u16, secs: u32, nanos: u32, rest: seq<byte>)
    ensures var p := EventHead(status, severity, secs, nanos) + rest;
            && |p| == 12 + |rest|
            && p[0..2] == ToBe(status, 2) && p[2..4] == ToBe(severity, 2) && p[4..8] == ToBe(secs, 4)
            && p[8..12] == ToBe(nanos, 4)
            && p[12..] == rest
  {
    hide ToBe;
  }

  /** An event of a single number, whatever is in the fill bytes and behind the value: it is the
      number in the place that the type has, and refused exactly if the payload ends before. */
  lemma ScalarDecoded(hi: HeadInfo, status: u16, severity: u16, secs: u32, nanos: u32, rest: seq<byte>,
                      arrayTruncate: nat)
    requires hi.cmdid == 1 && 15 <= hi.dataType <= 20 && 12 + |rest| >= WireOffset(hi.dataType)
    ensures var k, o, w := hi.dataType, WireOffset(hi.dataType), WireWidth(hi.dataType);
            var p := EventHead(status, severity, secs, nanos) + rest;
            Decode(hi, Some(Scalar), p, arrayTruncate)
            == if |p| < o + w then Failed(NotEnoughPayload)
               else EventOf(hi, status, severity, secs, nanos, One(DecodedAs(k), WireNumber(k, FromBe(p[o..o + w]))))
  {
    hide EventHead;
    hide EventOf;
    hide FromBe;
    hide Decode;
    hide Interpret;
    hide WireNumber;
    var k, o, w := hi.dataType, WireOffset(hi.dataType), WireWidth(hi.dataType);
    var p, valbuf := EventHead(status, severity, secs, nanos) + rest, rest[o - 12..];
    EventParts(hi, status, severity, secs, nanos, rest, Scalar, arrayTruncate);
    TypeTable(k);
    if |p| >= o + w {
      assert valbuf[..w] == p[o..o + w];
      NumberTable(k, FromBe(p[o..o + w]));
    }
  }

  /** An event of an array: the numbers in their places, as many as the shape and the configured
      limit admit and as the payload holds. An array of enumerations is refused. */
  lemma WaveDecoded(hi: HeadInfo, status: u16, severity: u16, secs: u32, nanos: u32, rest: seq<byte>,
                    n: nat, arrayTruncate: nat, vs: seq<int>)
    requires hi.cmdid == 1 && 15 <= hi.dataType <= 20 && 12 + |rest| >= WireOffset(hi.dataType)
    requires var o, w := WireOffset(hi.dataType) - 12, WireWidth(hi.dataType);
             && |vs| == Min(Min(n, arrayTruncate), (|rest| - o) / w)
             && forall i :: 0 <= i < |vs| ==> ReadsAt(hi.dataType, rest[o..], i, vs[i])
    ensures Decode(hi, Some(Wave(n)), EventHead(status, severity, secs, nanos) + rest, arrayTruncate)
         == if hi.dataType == 17 then Failed(TodoConversionArray)
            else EventOf(hi, status, severity, secs, nanos, Many(DecodedAs(hi.dataType), vs))
  {
    hide EventHead;
    hide EventOf;
    hide Decode;
    hide ReadsAt;
    hide Values;
    var k, valbuf := hi.dataType, rest[WireOffset(hi.dataType) - 12..];
    EventParts(hi, status, severity, secs, nanos, rest, Wave(n), arrayTruncate);
    TypeTable(k);
    if k != 17 {
      MinFits(Min(n, arrayTruncate), |valbuf|, WireWidth(k));
      ReadValues(k, valbuf, vs);
    }
  }

  /** v is the number in place i of the buffer. */
  predicate ReadsAt(k: NumberType, buf: seq<byte>, i: nat, v: int) {
    var w := WireWidth(k);
    0 <= i * w <= (i + 1) * w <= |buf| && v == WireNumber(k, FromBe(buf[i * w..(i + 1) * w]))
  }

  lemma ReadValues(k: NumberType, buf: seq<byte>, vs: seq<int>)
    requires forall i :: 0 <= i < |vs| ==> ReadsAt(k, buf, i, vs[i])
    requires |vs| * WireWidth(k) <= |buf|
    ensures Width(ScalarOf(k)) == WireWidth(k) && vs == Values(ScalarOf(k), buf, |vs|)
  {
    hide FromBe;
    hide Interpret;
    hide WireNumber;
    hide Values;
    TypeTable(k);
    forall i | 0 <= i < |vs|
      ensures (i + 1) * Width(ScalarOf(k)) <= |buf| && vs[i] == ValueAt(ScalarOf(k), buf, i)
    {
      assert ReadsAt(k, buf, i, vs[i]);
      NumberTable(k, FromBe(buf[i * WireWidth(k)..(i + 1) * WireWidth(k)]));
    }
    AllValues(ScalarOf(k), buf, |vs|, vs);
  }

  /** What is made of the values that the server put in: an array is cut at the limit that is
      configured, an enumeration comes out as a 16-bit integer, and an array of these is refused. */
  function Delivered(k: NumberType, vs: seq<int>, shape: Shape, arrayTruncate: nat): Result<Data, DecodeError>
    requires shape.Scalar? ==> vs != []
  {
    if shape.Scalar? then Ok(One(DecodedAs(k), vs[0]))
    else if k == 17 then Err(TodoConversionArray)
    else Ok(Many(DecodedAs(k), vs[..Min(|vs|, arrayTruncate)]))
  }

  /** An event comes out with the values, the status and the time that the server put in, whatever
      the fill bytes before the values are and whatever follows them. */
  lemma EventSurvives(hi: HeadInfo, status: u16, severity: u16, secs: u32, nanos: u32, fill: seq<byte>,
                      vs: seq<int>, trailing: seq<byte>, shape: Shape, arrayTruncate: nat)
    requires hi.cmdid == 1 && 15 <= hi.dataType <= 20 && 12 + |fill| == WireOffset(hi.dataType)
    requires forall v :: v in vs ==> Representable(hi.dataType, v)
    requires if shape.Scalar? then |vs| == 1 else shape.n == |vs|
    ensures var data := Delivered(hi.dataType, vs, shape, arrayTruncate);
            var payload := EventHead(status, severity, secs, nanos) + fill + EncodeValues(hi.dataType, vs) + trailing;
            Decode(hi, Some(shape), payload, arrayTruncate)
            == if data.Err? then Failed(data.error) else EventOf(hi, status, severity, secs, nanos, data.value)
  {
    hide Representable;
    hide EncodeValues;
    hide EventHead;
    hide EventOf;
    hide Decode;
    hide WireNumber;
    hide FromBe;
    hide ReadsAt;
    hide WireWidth;
    hide WireOffset;
    var k := hi.dataType;
    var head, body := EventHead(status, severity, secs, nanos), EncodeValues(k, vs) + trailing;
    Reassociate(head, fill, EncodeValues(k, vs), trailing);
    SliceAll(fill, body);
    if shape.Scalar? {
      ScalarDecoded(hi, status, severity, secs, nanos, fill + body, arrayTruncate);
      ValuesSurvive(k, vs, trailing, 0);
      SliceAfter(head, fill, body, WireWidth(k));
    } else {
      ArraySurvives(k, vs, trailing, arrayTruncate);
      WaveDecoded(hi, status, severity, secs, nanos, fill + body, |vs|, arrayTruncate,
                  vs[..Min(|vs|, arrayTruncate)]);
    }
  }

  lemma Reassociate(a: seq<byte>, b: seq<byte>, c: seq<byte>, d: seq<byte>)
    ensures a + b + c + d == a + (b + (c + d))
  {
  }

  lemma SliceAll(a: seq<byte>, b: seq<byte>)
    ensures (a + b)[|a|..] == b
  {
  }

  lemma SliceAfter(head: seq<byte>, fill: seq<byte>, body: seq<byte>, w: nat)
    requires w <= |body|
    ensures var p, o := head + (fill + body), |head| + |fill|; p[o..o + w] == body[0 * w..1 * w]
  {
    var p, o := head + (fill + body), |head| + |fill|;
    assert forall i :: 0 <= i < w ==> p[o + i] == body[i];
  }

  lemma ArraySurvives(k: NumberType, vs: seq<int>, rest: seq<byte>, limit: nat)
    requires forall v :: v in vs ==> Representable(k, v)
    ensures var buf, m := EncodeValues(k, vs) + rest, Min(|vs|, limit);
            m == Min(m, |buf| / WireWidth(k)) && forall i :: 0 <= i < m ==> ReadsAt(k, buf, i, vs[..m][i])
  {
    hide EncodeValues;
    hide Representable;
    hide WireNumber;
    hide FromBe;
    var buf, m := EncodeValues(k, vs) + rest, Min(|vs|, limit);
    AtLeast(|buf|, WireWidth(k), |vs|);
    forall i | 0 <= i < m
      ensures ReadsAt(k, buf, i, vs[..m][i])
    {
      ValuesSurvive(k, vs, rest, i);
    }
  }

  /** The number 1.5 as a server sends it, byte for byte. */
  lemma DoubleExample(status: u16, severity: u16, secs: u32, nanos: u32, arrayTruncate: nat)
    ensures var hi := HeadInfo(1, 24, 20, 1, 1, 7);
            var payload := EventHead(status, severity, secs, nanos) + [0, 0, 0, 0, 0x3f, 0xf8, 0, 0, 0, 0, 0, 0];
            Decode(hi, Some(Scalar), payload, arrayTruncate)
            == EventOf(hi, status, severity, secs, nanos, One(F64, 0x3ff8_0000_0000_0000))
  {
    hide EventHead;
    hide Decode;
    hide EventOf;
    var rest: seq<byte> := [0, 0, 0, 0, 0x3f, 0xf8, 0, 0, 0, 0, 0, 0];
    ScalarDecoded(HeadInfo(1, 24, 20, 1, 1, 7), status, severity, secs, nanos, rest, arrayTruncate);
    var p := EventHead(status, severity, secs, nanos) + rest;
    assert p[16..24] == [0x3f, 0xf8, 0, 0, 0, 0, 0, 0];
    InNetworkOrder(0x3f, 0xf8, 0, 0);
    assert Long(0x3f, 0xf8, 0, 0) == 0x3ff8_0000;
    WithZeros([0x3f, 0xf8, 0, 0]);
    assert p[16..24] == [0x3f, 0xf8, 0, 0] + [0, 0, 0, 0];
  }

  lemma WithZeros(s: seq<byte>)
    ensures FromBe(s + [0, 0, 0, 0]) == 0x1_0000_0000 * FromBe(s)
  {
    hide FromBe;
    WithZero(s);
    WithZero(s + [0]);
    WithZero(s + [0, 0]);
    WithZero(s + [0, 0, 0]);
    assert s + [0] + [0] == s + [0, 0] && s + [0, 0] + [0] == s + [0, 0, 0] && s + [0, 0, 0] + [0] == s + [0, 0, 0, 0];
  }

  lemma WithZero(s: seq<byte>)
    ensures FromBe(s + [0]) == 256 * FromBe(s)
  {
    assert (s + [0])[..|s|] == s;
  }

  /** An event of a string channel: the text up to its terminating NUL comes out. */
  lemma TextSurvives(status: u16, severity: u16, secs: u32, nanos: u32, text: seq<byte>, trailing: seq<byte>,
                     hi: HeadInfo, arrayTruncate: nat)
    requires NulFree(text) && hi.cmdid == 1 && hi.dataType == 14
    ensures Decode(hi, Some(Scalar), EventHead(status, severity, secs, nanos) + (text + [0] + trailing), arrayTruncate)
         == EventOf(hi, status, severity, secs, nanos, Text(text))
  {
    hide EventHead;
    hide Decode;
    hide EventOf;
    var rest := text + [0] + trailing;
    assert rest[0..] == rest;
    EventParts(hi, status, severity, secs, nanos, rest, Scalar, arrayTruncate);
    TextUpToNul(text, trailing);
  }

  lemma {:induction false} TextUpToNul(text: seq<byte>, trailing: seq<byte>)
    requires NulFree(text)
    ensures UpToNul(text + [0] + trailing) == text
  {
    if text != [] {
      assert (text + [0] + trailing)[1..] == text[1..] + [0] + trailing;
      TextUpToNul(text[1..], trailing);
    }
  }

  /** The payload can be cut up as the source does exactly if an error message does not end right
      before its text, and an event that has a time stamp has its fill bytes too. */
  lemma PanicsIff(hi: HeadInfo, shape: Option<Shape>, payload: seq<byte>, arrayTruncate: nat)
    ensures Decode(hi, shape, payload, arrayTruncate) == Panics
       <==> || (hi.cmdid == 0x0b && |payload| == 17)
            || (hi.cmdid == 1 && 14 <= hi.dataType <= 20 && shape.Some?
                && 12 <= |payload| < WireOffset(hi.dataType))
  {
  }

  /** The messages that are refused, and how. */
  predicate Refusal(hi: HeadInfo, shape: Option<Shape>, n: nat, e: DecodeError) {
    var k := hi.dataType;
    match e
    case BadCaDbrTypeId(k') => hi.cmdid == 1 && k == k' > 20
    case MismatchDbrTimeType => hi.cmdid == 1 && k < 14
    case NotEnoughPayloadTimeMetadata(n') => hi.cmdid == 1 && 14 <= k <= 20 && n == n' < 12
    case BadCaCount => hi.cmdid == 1 && 14 <= k <= 20 && n >= 12 && shape.None?
    case NotEnoughPayload =>
      hi.cmdid == 1 && 15 <= k <= 20 && shape == Some(Scalar) && WireOffset(k) <= n < WireOffset(k) + WireWidth(k)
    case TodoConversionArray => hi.cmdid == 1 && k == 17 && n >= 14 && shape.Some? && shape.value.Wave?
    case CaProtoVersionMissing => hi.cmdid == 6 && n < 2
    case CaCommandNotSupported(c) => hi.cmdid == c && c !in {0, 1, 6, 11, 15, 18, 20, 21, 22, 23, 26}
  }

  /** Which error, if any, depends on the header, the shape and the length of the payload alone. */
  lemma RefusedIff(hi: HeadInfo, shape: Option<Shape>, payload: seq<byte>, arrayTruncate: nat, e: DecodeError)
    ensures Decode(hi, shape, payload, arrayTruncate) == Failed(e) <==> Refusal(hi, shape, |payload|, e)
  {
    hide Values;
    hide Interpret;
    hide UpToNul;
    hide Timestamp;
    hide Be16;
    hide Be32;
    if 14 <= hi.dataType <= 20 {
      TypeTable(hi.dataType);
    }
  }

  /** The answers that are not events come out with the fields that they were sent with, and an
      error message with its text, which the header of the request that failed precedes in the
      payload: without its first byte, and without the NUL at its end. */
  lemma OtherAnswersSurvive(n: u16, a: u16, b: u16, p1: u32, p2: u32, header: seq<byte>, text: seq<byte>,
                            shape: Option<Shape>, arrayTruncate: nat)
    requires |header| == 16
    ensures Decode(HeadInfo(0, n, a, b, p1, p2), shape, text, arrayTruncate) == Decoded(Message(VersionRes(b)))
    ensures Decode(HeadInfo(18, n, a, b, p1, p2), shape, text, arrayTruncate)
         == Decoded(Message(CreateChanRes(a, b, p1, p2)))
    ensures Decode(HeadInfo(22, n, a, b, p1, p2), shape, text, arrayTruncate)
         == Decoded(Message(AccessRightsRes(p1, p2)))
    ensures Decode(HeadInfo(26, n, a, b, p1, p2), shape, text, arrayTruncate) == Decoded(Message(CreateChanFail(p1)))
    ensures Decode(HeadInfo(23, n, a, b, p1, p2), shape, text, arrayTruncate) == Decoded(Message(Echo))
    ensures Decode(HeadInfo(15, n, a, b, p1, p2), shape, text, arrayTruncate)
         == Decoded(Message(ReadNotifyRes(a, b, p1, p2)))
    ensures Decode(HeadInfo(20, n, a, b, p1, p2), shape, text, arrayTruncate) == Decoded(PeerName(text))
    ensures Decode(HeadInfo(21, n, a, b, p1, p2), shape, text, arrayTruncate) == Decoded(PeerHost)
    ensures Decode(HeadInfo(11, n, a, b, p1, p2), shape, header, arrayTruncate) == Decoded(Problem(p1, p2, []))
    ensures Decode(HeadInfo(11, n, a, b, p1, p2), shape, header + text + [0], arrayTruncate)
         == if text == [] then Panics else Decoded(Problem(p1, p2, text[1..]))
  {
    var payload := header + text + [0];
    if text != [] {
      assert payload[17..|payload| - 1] == text[1..];
    }
  }

  /** Every event carries a time from the epoch of Channel Access on, which is what the completeness
      of the partition index depends on, and early enough that the end of its hour is a 64-bit time. */
  lemma EventTimesFit(secs: u32, nanos: u32)
    ensures Timestamp(secs, nanos) == EventPartition.EPICS_EPOCH + secs * EventPartition.SEC + nanos
    ensures EventPartition.EPICS_EPOCH <= Timestamp(secs, nanos) < EventPartition.U64 - EventPartition.HOUR
  {
  }

  /** The events of a channel: the time in the message, and the running number. */
  function Stamped(events: seq<((u32, u32), nat)>): seq<(nat, nat)> {
    seq(|events|, i requires 0 <= i < |events| => (Timestamp(events[i].0.0, events[i].0.1), events[i].1))
  }

  /** Whatever times a peer sends, and in whatever order: the partition of everything that is stored
      is announced with it or before, exactly if no copy of the first event is stored. */
  lemma EveryPartitionIsAnnounced(copies: Copies, events: seq<((u32, u32), nat)>)
    requires Positive(copies) && |copies| <= EventPartition.HOUR - EventPartition.SEC * 10 && events != []
    ensures var items := StoredWith(copies, Stamped(events)).1;
            (forall i :: 0 <= i < |items| ==> EventPartition.Announced(items, i)) <==> !Fires(copies, events[0].1)
  {
    hide StoredWith;
    hide EventPartition.Announced;
    hide Timestamp;
    hide Fires;
    EventTimesFit(events[0].0.0, events[0].0.1);
    CopiesAreAnnouncedIff(copies, Stamped(events));
  }
}
