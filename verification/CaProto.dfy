/**
 The protocol object of netfetch/src/ca/proto.rs: the queue of messages to send with the output
 pump, and the reader, over two `SlideBuf`s. What the socket accepts or delivers is an input.
 */
module CaProto {
  import opened Bytes
  import opened Wrappers
  import opened SlideBuffer
  import opened Incremental
  import opened CaWire
  import opened CaReading
  import CaDecode

  /** What a parse step yields: the outcome of a message that is complete, if any, or a refusal. */
  type Parsing = Result<Option<CaDecode.Outcome>, CaDecode.Outcome>

  /** `copy_from_slice` at a fixed place. */
  method StoreAt(a: array<byte>, at: nat, s: seq<byte>)
    requires at + |s| <= a.Length
    modifies a
    ensures a[..] == old(a[..])[..at] + s + old(a[..])[at + |s|..]
  {
    forall i | 0 <= i < |s| {
      a[at + i] := s[i];
    }
  }

  /** Zeroes the slice of n bytes, then copies the string over its front. */
  method StorePadded(a: array<byte>, at: nat, s: seq<byte>, n: nat)
    requires |s| <= n && at + n <= a.Length
    modifies a
    ensures a[..] == old(a[..])[..at] + ZeroPadded(s, n) + old(a[..])[at + n..]
  {
    forall i | 0 <= i < n {
      a[at + i] := 0;
    }
    StoreAt(a, at, s);
  }

  /** `place_payload_into`. */
  method PlacePayloadInto(m: CaMsg, a: array<byte>, at: nat)
    requires Encodable(m) && at + PayloadLen(m) <= a.Length
    modifies a
    ensures a[..] == old(a[..])[..at] + Payload(m) + old(a[..])[at + PayloadLen(m)..]
  {
    hide ZeroPadded;
    var n := PayloadLen(m);
    assert a[..] == a[..][..at] + [] + a[..][at..];
    match m {
      case ClientName => StorePadded(a, at, CLIENT_NAME, n);
      case HostName(host) => StorePadded(a, at, host, n);
      case Search(_, channel) => StorePadded(a, at, channel, n);
      case CreateChan(_, channel) => StorePadded(a, at, channel, n);
      case EventAdd(_, _, _, _) => StoreAt(a, at, EVENT_MASK);
      case _ =>
    }
  }

  /** `place_into`, on the slice of the buffer that starts at `at`: the six header fields, then
      the payload. */
  method PlaceInto(m: CaMsg, a: array<byte>, at: nat)
    requires Encodable(m) && at + 16 + PayloadLen(m) <= a.Length
    modifies a
    ensures a[..] == old(a[..])[..at] + Encode(m) + old(a[..])[at + |Encode(m)|..]
  {
    hide Payload;
    hide EncodeHead;
    ghost var a0 := a[..];
    var h := EncodeHead(HeadOf(m));
    StoreAt(a, at, h);
    ghost var a1 := a[..];
    PlacePayloadInto(m, a, at + 16);
    assert a1[..at + 16] == a0[..at] + h && a1[at + 16 + PayloadLen(m)..] == a0[at + 16 + PayloadLen(m)..];
    assert (a0[..at] + h) + Payload(m) == a0[..at] + (h + Payload(m));
  }

  /** `from_netbuf`: six reads, which succeed when a whole header is there. */
  method FromNetbuf(b: SlideBuf) returns (r: Result<HeadInfo, SlideBuffer.Error>)
    requires b.Valid()
    modifies b`rp
    ensures b.Valid()
    ensures r.Ok? <==> |old(b.Data())| >= 16
    ensures r.Ok? ==> r.value == DecodeHead(old(b.Data())[..16]) && b.Data() == old(b.Data())[16..]
  {
    hide SlideBuf.Data;
    hide FromBe;
    hide Pow256;
    Powers();
    ghost var s := b.Data();
    HeadReads(s);
    var command := b.ReadBe(2);
    if command.Err? { return Err(command.error); }
    var payloadSize := b.ReadBe(2);
    if payloadSize.Err? { return Err(payloadSize.error); }
    var dataType := b.ReadBe(2);
    if dataType.Err? { return Err(dataType.error); }
    var dataCount := b.ReadBe(2);
    if dataCount.Err? { return Err(dataCount.error); }
    var param1 := b.ReadBe(4);
    if param1.Err? { return Err(param1.error); }
    var param2 := b.ReadBe(4);
    if param2.Err? { return Err(param2.error); }
    return Ok(HeadInfo(command.value, payloadSize.value, dataType.value, dataCount.value, param1.value, param2.value));
  }

  /** What the reads of a header see, one after the other. */
  lemma HeadReads(s: seq<byte>)
    ensures |s| >= 4 ==> s[2..][..2] == s[2..4] && s[2..][2..] == s[4..]
    ensures |s| >= 6 ==> s[4..][..2] == s[4..6] && s[4..][2..] == s[6..]
    ensures |s| >= 8 ==> s[6..][..2] == s[6..8] && s[6..][2..] == s[8..]
    ensures |s| >= 12 ==> s[8..][..4] == s[8..12] && s[8..][4..] == s[12..]
    ensures |s| >= 16 ==> s[12..][..4] == s[12..16] && s[12..][4..] == s[16..]
    ensures |s| >= 16 ==> DecodeHead(s[..16]) == HeadInfo(Be16(s[..2]), Be16(s[2..4]), Be16(s[4..6]), Be16(s[6..8]),
                                                        Be32(s[8..12]), Be32(s[12..16]))
  {
    hide DecodeHead;
    if |s| >= 4 { FieldAt(s, 2, 2); }
    if |s| >= 6 { FieldAt(s, 4, 2); }
    if |s| >= 8 { FieldAt(s, 6, 2); }
    if |s| >= 12 { FieldAt(s, 8, 4); }
    if |s| >= 16 {
      FieldAt(s, 12, 4);
      HeadDecoded(s);
    }
  }

  lemma FieldAt(s: seq<byte>, a: nat, n: nat)
    requires a + n <= |s|
    ensures s[a..][..n] == s[a..a + n] && s[a..][n..] == s[a + n..]
  {
  }

  lemma FieldOfHead(s: seq<byte>, a: nat, b: nat)
    requires a <= b <= 16 <= |s|
    ensures s[..16][a..b] == s[a..b]
  {
  }

  lemma HeadDecoded(s: seq<byte>)
    requires |s| >= 16
    ensures DecodeHead(s[..16]) == HeadInfo(Be16(s[..2]), Be16(s[2..4]), Be16(s[4..6]), Be16(s[6..8]),
                                            Be32(s[8..12]), Be32(s[12..16]))
  {
    hide Be16;
    hide Be32;
    FieldOfHead(s, 0, 2);
    FieldOfHead(s, 2, 4);
    FieldOfHead(s, 4, 6);
    FieldOfHead(s, 6, 8);
    FieldOfHead(s, 8, 12);
    FieldOfHead(s, 12, 16);
    assert s[0..2] == s[..2];
  }

  class CaProto {
    const buf: SlideBuf
    const outbuf: SlideBuf
    const decoder: Decoder
    var state: CaState
    var out: seq<CaMsg>

    ghost predicate Valid()
      reads this`out, buf, outbuf
    {
      && buf != outbuf && buf.buf != outbuf.buf
      && buf.Valid() && outbuf.Valid()
      && buf.Cap() == outbuf.Cap() == 1024 * 128
      && AllEncodable(out)
    }

    /** All the bytes that are still to be written to the socket. */
    ghost function Unsent(): seq<byte>
      requires Valid()
      reads this`out, buf, outbuf, outbuf.buf
    {
      outbuf.Data() + EncodeAll(out)
    }

    constructor (decoder: Decoder)
      ensures Valid() && this.decoder == decoder
      ensures fresh(buf) && fresh(outbuf) && fresh(buf.buf) && fresh(outbuf.buf)
      ensures Unsent() == [] && buf.Data() == [] && state == StdHead
    {
      this.decoder := decoder;
      state := StdHead;
      out := [];
      buf := new SlideBuf(1024 * 128);
      outbuf := new SlideBuf(1024 * 128);
    }

    method PushOut(m: CaMsg)
      requires Valid() && Encodable(m)
      modifies this`out
      ensures Valid() && Unsent() == old(Unsent()) + Encode(m)
    {
      hide SlideBuf.Data;
      hide Encode;
      EncodeAllAppend(out, [m]);
      EncodeAllOne(m);
      assert outbuf.Data() + (EncodeAll(out) + Encode(m)) == Unsent() + Encode(m);
      out := out + [m];
    }

    /** Encodes a message in the writable area and makes it data. */
    method Serialize(m: CaMsg)
      requires outbuf.Valid() && Encodable(m) && |Encode(m)| <= outbuf.Wcap()
      modifies outbuf, outbuf.buf
      ensures outbuf.Valid() && outbuf.Data() == old(outbuf.Data()) + Encode(m)
    {
      hide Encode;
      ghost var a0, at := outbuf.buf[..], outbuf.wp;
      PlaceInto(m, outbuf.buf, outbuf.wp);
      assert outbuf.buf[..at] == a0[..at];
      assert outbuf.Data() == old(outbuf.Data());
      assert outbuf.buf[at..][..|Encode(m)|] == Encode(m);
      var w := outbuf.Wadv(16 + PayloadLen(m));
    }

    /** Serialises queued messages while they fit. */
    method FillOutbuf()
      requires Valid()
      modifies this`out, outbuf, outbuf.buf
      ensures Valid() && Unsent() == old(Unsent())
      ensures |out| <= |old(out)|
      ensures out != [] && old(outbuf.Data()) == [] ==> |out| < |old(out)|
    {
      hide SlideBuf.Data;
      hide Encode;
      ghost var goal := Unsent();
      while out != []
        invariant Valid() && Unsent() == goal
        invariant |out| <= |old(out)|
        invariant |out| == |old(out)| ==> outbuf.Data() == old(outbuf.Data())
        decreases |out|
      {
        var msglen := 16 + PayloadLen(out[0]);
        var area := outbuf.AvailableWritableArea(msglen);
        if area.Err? {
          break;
        }
        ghost var d := outbuf.Data();
        Serialize(out[0]);
        assert (d + Encode(out[0])) + EncodeAll(out[1..]) == d + EncodeAll(out);
        out := out[1..];
      }
    }

    /** `attempt_output`, for a socket that accepts at most k bytes now; 0 means not ready. */
    method AttemptOutput(k: nat) returns (sent: seq<byte>)
      requires Valid() && outbuf.Len() > 0
      modifies outbuf`rp
      ensures Valid() && sent + outbuf.Data() == old(outbuf.Data())
      ensures |sent| == if k <= |old(outbuf.Data())| then k else |old(outbuf.Data())|
    {
      hide SlideBuf.Data;
      var n := if k <= outbuf.Len() then k else outbuf.Len();
      sent := outbuf.Data()[..n];
      var a := outbuf.Adv(n);
    }

    /** Writes the buffer out, taking from attempt i on what the socket accepts. */
    method WriteOut(accepts: seq<nat>, i: nat) returns (sent: seq<byte>, j: nat, pending: bool)
      requires Valid() && i <= |accepts|
      modifies outbuf`rp
      ensures Valid() && sent + outbuf.Data() == old(outbuf.Data())
      ensures i <= j <= |accepts| && j - i <= |sent|
      ensures !pending <==> outbuf.Data() == []
      ensures pending ==> j == |accepts| || accepts[j] == 0
    {
      hide SlideBuf.Data;
      sent, j := [], i;
      while outbuf.Len() > 0
        invariant Valid() && sent + outbuf.Data() == old(outbuf.Data())
        invariant i <= j <= |accepts| && j - i <= |sent|
        decreases |outbuf.Data()|
      {
        if j == |accepts| || accepts[j] == 0 {
          return sent, j, true;
        }
        var now := AttemptOutput(accepts[j]);
        sent, j := sent + now, j + 1;
      }
      pending := false;
    }

    /** The output part of `loop_body`: fill the buffer, write it out, repeat while messages are
        left, then write out what remains. `accepts` is what the socket accepts at each attempt;
        it is not ready at a 0 and after the last one. Bytes written, then bytes buffered, then
        the encodings of the queued messages are always all that was pushed, in order. The pump
        stops early only because the socket did: if each of enough attempts takes a byte,
        everything goes out. */
    method PumpOutput(accepts: seq<nat>) returns (sent: seq<byte>, pending: bool)
      requires Valid()
      modifies this`out, outbuf, outbuf.buf
      ensures Valid() && sent + Unsent() == old(Unsent())
      ensures !pending ==> Unsent() == []
      ensures (forall i :: 0 <= i < |accepts| ==> accepts[i] > 0) && |old(Unsent())| <= |accepts| ==> Unsent() == []
    {
      hide SlideBuf.Data;
      hide EncodeAll;
      sent, pending := [], false;
      var j := 0;
      ghost var goal := Unsent();
      while out != [] && !pending
        invariant Valid() && sent + Unsent() == goal
        invariant j <= |accepts| && j <= |sent|
        invariant pending ==> j == |accepts| || accepts[j] == 0
        decreases !pending, |out|, |outbuf.Data()|
      {
        FillOutbuf();
        var now;
        now, j, pending := WriteOut(accepts, j);
        Moved(sent, now, outbuf.Data(), EncodeAll(out));
        sent := sent + now;
      }
      if !pending {
        EncodeAllNone();
        var now;
        now, j, pending := WriteOut(accepts, j);
        Moved(sent, now, outbuf.Data(), []);
        sent := sent + now;
      }
    }

    // ---- input ----

    /** One step of `parse_item`, with the bytes it needs at hand. It consumes exactly those, also when
        the message is refused; then the state is kept. */
    method ParseItem() returns (r: Parsing)
      requires Valid() && state != Done && CaReading.NeedMin(state) <= buf.Len()
      modifies this`state, buf`rp
      ensures Valid()
      ensures buf.Data() == old(buf.Data())[CaReading.NeedMin(old(state))..]
      ensures var s := DecodeStep(decoder, old(state), old(buf.Data())[..CaReading.NeedMin(old(state))]);
              match r
              case Ok(item) => s == Next(state, Events(item))
              case Err(refusal) => s == Stop([refusal]) && state == old(state)
    {
      hide SlideBuf.Data;
      hide DecodeHead;
      hide FromBe;
      hide DecodePiece;
      hide DecodeStep;
      hide HeadParsed;
      hide ExtParsed;
      hide Events;
      StepIs(decoder, state, buf.Data()[..CaReading.NeedMin(state)]);
      match state {
        case StdHead =>
          var hi := FromNetbuf(buf);
          r := ParseHead(hi.value);
        case ExtHead(hi) =>
          var payloadSize := ReadExtHead();
          r := ParseExtHead(hi, payloadSize);
        case AtPayload(hi) =>
          var g := buf.ReadBytes(hi.payloadSize);
          var msg := DecodePiece(decoder, Piece(hi, g.value));
          if !msg.Decoded? {
            return Err(msg);
          }
          state := StdHead;
          return Ok(Some(msg));
      }
    }

    method ParseHead(hi: HeadInfo) returns (r: Parsing)
      requires state == StdHead
      modifies this`state
      ensures (state, r) == HeadParsed(decoder, hi)
    {
      if Extends(hi) {
        state := ExtHead(hi);
        return Ok(None);
      }
      if hi.payloadSize == 0 {
        state := StdHead;
        var msg := DecodePiece(decoder, Piece(hi, []));
        return if msg.Decoded? then Ok(Some(msg)) else Err(msg);
      }
      state := AtPayload(hi);
      return Ok(None);
    }

    method ParseExtHead(hi: HeadInfo, payloadSize: nat) returns (r: Parsing)
      requires state == ExtHead(hi)
      modifies this`state
      ensures (state, r) == ExtParsed(decoder, hi, payloadSize)
    {
      if payloadSize <= 16368 {
        var msg := DecodePiece(decoder, Piece(hi, []));
        if !msg.Decoded? {
          return Err(msg);
        }
        state := StdHead;
        return Ok(Some(msg));
      }
      state := AtPayload(hi);
      return Ok(None);
    }

    /** The two fields of an extended header. The count is not used. */
    method ReadExtHead() returns (payloadSize: nat)
      requires Valid() && 8 <= buf.Len()
      modifies buf`rp
      ensures Valid() && payloadSize == FromBe(old(buf.Data())[..8][..4]) && buf.Data() == old(buf.Data())[8..]
    {
      hide SlideBuf.Data;
      hide FromBe;
      hide Pow256;
      ghost var s := buf.Data();
      var size := buf.ReadBe(4);
      var count := buf.ReadBe(4);
      assert s[..8][..4] == s[..4] && s[4..][4..] == s[8..];
      payloadSize := size.value;
    }

    /** The read part of `loop_body`, for a socket that has `waiting` and hands over at most `most`
        bytes of it. A 16-bit payload size always leaves room. */
    method ReadInput(waiting: seq<byte>, most: nat) returns (n: nat)
      requires Valid() && state != Done && buf.Len() < CaReading.NeedMin(state)
      requires waiting != [] && most > 0
      modifies buf, buf.buf
      ensures Valid() && 1 <= n <= |waiting| && n <= most
      ensures buf.Data() == old(buf.Data()) + waiting[..n]
    {
      var area := buf.AvailableWritableArea(CaReading.NeedMin(state));
      assert area.Ok?;
      n := if most <= |waiting| then most else |waiting|;
      n := if n <= area.value then n else area.value;
      buf.Fill(waiting[..n]);
      var w := buf.Wadv(n);
    }

    /** Where the reader stands, having emitted the items. */
    ghost function R(items: seq<CaDecode.Outcome>): Reader<CaState, CaDecode.Outcome>
      requires Valid()
      reads this, buf, buf.buf, outbuf
    {
      Running(state, buf.Data(), items)
    }

    /** The input part of `loop_body`: read if the state needs more than there is, then parse if
        there is enough. */
    method InputRound(waiting: seq<byte>, most: nat) returns (n: nat, r: Parsing)
      requires Valid() && state != Done
      requires CaReading.NeedMin(state) <= buf.Len() || (waiting != [] && most > 0)
      modifies this`state, buf, buf.buf
      ensures Progressive(Decoding(decoder))
      ensures Valid() && state != Done && n <= |waiting|
      ensures if CaReading.NeedMin(old(state)) <= |old(buf.Data())| then n == 0 else 1 <= n <= most
      ensures r.Ok? ==>
                Feed(Decoding(decoder), old(R([])), waiting[..n]) == Feed(Decoding(decoder), R(Events(r.value)), [])
      ensures r.Err? ==> Feed(Decoding(decoder), old(R([])), waiting[..n]) == Stopped([r.error]) && state == old(state)
                         && buf.Data() == old(buf.Data() + waiting[..n])[CaReading.NeedMin(state)..]
      ensures r.Ok? && n == 0 ==>
                || |buf.Data()| < |old(buf.Data())|
                || (|buf.Data()| == |old(buf.Data())| && old(state).AtPayload? && !state.AtPayload?)
      ensures r.Ok? ==> |buf.Data()| <= |old(buf.Data())| + n
    {
      hide SlideBuf.Data;
      DecodingProgresses(decoder);
      hide DecodeStep;
      hide Feed;
      hide Progressive;
      n, r := 0, Ok(None);
      if buf.Len() < CaReading.NeedMin(state) {
        n := ReadInput(waiting, most);
      }
      FeedUnread(Decoding(decoder), state, old(buf.Data()), [], waiting[..n]);
      assert buf.Data() == old(buf.Data()) + waiting[..n];
      if CaReading.NeedMin(state) <= buf.Len() {
        ReadingUnfolds(decoder, state, buf.Data());
        r := ParseItem();
      }
    }

    /** The poll loop over `incoming`, until a message is refused or the socket is not ready. Read i
        takes at most `sizes[i]` bytes; the socket is not ready at a 0 and after the last one. The
        messages that come out, and where the reader stops, are those of the machine on what was
        read. With enough reads that each take a byte, all of it is. */
    method PollInput(incoming: seq<byte>, sizes: seq<nat>)
      returns (items: seq<CaDecode.Outcome>, refused: bool, taken: nat)
      requires Valid() && state != Done
      modifies this`state, buf, buf.buf
      ensures Progressive(Decoding(decoder))
      ensures Valid() && state != Done && taken <= |incoming|
      ensures (if refused then Stopped(items) else Running(state, buf.Data(), items))
           == Feed(Decoding(decoder), Running(old(state), old(buf.Data()), []), incoming[..taken])
      ensures (forall i :: 0 <= i < |sizes| ==> sizes[i] > 0) && |incoming| <= |sizes| ==>
                refused || taken == |incoming|
    {
      hide SlideBuf.Data;
      DecodingProgresses(decoder);
      hide Feed;
      hide Progressive;
      ghost var m, r0 := Decoding(decoder), R([]);
      items, refused, taken := [], false, 0;
      var j := 0;
      assert Feed(m, R([]), []) == Feed(m, r0, incoming[..0]);
      while CaReading.NeedMin(state) <= buf.Len() || (taken < |incoming| && j < |sizes| && sizes[j] > 0)
        invariant Valid() && state != Done
        invariant j <= taken <= |incoming| && j <= |sizes|
        invariant Feed(m, r0, incoming[..taken]) == Feed(m, R(items), [])
        decreases |incoming| - taken + |buf.Data()|, |incoming| - taken, state.AtPayload?
      {
        ghost var st, data := state, buf.Data();
        var n, r := InputRound(incoming[taken..], if j < |sizes| then sizes[j] else 0);
        Onward(m, r0, st, data, items, incoming, taken, n, R(if r.Ok? then Events(r.value) else []), r);
        taken, j := taken + n, j + if n > 0 then 1 else 0;
        if r.Err? {
          items, refused := items + [r.error], true;
          return;
        }
        if r.value.Some? {
          items := items + [r.value.value];
        } else {
          assert items + [] == items;
        }
      }
      FeedShort(m, state, buf.Data(), items);
    }
  }

  /** Where the reader stands carries over to the bytes that were read next. */
  lemma Onward(m: Machine<CaState, CaDecode.Outcome>, r0: Reader<CaState, CaDecode.Outcome>,
               st: CaState, data: seq<byte>, items: seq<CaDecode.Outcome>, incoming: seq<byte>, taken: nat, n: nat,
               now: Reader<CaState, CaDecode.Outcome>, r: Parsing)
    requires Progressive(m) && taken + n <= |incoming| && now.Running?
    requires Feed(m, r0, incoming[..taken]) == Feed(m, Running(st, data, items), [])
    requires r.Ok? ==> Feed(m, Running(st, data, []), incoming[taken..][..n]) == Feed(m, now, [])
    requires r.Err? ==> Feed(m, Running(st, data, []), incoming[taken..][..n]) == Stopped([r.error])
    ensures r.Ok? ==> Feed(m, r0, incoming[..taken + n]) == Feed(m, now.(emitted := items + now.emitted), [])
    ensures r.Err? ==> Feed(m, r0, incoming[..taken + n]) == Stopped(items + [r.error])
  {
    hide Feed;
    var chunk := incoming[taken..][..n];
    assert incoming[..taken] + chunk == incoming[..taken + n];
    assert [] + chunk == chunk;
    FeedChunk(m, r0, incoming[..taken], chunk);
    FeedChunk(m, Running(st, data, items), [], chunk);
    assert items + [] == items;
    EmittedBefore(m, items, Running(st, data, []), chunk);
    if r.Ok? {
      EmittedBefore(m, items, now, []);
    }
  }

  lemma EmittedBefore(m: Machine<CaState, CaDecode.Outcome>, items: seq<CaDecode.Outcome>,
                      r: Reader<CaState, CaDecode.Outcome>, chunk: seq<byte>)
    requires Progressive(m) && r.Running?
    ensures Feed(m, r.(emitted := items + r.emitted), chunk) == Prepend(items, Feed(m, r, chunk))
  {
    FeedPrepend(m, items, r, chunk);
  }

  function Events(item: Option<CaDecode.Outcome>): seq<CaDecode.Outcome> {
    if item.Some? then [item.value] else []
  }

  /** The state after a step that leads to `next` if the piece is decoded, and what comes out. */
  function Emitted(d: Decoder, st: CaState, next: CaState, p: Piece): (CaState, Parsing) {
    var msg := DecodePiece(d, p);
    if msg.Decoded? then (next, Ok(Some(msg))) else (st, Err(msg))
  }

  function HeadParsed(d: Decoder, h: HeadInfo): (CaState, Parsing) {
    if Extends(h) then (ExtHead(h), Ok(None))
    else if h.payloadSize == 0 then Emitted(d, StdHead, StdHead, Piece(h, []))
    else (AtPayload(h), Ok(None))
  }

  function ExtParsed(d: Decoder, h: HeadInfo, payloadSize: nat): (CaState, Parsing) {
    if payloadSize <= 16368 then Emitted(d, ExtHead(h), StdHead, Piece(h, [])) else (AtPayload(h), Ok(None))
  }

  ghost predicate Parsed(d: Decoder, st: CaState, c: seq<byte>, t: CaState, r: Parsing)
    requires |c| == CaReading.NeedMin(st)
  {
    match r
    case Ok(item) => DecodeStep(d, st, c) == Next(t, Events(item))
    case Err(refusal) => DecodeStep(d, st, c) == Stop([refusal]) && t == st
  }

  lemma StepIs(d: Decoder, st: CaState, c: seq<byte>)
    requires st != Done && |c| == CaReading.NeedMin(st)
    ensures st.StdHead? ==> var (t, r) := HeadParsed(d, DecodeHead(c)); Parsed(d, st, c, t, r)
    ensures st.ExtHead? ==> var (t, r) := ExtParsed(d, st.hi, FromBe(c[..4])); Parsed(d, st, c, t, r)
    ensures st.AtPayload? ==> forall g :: g == c ==> var (t, r) := Emitted(d, st, StdHead, Piece(st.hi, g));
              Parsed(d, st, c, t, r)
  {
    hide DecodeHead;
    hide FromBe;
    hide DecodePiece;
  }

  lemma Moved(sent: seq<byte>, now: seq<byte>, data: seq<byte>, rest: seq<byte>)
    ensures sent + ((now + data) + rest) == (sent + now) + (data + rest)
  {
  }

  /** One step of the reader on its machine. */
  lemma ReadingUnfolds(d: Decoder, st: CaState, data: seq<byte>)
    requires st != Done && CaReading.NeedMin(st) <= |data| && Progressive(Decoding(d))
    ensures var n := CaReading.NeedMin(st);
            match DecodeStep(d, st, data[..n])
            case Stop(os) => Feed(Decoding(d), Running(st, data, []), []) == Stopped(os)
            case Next(t, os) =>
              && t != Done && (n == 0 ==> st.AtPayload? && !t.AtPayload?)
              && Feed(Decoding(d), Running(st, data, []), []) == Feed(Decoding(d), Running(t, data[n..], os), [])
  {
    hide Feed;
    hide Progressive;
    hide DecodeHead;
    hide DecodePiece;
    FeedStep(Decoding(d), st, data, []);
    match DecodeStep(d, st, data[..CaReading.NeedMin(st)])
    case Stop(os) => assert [] + os == os;
    case Next(_, os) => assert [] + os == os;
  }

  lemma EncodeAllOne(m: CaMsg)
    requires Encodable(m)
    ensures EncodeAll([m]) == Encode(m)
  {
    hide Encode;
    assert [m][1..] == [];
  }

  lemma EncodeAllNone()
    ensures EncodeAll([]) == []
  {
  }
}
