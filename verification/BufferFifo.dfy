/**
 Integers through a `SlideBuf`: a run of integer puts and reads on the bounded byte FIFO
 behaves like a bounded queue of the integers themselves, however the two are interleaved
 and wherever the buffer rewinds.
 */
module BufferFifo {
  import opened Bytes
  import opened Wrappers
  import opened SlideBuffer

  datatype Op = Put(v: nat, ts: nat) | Read(ts: nat)

  /** A stored integer and its width. */
  datatype Item = Item(v: nat, ts: nat)

  ghost predicate Fits(op: Op) {
    op.Put? ==> op.v < Pow256(op.ts)
  }

  /** `PutBe` and `ReadBe` of `SlideBuf`, on its abstract value. */
  function ByteStep(data: seq<byte>, cap: nat, op: Op): (seq<byte>, Option<nat>) {
    match op
    case Put(v, ts) => if |data| + ts <= cap then (data + ToBe(v, ts), Some(v)) else (data, None)
    case Read(ts) => if ts <= |data| then (data[ts..], Some(FromBe(data[..ts]))) else (data, None)
  }

  function ByteRun(data: seq<byte>, cap: nat, ops: seq<Op>): seq<Option<nat>>
    decreases |ops|
  {
    if ops == [] then []
    else
      var (d, r) := ByteStep(data, cap, ops[0]);
      [r] + ByteRun(d, cap, ops[1..])
  }

  /** The operations on the buffer itself: `put_u8`, `put_u16_be` and so on, and their reads. */
  method RunOps(b: SlideBuf, ops: seq<Op>) returns (rs: seq<Option<nat>>)
    requires b.Valid() && forall i :: 0 <= i < |ops| ==> Fits(ops[i])
    modifies b, b.buf
    ensures b.Valid()
    ensures rs == ByteRun(old(b.Data()), b.Cap(), ops)
  {
    hide SlideBuf.Data;
    hide FromBe;
    hide ToBe;
    hide Pow256;
    hide ByteStep;
    rs := [];
    ghost var goal := ByteRun(b.Data(), b.Cap(), ops);
    assert ops[0..] == ops && [] + goal == goal;
    for i := 0 to |ops|
      invariant b.Valid()
      invariant rs + ByteRun(b.Data(), b.Cap(), ops[i..]) == goal
    {
      ghost var data := b.Data();
      var one := RunOp(b, ops[i]);
      RunStep(data, b.Cap(), ops, i, rs);
      rs := rs + [one];
    }
    assert rs + [] == rs;
  }

  method RunOp(b: SlideBuf, op: Op) returns (r: Option<nat>)
    requires b.Valid() && Fits(op)
    modifies b, b.buf
    ensures b.Valid() && (b.Data(), r) == ByteStep(old(b.Data()), b.Cap(), op)
  {
    hide SlideBuf.Data;
    hide FromBe;
    hide ToBe;
    hide Pow256;
    match op {
      case Put(v, ts) =>
        var put := b.PutBe(v, ts);
        r := if put.Ok? then Some(v) else None;
      case Read(ts) =>
        var read := b.ReadBe(ts);
        r := if read.Ok? then Some(read.value) else None;
    }
  }

  lemma RunStep(data: seq<byte>, cap: nat, ops: seq<Op>, i: nat, rs: seq<Option<nat>>)
    requires i < |ops|
    ensures var (d, r) := ByteStep(data, cap, ops[i]);
            rs + ByteRun(data, cap, ops[i..]) == (rs + [r]) + ByteRun(d, cap, ops[i + 1..])
  {
    hide ByteStep;
    assert ops[i..][0] == ops[i] && ops[i..][1..] == ops[i + 1..];
    var (d, r) := ByteStep(data, cap, ops[i]);
    assert rs + ([r] + ByteRun(d, cap, ops[i + 1..])) == (rs + [r]) + ByteRun(d, cap, ops[i + 1..]);
  }

  function Bytelen(q: seq<Item>): nat {
    if q == [] then 0 else q[0].ts + Bytelen(q[1..])
  }

  function Encoded(q: seq<Item>): (s: seq<byte>)
    ensures |s| == Bytelen(q)
  {
    if q == [] then [] else ToBe(q[0].v, q[0].ts) + Encoded(q[1..])
  }

  /** The reference: a queue of integers with a byte budget. */
  function QueueStep(q: seq<Item>, cap: nat, op: Op): (seq<Item>, Option<nat>) {
    match op
    case Put(v, ts) => if Bytelen(q) + ts <= cap then (q + [Item(v, ts)], Some(v)) else (q, None)
    case Read(ts) => if q == [] then (q, None) else (q[1..], Some(q[0].v))
  }

  function QueueRun(q: seq<Item>, cap: nat, ops: seq<Op>): seq<Option<nat>>
    decreases |ops|
  {
    if ops == [] then []
    else
      var (q', r) := QueueStep(q, cap, ops[0]);
      [r] + QueueRun(q', cap, ops[1..])
  }

  /** Every read asks for the width that is next in the queue; a read of an empty queue asks
      for at least one byte. */
  ghost predicate Matching(q: seq<Item>, cap: nat, ops: seq<Op>)
    decreases |ops|
  {
    ops != [] ==>
      && (ops[0].Read? ==> if q == [] then ops[0].ts > 0 else ops[0].ts == q[0].ts)
      && Fits(ops[0])
      && Matching(QueueStep(q, cap, ops[0]).0, cap, ops[1..])
  }

  ghost predicate AllFit(q: seq<Item>) {
    forall i :: 0 <= i < |q| ==> q[i].v < Pow256(q[i].ts)
  }

  lemma {:induction false} EncodedAppend(q: seq<Item>, x: Item)
    ensures Encoded(q + [x]) == Encoded(q) + ToBe(x.v, x.ts)
  {
    if q == [] {
      assert [x][1..] == [];
    } else {
      EncodedAppend(q[1..], x);
      assert (q + [x])[1..] == q[1..] + [x];
    }
  }

  lemma {:induction false} ReadsInvertPuts(q: seq<Item>, cap: nat, ops: seq<Op>)
    requires AllFit(q) && Matching(q, cap, ops)
    ensures ByteRun(Encoded(q), cap, ops) == QueueRun(q, cap, ops)
    decreases |ops|
  {
    if ops != [] {
      var (q', r) := QueueStep(q, cap, ops[0]);
      match ops[0] {
        case Put(v, ts) =>
          EncodedAppend(q, Item(v, ts));
        case Read(ts) =>
          if q != [] {
            DecodeEncode(q[0].v, q[0].ts);
            assert Encoded(q)[..ts] == ToBe(q[0].v, ts);
            assert Encoded(q)[ts..] == Encoded(q[1..]);
          }
      }
      ReadsInvertPuts(q', cap, ops[1..]);
    }
  }
}
