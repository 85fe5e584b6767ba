/**
 The patch collector as the object that is updated in place (netfetch/src/patchcollect.rs), and
 the storing of what it emits (netfetch/src/timebin.rs).
 */
module PatchCollection {
  import opened Wrappers
  import opened PatchState

  class PatchCollect {
    const patchLen: nat
    const binLen: nat
    const binCount: nat
    var coll: Option<seq<Bin>>
    var locked: bool
    var outq: seq<seq<Bin>>

    ghost predicate Valid() {
      binLen > 0 && binCount > 0 && patchLen > 0 && patchLen == binLen * binCount
    }

    ghost function Abs(): State
      reads this
    {
      State(coll, locked, outq)
    }

    constructor (binLen: nat, binCount: nat)
      requires binLen > 0 && binCount > 0
      ensures Valid() && Abs() == PatchState.New() && this.binLen == binLen && this.binCount == binCount
    {
      this.binLen := binLen;
      this.binCount := binCount;
      this.patchLen := binLen * binCount;
      coll := None;
      locked := false;
      outq := [];
      new;
      EdgeIff(0, binLen, binCount);
    }

    /** One pass over the edges of the item. */
    method FindEdges(item: seq<Bin>) returns (discard: bool, emit: bool, i3: nat)
      requires Valid()
      modifies this`locked
      ensures locked == (old(locked) || FirstStart(item, patchLen) < |item|)
      ensures discard == (!old(locked) && locked)
      ensures emit == (old(locked) && LastEnd(item, patchLen) > 0)
      ensures i3 == if discard then FirstStart(item, patchLen) else if emit then LastEnd(item, patchLen) else |item|
    {
      discard, emit, i3 := false, false, |item|;
      assert item[0..] == item && item[..|item|] == item && item[..0] == [];
      for i2 := 0 to |item|
        invariant locked == old(locked)
        invariant !discard && emit == (locked && LastEnd(item[..i2], patchLen) > 0)
        invariant i3 == if emit then LastEnd(item[..i2], patchLen) else |item|
        invariant !locked ==> FirstStart(item, patchLen) == i2 + FirstStart(item[i2..], patchLen)
      {
        assert item[..i2 + 1][..i2] == item[..i2];
        assert item[i2..][1..] == item[i2 + 1..];
        if locked {
          if item[i2].ts2 % patchLen == 0 {
            i3 := i2 + 1;
            emit := true;
          }
        } else {
          if item[i2].ts1 % patchLen == 0 {
            locked := true;
            i3 := i2;
            discard := true;
            break;
          }
        }
      }
    }

    /** Takes up the bins of an item. The loop ends after at most four rounds: bins before the first
        patch are dropped, patches are emitted, the rest is kept, nothing is left. */
    method Ingest(bins: seq<Bin>) returns (r: Result<(), string>)
      requires Valid()
      modifies this
      ensures Abs() == Ingested(old(Abs()), bins, patchLen)
      ensures r.Ok?
    {
      hide Taken;
      hide LastEnd;
      hide FirstStart;
      ghost var goal := Ingested(Abs(), bins, patchLen);
      var item := bins;
      var n1 := 0;
      var itemLenExp := |item|;
      while true
        invariant itemLenExp == |item|
        invariant Ingested(Abs(), item, patchLen) == goal
        invariant n1 + Rounds(Abs(), item, patchLen) <= 3
        decreases Rounds(Abs(), item, patchLen), |item|
      {
        n1 := n1 + 1;
        if n1 > 20 || |item| != itemLenExp {
          return Err("patchcollect too many iterations, or unexpected length");
        }
        if |item| == 0 {
          break;
        }
        RoundDone(Abs(), item, patchLen);
        if coll.None? {
          coll := Some([]);
        }
        var discard, emit, i3 := FindEdges(item);
        if !locked {
          itemLenExp := 0;
          item := [];
        } else if discard {
          itemLenExp := itemLenExp - i3;
          item := item[i3..];
          coll := Some([]);
        } else if emit {
          itemLenExp := itemLenExp - i3;
          coll := Some(coll.value + item[..i3]);
          item := item[i3..];
          outq := outq + [coll.value];
          coll := None;
        } else {
          itemLenExp := 0;
          coll := Some(coll.value + item);
          item := [];
        }
      }
      return Ok(());
    }

    method TakeOutq() returns (r: seq<seq<Bin>>)
      modifies this`outq
      ensures r == old(outq) && outq == []
    {
      r := outq;
      outq := [];
    }
  }

  /** Stores the patches that are complete. A patch without bins is an error, and everything after
      it is lost. */
  method StorePatch(pc: PatchCollect, queue: seq<PatchItem>) returns (more: seq<PatchItem>, r: Result<(), string>)
    requires pc.Valid()
    modifies pc`outq
    ensures pc.outq == []
    ensures more == queue + StoredPatches(old(pc.outq), Storable(old(pc.outq)), pc.binLen, pc.binCount, pc.patchLen)
    ensures r.Ok? <==> Storable(old(pc.outq)) == |old(pc.outq)|
  {
    hide StoredPatches;
    hide Storable;
    var patches := pc.TakeOutq();
    more := queue;
    ghost var n := Storable(patches);
    ghost var items := StoredPatches(patches, n, pc.binLen, pc.binCount, pc.patchLen);
    for i := 0 to |patches|
      invariant i <= n && pc.outq == []
      invariant more == queue + items[..i]
    {
      if patches[i] == [] {
        assert items[..i] == items;
        return more, Err("patch contains no bins");
      }
      var off := patches[i][0].ts1 / pc.patchLen;
      var item := PatchItem(Cast32(pc.binLen / SEC), Cast32(pc.binCount), Cast32(off / 1000), Cast32(off % 1000),
                            patches[i]);
      StoredAt(patches, n, pc.binLen, pc.binCount, pc.patchLen, i);
      more := more + [item];
    }
    assert items[..|patches|] == items;
    r := Ok(());
  }

  lemma StoredAt(patches: seq<seq<Bin>>, n: nat, binLen: nat, binCount: nat, patchLen: nat, i: nat)
    requires i < n <= |patches| && patchLen > 0
    requires forall j :: 0 <= j < n ==> patches[j] != []
    ensures var off := patches[i][0].ts1 / patchLen;
      StoredPatches(patches, n, binLen, binCount, patchLen)[i]
      == PatchItem(Cast32(binLen / SEC), Cast32(binCount), Cast32(off / 1000), Cast32(off % 1000), patches[i])
  {
  }

  /** How many more rounds the loop of `Ingest` makes before it finds the item empty. */
  ghost function Rounds(s: State, item: seq<Bin>, patchLen: nat): nat
    requires patchLen > 0
  {
    if item == [] then 0
    else if !s.locked then if FirstStart(item, patchLen) == |item| then 1 else 3
    else if LastEnd(item, patchLen) == 0 || LastEnd(item, patchLen) == |item| then 1 else 2
  }

  /** Nothing ends a patch after the last end. */
  lemma {:induction false} NothingAfterTheLastEnd(item: seq<Bin>, patchLen: nat)
    requires patchLen > 0
    ensures LastEnd(item[LastEnd(item, patchLen)..], patchLen) == 0
  {
    var j := LastEnd(item, patchLen);
    if item != [] && j < |item| {
      var front := item[..|item| - 1];
      NothingAfterTheLastEnd(front, patchLen);
      assert item[j..][..|item| - j - 1] == front[j..];
    }
  }

  /** What the next round must bring about. */
  lemma RoundDone(s: State, item: seq<Bin>, patchLen: nat)
    requires patchLen > 0 && item != []
    ensures var j := LastEnd(item, patchLen);
            var rest := item[j..];
            s.locked ==>
              && LastEnd(rest, patchLen) == 0
              && (j == 0 ==> Ingested(s, item, patchLen) == s.(coll := Some(Pending(s) + item)))
              && (j > 0 ==> Ingested(s, item, patchLen)
                            == Ingested(State(None, true, s.outq + [Pending(s) + item[..j]]), rest, patchLen))
    ensures var i := FirstStart(item, patchLen);
            !s.locked ==>
              && (i == |item| ==> Ingested(s, item, patchLen) == s.(coll := Some(Pending(s))))
              && (i < |item| ==> Ingested(s, item, patchLen)
                                 == Ingested(State(Some([]), true, s.outq), item[i..], patchLen))
  {
    hide LastEnd;
    hide FirstStart;
    NothingAfterTheLastEnd(item, patchLen);
    var rest := item[LastEnd(item, patchLen)..];
    assert [] + rest == rest;
  }
}
