/**
 The collection of bins into patches (netfetch/src/patchcollect.rs, netfetch/src/timebin.rs) on
 values: a patch is a run of bins between two multiples of the patch length.
 */
module PatchState {
  import opened Arithmetic
  import opened Wrappers

  datatype Bin = Bin(ts1: nat, ts2: nat, payload: nat)

  /** `coll` is the patch under collection, `outq` the patches that are complete. Before the first
      edge of a patch was seen the collector is not locked. */
  datatype State = State(coll: Option<seq<Bin>>, locked: bool, outq: seq<seq<Bin>>)

  function New(): State {
    State(None, false, [])
  }

  function Pending(s: State): seq<Bin> {
    if s.coll.Some? then s.coll.value else []
  }

  /** The number of bins before the first one that starts a patch. */
  function FirstStart(item: seq<Bin>, patchLen: nat): (i: nat)
    requires patchLen > 0
    ensures i <= |item|
  {
    if item == [] || item[0].ts1 % patchLen == 0 then 0 else 1 + FirstStart(item[1..], patchLen)
  }

  /** The number of bins up to the last one that ends a patch. */
  function LastEnd(item: seq<Bin>, patchLen: nat): (i: nat)
    requires patchLen > 0
    ensures i <= |item|
  {
    if item == [] then 0
    else if item[|item| - 1].ts2 % patchLen == 0 then |item|
    else LastEnd(item[..|item| - 1], patchLen)
  }

  /** A locked collector takes bins up: everything up to the last end of a patch is emitted. */
  function Taken(s: State, item: seq<Bin>, patchLen: nat): State
    requires patchLen > 0
  {
    var j := LastEnd(item, patchLen);
    if item == [] then s
    else if j == 0 then s.(coll := Some(Pending(s) + item))
    else s.(outq := s.outq + [Pending(s) + item[..j]], coll := if j == |item| then None else Some(item[j..]))
  }

  /** The bins of an item that count: all, or those from the first start of a patch on. */
  function Counting(s: State, item: seq<Bin>, patchLen: nat): seq<Bin>
    requires patchLen > 0
  {
    if s.locked then item else item[FirstStart(item, patchLen)..]
  }

  function Ingested(s: State, item: seq<Bin>, patchLen: nat): State
    requires patchLen > 0
  {
    var part := Counting(s, item, patchLen);
    if item == [] then s
    else if s.locked then Taken(s, part, patchLen)
    else if part == [] then s.(coll := Some(Pending(s)))
    else Taken(State(Some([]), true, s.outq), part, patchLen)
  }

  /** After all items. */
  function After(items: seq<seq<Bin>>, patchLen: nat): State
    requires patchLen > 0
  {
    if items == [] then New()
    else Ingested(After(items[..|items| - 1], patchLen), items[|items| - 1], patchLen)
  }

  function Flat<T>(ss: seq<seq<T>>): seq<T> {
    if ss == [] then [] else Flat(ss[..|ss| - 1]) + ss[|ss| - 1]
  }

  // ---- storing ----

  datatype PatchItem = PatchItem(binLenSec: nat, binCount: nat, offMsp: nat, offLsp: nat, bins: seq<Bin>)

  function Cast32(x: nat): nat {
    x % 0x1_0000_0000
  }

  const SEC: nat := 1_000_000_000

  function StoredPatch(patch: seq<Bin>, binLen: nat, binCount: nat, patchLen: nat): PatchItem
    requires patch != [] && patchLen > 0
  {
    var off := patch[0].ts1 / patchLen;
    PatchItem(Cast32(binLen / SEC), Cast32(binCount), Cast32(off / 1000), Cast32(off % 1000), patch)
  }

  /** The number of patches before the first one without bins. */
  function Storable(patches: seq<seq<Bin>>): (n: nat)
    ensures n <= |patches|
    ensures forall i :: 0 <= i < n ==> patches[i] != []
    ensures n < |patches| ==> patches[n] == []
  {
    if patches == [] || patches[0] == [] then 0 else 1 + Storable(patches[1..])
  }

  function StoredPatches(patches: seq<seq<Bin>>, n: nat, binLen: nat, binCount: nat,
                         patchLen: nat): (items: seq<PatchItem>)
    requires n <= |patches| && patchLen > 0
    requires forall i :: 0 <= i < n ==> patches[i] != []
    ensures |items| == n
  {
    seq(n, i requires 0 <= i < n => StoredPatch(patches[i], binLen, binCount, patchLen))
  }

  // ---- conservation ----

  lemma {:induction false} FirstStartConcat(a: seq<Bin>, b: seq<Bin>, patchLen: nat)
    requires patchLen > 0
    ensures FirstStart(a + b, patchLen)
         == if FirstStart(a, patchLen) < |a| then FirstStart(a, patchLen) else |a| + FirstStart(b, patchLen)
  {
    if a == [] {
      assert a + b == b;
    } else {
      assert (a + b)[1..] == a[1..] + b;
      FirstStartConcat(a[1..], b, patchLen);
    }
  }

  lemma FlatSnoc<T>(ss: seq<seq<T>>, s: seq<T>)
    ensures Flat(ss + [s]) == Flat(ss) + s
  {
    assert (ss + [s])[..|ss|] == ss;
  }

  lemma TakenConserves(s: State, item: seq<Bin>, patchLen: nat)
    requires patchLen > 0
    ensures var t := Taken(s, item, patchLen);
              Flat(t.outq) + Pending(t) == (Flat(s.outq) + Pending(s)) + item && t.locked == s.locked
  {
    hide LastEnd;
    hide Flat;
    var j, t := LastEnd(item, patchLen), Taken(s, item, patchLen);
    if item == [] {
      assert (Flat(s.outq) + Pending(s)) + [] == Flat(s.outq) + Pending(s);
    } else if j == 0 {
      assert Flat(s.outq) + (Pending(s) + item) == (Flat(s.outq) + Pending(s)) + item;
    } else {
      FlatSnoc(s.outq, Pending(s) + item[..j]);
      assert Pending(t) == item[j..];
      assert item[..j] + item[j..] == item;
      assert (Flat(s.outq) + (Pending(s) + item[..j])) + item[j..]
          == (Flat(s.outq) + Pending(s)) + (item[..j] + item[j..]);
    }
  }

  /** What was emitted, followed by what is pending, is everything from the first start of a patch
      on, in order; the collector is locked exactly if there was one. */
  ghost predicate Holds(s: State, all: seq<Bin>, patchLen: nat)
    requires patchLen > 0
  {
    && Flat(s.outq) + Pending(s) == all[FirstStart(all, patchLen)..]
    && (s.locked <==> FirstStart(all, patchLen) < |all|)
    && (!s.locked ==> s.outq == [] && Pending(s) == [])
  }

  lemma {:induction false} Conserves(items: seq<seq<Bin>>, patchLen: nat)
    requires patchLen > 0
    ensures Holds(After(items, patchLen), Flat(items), patchLen)
  {
    hide FirstStart;
    hide Taken;
    if items == [] {
      assert Flat(New().outq) + Pending(New()) == [];
    } else {
      var front, item := items[..|items| - 1], items[|items| - 1];
      Conserves(front, patchLen);
      IngestConserves(After(front, patchLen), Flat(front), item, patchLen);
    }
  }

  lemma IngestConserves(s: State, all: seq<Bin>, item: seq<Bin>, patchLen: nat)
    requires patchLen > 0
    requires Holds(s, all, patchLen)
    ensures Holds(Ingested(s, item, patchLen), all + item, patchLen)
  {
    hide FirstStart;
    hide Taken;
    hide Flat;
    FirstStartConcat(all, item, patchLen);
    if item == [] {
      assert all + item == all;
    } else if s.locked {
      LockedConserves(s, all, item, patchLen);
    } else {
      var i := FirstStart(item, patchLen);
      assert (all + item)[|all| + i..] == item[i..];
      if i < |item| {
        FirstConserves(item[i..], patchLen);
      }
    }
  }

  lemma LockedConserves(s: State, all: seq<Bin>, item: seq<Bin>, patchLen: nat)
    requires patchLen > 0 && Holds(s, all, patchLen) && s.locked
    ensures var t, f := Taken(s, item, patchLen), FirstStart(all, patchLen);
            Flat(t.outq) + Pending(t) == (all + item)[f..] && t.locked
  {
    hide FirstStart;
    hide Taken;
    hide Flat;
    TakenConserves(s, item, patchLen);
    var f := FirstStart(all, patchLen);
    assert (all + item)[f..] == all[f..] + item;
  }

  lemma FirstConserves(part: seq<Bin>, patchLen: nat)
    requires patchLen > 0
    ensures var t := Taken(State(Some([]), true, []), part, patchLen); Flat(t.outq) + Pending(t) == part && t.locked
  {
    hide Taken;
    var locked := State(Some([]), true, []);
    TakenConserves(locked, part, patchLen);
    assert (Flat(locked.outq) + Pending(locked)) + part == part;
  }

  // ---- no patch is empty ----

  lemma IngestedHaveBins(s: State, item: seq<Bin>, patchLen: nat)
    requires patchLen > 0 && forall k :: 0 <= k < |s.outq| ==> s.outq[k] != []
    ensures forall k :: 0 <= k < |Ingested(s, item, patchLen).outq| ==> Ingested(s, item, patchLen).outq[k] != []
  {
    hide FirstStart;
    hide LastEnd;
  }

  /** Every patch that is emitted has bins, whatever the items: storing the patches never fails. */
  lemma {:induction false} PatchesHaveBins(items: seq<seq<Bin>>, patchLen: nat)
    requires patchLen > 0
    ensures var patches := After(items, patchLen).outq;
            (forall k :: 0 <= k < |patches| ==> patches[k] != []) && Storable(patches) == |patches|
  {
    hide Ingested;
    hide Storable;
    if items != [] {
      PatchesHaveBins(items[..|items| - 1], patchLen);
      IngestedHaveBins(After(items[..|items| - 1], patchLen), items[|items| - 1], patchLen);
    }
  }

  // ---- alignment ----

  /** Consecutive bins of one length on the grid of that length, from the x-th on. */
  ghost predicate OnGrid(bins: seq<Bin>, binLen: nat, x: nat) {
    forall i :: 0 <= i < |bins| ==> bins[i].ts1 == (x + i) * binLen && bins[i].ts2 == (x + i + 1) * binLen
  }

  /** A bin edge is a patch edge exactly at the multiples of the bin count. */
  lemma EdgeIff(y: nat, binLen: nat, binCount: nat)
    requires binLen > 0 && binCount > 0
    ensures binLen * binCount > 0
    ensures (y * binLen) % (binLen * binCount) == 0 <==> y % binCount == 0
    ensures (y * binLen) / (binLen * binCount) == y / binCount
  {
    var q, r := y / binCount, y % binCount;
    Positive(binLen, binCount);
    Distributes(q, binCount, r, binLen);
    LessTimes(r, binCount, binLen);
    ModUnique(y * binLen, binLen * binCount, q, r * binLen);
  }

  lemma Positive(a: nat, b: nat)
    requires a > 0 && b > 0
    ensures a * b > 0
  {
    MulFacts(a, b);
  }

  lemma Distributes(q: nat, c: nat, r: nat, l: nat)
    ensures (q * c + r) * l == q * (l * c) + r * l
  {
    assert (q * c + r) * l == (q * c) * l + r * l;
    assert (q * c) * l == q * (c * l);
  }

  lemma LessTimes(r: nat, c: nat, l: nat)
    requires r < c && l > 0
    ensures r * l < l * c && (r * l == 0 <==> r == 0)
  {
    MulFacts(c - r, l);
    assert (c - r) * l == l * c - r * l;
    MulFacts(r, l);
  }

  /** The greatest multiple of c that is at most n. */
  function Multiple(n: nat, c: nat): nat
    requires c > 0
  {
    n / c * c
  }

  lemma MultipleFacts(n: nat, c: nat)
    requires c > 0
    ensures Multiple(n, c) <= n < Multiple(n, c) + c && Multiple(n, c) % c == 0
    ensures n % c == 0 ==> Multiple(n, c) == n
    ensures n % c != 0 && n > 0 ==> Multiple(n, c) == Multiple(n - 1, c)
  {
    assert n == n / c * c + n % c;
    ModUnique(Multiple(n, c), c, n / c, 0);
    if n % c != 0 && n > 0 {
      ModUnique(n - 1, c, n / c, n % c - 1);
    }
  }

  lemma MultipleUnique(n: nat, c: nat, m: nat)
    requires c > 0 && m % c == 0 && m <= n < m + c
    ensures Multiple(n, c) == m
  {
    assert m == m / c * c;
    ModUnique(n, c, m / c, n - m);
  }

  /** Where the last of some bins on the grid ends. */
  lemma LastEdge(item: seq<Bin>, binLen: nat, binCount: nat, x: nat)
    requires binLen > 0 && binCount > 0 && binLen * binCount > 0 && item != [] && OnGrid(item, binLen, x)
    ensures item[|item| - 1].ts2 % (binLen * binCount) == 0 <==> (x + |item|) % binCount == 0
    ensures OnGrid(item[..|item| - 1], binLen, x)
  {
    EdgeIff(x + |item|, binLen, binCount);
    assert item[|item| - 1].ts2 == (x + (|item| - 1) + 1) * binLen;
    assert x + (|item| - 1) + 1 == x + |item|;
  }

  lemma {:induction false} LastEndAt(item: seq<Bin>, binLen: nat, binCount: nat, x: nat)
    requires binLen > 0 && binCount > 0 && binLen * binCount > 0 && OnGrid(item, binLen, x)
    ensures var e := Multiple(x + |item|, binCount);
            LastEnd(item, binLen * binCount) == if e > x then e - x else 0
  {
    hide Multiple;
    hide OnGrid;
    MultipleFacts(x + |item|, binCount);
    if item != [] {
      LastEdge(item, binLen, binCount, x);
      if (x + |item|) % binCount != 0 {
        LastEndAt(item[..|item| - 1], binLen, binCount, x);
      }
    }
  }

  lemma {:induction false} FirstStartAligned(item: seq<Bin>, binLen: nat, binCount: nat, x: nat)
    requires binLen > 0 && binCount > 0 && binLen * binCount > 0 && OnGrid(item, binLen, x)
    requires FirstStart(item, binLen * binCount) < |item|
    ensures (x + FirstStart(item, binLen * binCount)) % binCount == 0
  {
    EdgeIff(x, binLen, binCount);
    assert item[0].ts1 == (x + 0) * binLen;
    if item[0].ts1 % (binLen * binCount) != 0 {
      assert OnGrid(item[1..], binLen, x + 1) by { GridTail(item, binLen, x); }
      FirstStartAligned(item[1..], binLen, binCount, x + 1);
    }
  }

  lemma GridTail(item: seq<Bin>, binLen: nat, x: nat)
    requires item != [] && OnGrid(item, binLen, x)
    ensures OnGrid(item[1..], binLen, x + 1)
  {
    forall i | 0 <= i < |item| - 1
      ensures item[1..][i].ts1 == (x + 1 + i) * binLen && item[1..][i].ts2 == (x + 1 + i + 1) * binLen
    {
      assert item[1..][i] == item[i + 1];
      assert x + (i + 1) == x + 1 + i;
    }
  }

  /** How many bins end a patch. */
  function Ends(item: seq<Bin>, patchLen: nat): nat
    requires patchLen > 0
  {
    if item == [] then 0
    else Ends(item[..|item| - 1], patchLen) + if item[|item| - 1].ts2 % patchLen == 0 then 1 else 0
  }

  lemma {:induction false} EndsAt(item: seq<Bin>, binLen: nat, binCount: nat, x: nat)
    requires binLen > 0 && binCount > 0 && binLen * binCount > 0 && OnGrid(item, binLen, x)
    ensures Ends(item, binLen * binCount) * binCount == Multiple(x + |item|, binCount) - Multiple(x, binCount)
  {
    hide Multiple;
    hide OnGrid;
    if item != [] {
      var n, e := x + |item|, Ends(item[..|item| - 1], binLen * binCount);
      LastEdge(item, binLen, binCount, x);
      EndsAt(item[..|item| - 1], binLen, binCount, x);
      MultipleFacts(n, binCount);
      if n % binCount == 0 {
        OneMore(e, binCount);
        MultipleBefore(n, binCount);
      }
    }
  }

  lemma OneMore(e: nat, c: nat)
    ensures (e + 1) * c == e * c + c
  {
  }

  lemma MultipleBefore(n: nat, c: nat)
    requires c > 0 && n > 0 && n % c == 0
    ensures n >= c && Multiple(n - 1, c) == n - c && (n - c) % c == 0
  {
    assert n == n / c * c;
    MulFacts(n / c, c);
    assert n >= c;
    assert n - 1 == (n / c - 1) * c + (c - 1);
    ModUnique(n - 1, c, n / c - 1, c - 1);
    ModUnique(n - c, c, n / c - 1, 0);
  }

  /** A patch under collection starts at a patch edge and is shorter than a patch. What is taken up
      then ends as many patches as it has patch ends, and they are emitted as one. */
  lemma TakenIsWhole(s: State, item: seq<Bin>, binLen: nat, binCount: nat, x: nat)
    requires binLen > 0 && binCount > 0 && binLen * binCount > 0
    requires x % binCount == 0 && |Pending(s)| < binCount && OnGrid(item, binLen, x + |Pending(s)|)
    ensures var t, n := Taken(s, item, binLen * binCount), Ends(item, binLen * binCount);
            && |Pending(t)| < binCount
            && (n == 0 ==> t.outq == s.outq)
            && (n > 0 ==>
                  && |t.outq| == |s.outq| + 1 && t.outq[..|s.outq|] == s.outq
                  && |t.outq[|s.outq|]| == n * binCount)
  {
    hide Multiple;
    hide LastEnd;
    hide Ends;
    hide OnGrid;
    var y := x + |Pending(s)|;
    var e, n := Multiple(y + |item|, binCount), Ends(item, binLen * binCount);
    LastEndAt(item, binLen, binCount, y);
    EndsAt(item, binLen, binCount, y);
    MultipleUnique(y, binCount, x);
    MultipleFacts(y + |item|, binCount);
    assert n * binCount == e - x;
    WholeOrNone(n, binCount, e, x);
  }

  lemma WholeOrNone(n: nat, c: nat, e: int, x: int)
    requires c > 0 && n * c == e - x
    ensures n == 0 <==> e == x
    ensures n > 0 ==> e >= x + c
  {
    if n > 0 {
      assert n * c >= 1 * c;
    }
  }

  predicate IsMultiple(n: nat, c: nat)
    requires c > 0
  {
    n % c == 0
  }

  /** After any items: the patches are whole multiples of a patch, and the rest is less than one. */
  ghost predicate Whole(s: State, binCount: nat)
    requires binCount > 0
  {
    && |Pending(s)| < binCount
    && forall k :: 0 <= k < |s.outq| ==> |s.outq[k]| > 0 && IsMultiple(|s.outq[k]|, binCount)
  }

  lemma MultipleOfPositive(n: nat, c: nat)
    requires c > 0 && n > 0
    ensures n * c > 0 && (n * c) % c == 0
  {
    ModUnique(n * c, c, n, 0);
    assert n * c >= 1 * c;
  }

  lemma {:induction false} FlatIsWhole(patches: seq<seq<Bin>>, c: nat)
    requires c > 0 && forall k :: 0 <= k < |patches| ==> IsMultiple(|patches[k]|, c)
    ensures IsMultiple(|Flat(patches)|, c)
  {
    hide IsMultiple;
    if patches != [] {
      var front, last := patches[..|patches| - 1], patches[|patches| - 1];
      FlatIsWhole(front, c);
      SumIsWhole(|Flat(front)|, |last|, c);
    } else {
      ZeroIsWhole(c);
    }
  }

  lemma ZeroIsWhole(c: nat)
    requires c > 0
    ensures IsMultiple(0, c)
  {
  }

  lemma SumIsWhole(a: nat, b: nat, c: nat)
    requires c > 0 && IsMultiple(a, c) && IsMultiple(b, c)
    ensures IsMultiple(a + b, c) && (a + b) / c == a / c + b / c
  {
    assert a == a / c * c && b == b / c * c;
    assert a + b == (a / c + b / c) * c;
    ModUnique(a + b, c, a / c + b / c, 0);
  }

  lemma OnGridSlice(bins: seq<Bin>, binLen: nat, x: nat, i: nat, j: nat)
    requires i <= j <= |bins| && OnGrid(bins, binLen, x)
    ensures OnGrid(bins[i..j], binLen, x + i)
  {
    forall n | 0 <= n < j - i
      ensures bins[i..j][n].ts1 == (x + i + n) * binLen && bins[i..j][n].ts2 == (x + i + n + 1) * binLen
    {
      assert bins[i..j][n] == bins[i + n];
      assert x + (i + n) == x + i + n;
    }
  }

  /** Where the counting part of the next item is on the grid of the collector. */
  lemma CountingPart(s: State, all: seq<Bin>, item: seq<Bin>, binLen: nat, binCount: nat, x: nat) returns (y: nat)
    requires binLen > 0 && binCount > 0 && binLen * binCount > 0 && OnGrid(all + item, binLen, x)
    requires Holds(s, all, binLen * binCount) && Whole(s, binCount)
    ensures var part := Counting(s, item, binLen * binCount);
            part != [] ==> y % binCount == 0 && OnGrid(part, binLen, y + |Pending(s)|)
  {
    hide OnGrid;
    hide FirstStart;
    assert (all + item)[0..|all|] == all && (all + item)[|all|..|all + item|] == item;
    OnGridSlice(all + item, binLen, x, 0, |all|);
    OnGridSlice(all + item, binLen, x, |all|, |all + item|);
    if s.locked {
      y := LockedPart(s, all, binLen, binCount, x);
    } else {
      y := x + |all| + FirstStart(item, binLen * binCount);
      FirstPart(item, binLen, binCount, x + |all|);
    }
  }

  lemma LockedPart(s: State, all: seq<Bin>, binLen: nat, binCount: nat, x: nat) returns (y: nat)
    requires binLen > 0 && binCount > 0 && binLen * binCount > 0 && OnGrid(all, binLen, x)
    requires Holds(s, all, binLen * binCount) && Whole(s, binCount) && s.locked
    ensures y % binCount == 0 && y + |Pending(s)| == x + |all|
  {
    hide OnGrid;
    hide FirstStart;
    var f := FirstStart(all, binLen * binCount);
    FirstStartAligned(all, binLen, binCount, x);
    FlatIsWhole(s.outq, binCount);
    SumIsWhole(x + f, |Flat(s.outq)|, binCount);
    assert |Flat(s.outq) + Pending(s)| == |all[f..]|;
    y := x + f + |Flat(s.outq)|;
  }

  lemma FirstPart(item: seq<Bin>, binLen: nat, binCount: nat, x: nat)
    requires binLen > 0 && binCount > 0 && binLen * binCount > 0 && OnGrid(item, binLen, x)
    ensures var i := FirstStart(item, binLen * binCount);
            i < |item| ==> (x + i) % binCount == 0 && OnGrid(item[i..], binLen, x + i)
  {
    hide OnGrid;
    hide FirstStart;
    var i := FirstStart(item, binLen * binCount);
    if i < |item| {
      FirstStartAligned(item, binLen, binCount, x);
      OnGridSlice(item, binLen, x, i, |item|);
      assert item[i..|item|] == item[i..];
    }
  }

  lemma IngestedIs(s: State, item: seq<Bin>, patchLen: nat)
    requires patchLen > 0
    ensures var t, part := Ingested(s, item, patchLen), Counting(s, item, patchLen);
            && (part == [] ==> t.outq == s.outq && Pending(t) == Pending(s))
            && (part != [] ==> t == Taken(if s.locked then s else State(Some([]), true, s.outq), part, patchLen))
  {
    hide FirstStart;
    hide Taken;
  }

  lemma NoEnds(patchLen: nat)
    requires patchLen > 0
    ensures Ends([], patchLen) == 0
  {
  }

  /** What one more item emits: one patch of as many patch lengths as its counting part has patch
      ends, or nothing. */
  lemma IngestEmits(items: seq<seq<Bin>>, item: seq<Bin>, binLen: nat, binCount: nat, x: nat)
    requires binLen > 0 && binCount > 0 && binLen * binCount > 0 && OnGrid(Flat(items) + item, binLen, x)
    requires Whole(After(items, binLen * binCount), binCount)
    ensures var s := After(items, binLen * binCount);
            var t, n := Ingested(s, item, binLen * binCount),
                        Ends(Counting(s, item, binLen * binCount), binLen * binCount);
            && |Pending(t)| < binCount
            && (n == 0 ==> t.outq == s.outq)
            && (n > 0 ==>
                  && |t.outq| == |s.outq| + 1 && t.outq[..|s.outq|] == s.outq
                  && |t.outq[|s.outq|]| == n * binCount)
  {
    hide OnGrid;
    hide FirstStart;
    hide After;
    hide Taken;
    hide Ingested;
    hide Counting;
    hide Ends;
    hide Flat;
    var p := binLen * binCount;
    var s := After(items, p);
    var part := Counting(s, item, p);
    Conserves(items, p);
    IngestedIs(s, item, p);
    if part == [] {
      NoEnds(p);
    } else {
      var y := CountingPart(s, Flat(items), item, binLen, binCount, x);
      TakenIsWhole(if s.locked then s else State(Some([]), true, s.outq), part, binLen, binCount, y);
    }
  }

  lemma {:induction false} RunIsWhole(items: seq<seq<Bin>>, binLen: nat, binCount: nat, x: nat)
    requires binLen > 0 && binCount > 0 && binLen * binCount > 0 && OnGrid(Flat(items), binLen, x)
    ensures Whole(After(items, binLen * binCount), binCount)
  {
    hide OnGrid;
    hide Ingested;
    hide Counting;
    hide Ends;
    if items != [] {
      var front, item := items[..|items| - 1], items[|items| - 1];
      FrontOnGrid(items, binLen, x);
      RunIsWhole(front, binLen, binCount, x);
      IngestEmits(front, item, binLen, binCount, x);
      var p := binLen * binCount;
      var s, t := After(front, p), After(items, p);
      var n := Ends(Counting(s, item, p), p);
      if n > 0 {
        MultipleOfPositive(n, binCount);
        assert forall k :: 0 <= k < |s.outq| ==> t.outq[k] == t.outq[..|s.outq|][k];
      }
    }
  }

  lemma FrontOnGrid(items: seq<seq<Bin>>, binLen: nat, x: nat)
    requires items != [] && OnGrid(Flat(items), binLen, x)
    ensures OnGrid(Flat(items[..|items| - 1]), binLen, x)
    ensures Flat(items) == Flat(items[..|items| - 1]) + items[|items| - 1]
  {
    var all := Flat(items[..|items| - 1]);
    assert (all + items[|items| - 1])[0..|all|] == all;
    OnGridSlice(Flat(items), binLen, x, 0, |all|);
  }

  lemma {:induction false} PatchIsSlice(patches: seq<seq<Bin>>, k: nat)
    requires k < |patches|
    ensures |Flat(patches[..k])| + |patches[k]| <= |Flat(patches)|
    ensures Flat(patches)[|Flat(patches[..k])|..|Flat(patches[..k])| + |patches[k]|] == patches[k]
    ensures |Flat(patches[..k + 1])| == |Flat(patches[..k])| + |patches[k]|
  {
    var front, last := patches[..|patches| - 1], patches[|patches| - 1];
    if k == |patches| - 1 {
      assert patches[..k] == front && patches[..k + 1] == patches;
    } else {
      PatchIsSlice(front, k);
      assert front[..k] == patches[..k] && front[..k + 1] == patches[..k + 1];
    }
  }

  /** Every patch starts and ends at patch edges, holds whole patch lengths, and begins where the
      one before ends. */
  lemma PatchesAligned(items: seq<seq<Bin>>, binLen: nat, binCount: nat, x: nat, k: nat)
    requires binLen > 0 && binCount > 0 && binLen * binCount > 0 && OnGrid(Flat(items), binLen, x)
    requires k < |After(items, binLen * binCount).outq|
    ensures var patches, p := After(items, binLen * binCount).outq, binLen * binCount;
            && |patches[k]| > 0 && |patches[k]| % binCount == 0
            && patches[k][0].ts1 % p == 0 && patches[k][|patches[k]| - 1].ts2 % p == 0
            && patches[k][0].ts1 / p + |patches[k]| / binCount == patches[k][|patches[k]| - 1].ts2 / p
            && (k > 0 ==> |patches[k - 1]| > 0 && patches[k][0].ts1 == patches[k - 1][|patches[k - 1]| - 1].ts2)
  {
    hide OnGrid;
    hide After;
    hide FirstStart;
    var p := binLen * binCount;
    var s, all := After(items, p), Flat(items);
    var f := FirstStart(all, p);
    RunIsWhole(items, binLen, binCount, x);
    Conserves(items, p);
    var patches := s.outq;
    var n := |Flat(patches[..k])|;
    PatchIsSlice(patches, k);
    PlacedOnGrid(all, patches, Pending(s), f, binLen, x, k);
    FirstStartAligned(all, binLen, binCount, x);
    FlatIsWhole(patches[..k], binCount);
    SumIsWhole(x + f, n, binCount);
    EdgesOnGrid(patches[k], binLen, binCount, x + f + n);
    if k > 0 {
      PatchIsSlice(patches, k - 1);
      PlacedOnGrid(all, patches, Pending(s), f, binLen, x, k - 1);
      FlatIsWhole(patches[..k - 1], binCount);
      SumIsWhole(x + f, |Flat(patches[..k - 1])|, binCount);
      EdgesOnGrid(patches[k - 1], binLen, binCount, x + f + |Flat(patches[..k - 1])|);
    }
  }

  lemma PlacedOnGrid(all: seq<Bin>, patches: seq<seq<Bin>>, pending: seq<Bin>, f: nat, binLen: nat, x: nat, k: nat)
    requires OnGrid(all, binLen, x) && f <= |all| && k < |patches| && Flat(patches) + pending == all[f..]
    ensures OnGrid(patches[k], binLen, x + f + |Flat(patches[..k])|)
  {
    hide OnGrid;
    hide Flat;
    var n := |Flat(patches[..k])|;
    PatchIsSlice(patches, k);
    SliceOfSlice(all, Flat(patches), pending, f, n, n + |patches[k]|);
    OnGridSlice(all, binLen, x, f + n, f + n + |patches[k]|);
  }

  lemma SliceOfSlice(all: seq<Bin>, flat: seq<Bin>, pending: seq<Bin>, f: nat, from: nat, to: nat)
    requires f <= |all| && flat + pending == all[f..] && from <= to <= |flat|
    ensures f + to <= |all| && flat[from..to] == all[f + from..f + to]
  {
    assert (flat + pending)[from..to] == flat[from..to];
    assert all[f..][from..to] == all[f + from..f + to];
  }

  lemma EdgesOnGrid(patch: seq<Bin>, binLen: nat, binCount: nat, y: nat)
    requires binLen > 0 && binCount > 0 && binLen * binCount > 0 && OnGrid(patch, binLen, y)
    requires y % binCount == 0 && |patch| > 0 && |patch| % binCount == 0
    ensures patch[0].ts1 == y * binLen && patch[|patch| - 1].ts2 == (y + |patch|) * binLen
    ensures patch[0].ts1 % (binLen * binCount) == 0 && patch[|patch| - 1].ts2 % (binLen * binCount) == 0
    ensures patch[0].ts1 / (binLen * binCount) + |patch| / binCount == patch[|patch| - 1].ts2 / (binLen * binCount)
  {
    EdgeIff(y, binLen, binCount);
    EdgeIff(y + |patch|, binLen, binCount);
    SumIsWhole(y, |patch|, binCount);
    assert y + 0 == y && y + (|patch| - 1) + 1 == y + |patch|;
  }

  // ---- patches of exactly one patch length ----

  /** No item holds more than one patch end in its counting part. */
  ghost predicate OneEndEach(items: seq<seq<Bin>>, patchLen: nat)
    requires patchLen > 0
  {
    forall k :: 0 <= k < |items| ==> EndsIn(items, k, patchLen) <= 1
  }

  ghost function EndsIn(items: seq<seq<Bin>>, k: nat, patchLen: nat): nat
    requires patchLen > 0 && k < |items|
  {
    Ends(Counting(After(items[..k], patchLen), items[k], patchLen), patchLen)
  }

  ghost predicate AllExact(patches: seq<seq<Bin>>, binCount: nat) {
    forall k :: 0 <= k < |patches| ==> |patches[k]| == binCount
  }

  /** All patches have the exact number of bins if and only if no item completes two patches. */
  lemma {:induction false} ExactIff(items: seq<seq<Bin>>, binLen: nat, binCount: nat, x: nat)
    requires binLen > 0 && binCount > 0 && binLen * binCount > 0 && OnGrid(Flat(items), binLen, x)
    ensures AllExact(After(items, binLen * binCount).outq, binCount) <==> OneEndEach(items, binLen * binCount)
  {
    hide OnGrid;
    hide Ingested;
    hide Counting;
    hide Ends;
    hide AllExact;
    hide OneEndEach;
    var p := binLen * binCount;
    if items == [] {
      ExactNothing(p, binCount);
    } else {
      var front, item := items[..|items| - 1], items[|items| - 1];
      FrontOnGrid(items, binLen, x);
      ExactIff(front, binLen, binCount, x);
      RunIsWhole(front, binLen, binCount, x);
      IngestEmits(front, item, binLen, binCount, x);
      var n := EndsIn(items, |front|, p);
      OneEndSnoc(items, p);
      ExactSnoc(After(front, p).outq, After(items, p).outq, binCount, n);
    }
  }

  lemma ExactNothing(patchLen: nat, binCount: nat)
    requires patchLen > 0
    ensures AllExact(After([], patchLen).outq, binCount) && OneEndEach([], patchLen)
  {
  }

  lemma OneEndSnoc(items: seq<seq<Bin>>, patchLen: nat)
    requires patchLen > 0 && items != []
    ensures OneEndEach(items, patchLen)
       <==> OneEndEach(items[..|items| - 1], patchLen) && EndsIn(items, |items| - 1, patchLen) <= 1
  {
    hide EndsIn;
    var front := items[..|items| - 1];
    forall k | 0 <= k < |front|
      ensures EndsIn(front, k, patchLen) == EndsIn(items, k, patchLen)
    {
      EndsInFront(items, k, patchLen);
    }
    if OneEndEach(items, patchLen) {
      assert forall k :: 0 <= k < |front| ==> EndsIn(items, k, patchLen) <= 1;
    }
  }

  lemma EndsInFront(items: seq<seq<Bin>>, k: nat, patchLen: nat)
    requires patchLen > 0 && k < |items| - 1
    ensures EndsIn(items[..|items| - 1], k, patchLen) == EndsIn(items, k, patchLen)
  {
    assert items[..|items| - 1][..k] == items[..k];
  }

  lemma ExactSnoc(patches: seq<seq<Bin>>, more: seq<seq<Bin>>, c: nat, n: nat)
    requires c > 0 && (n == 0 ==> more == patches)
    requires n > 0 ==> |more| == |patches| + 1 && more[..|patches|] == patches && |more[|patches|]| == n * c
    ensures AllExact(more, c) <==> AllExact(patches, c) && n <= 1
  {
    if n > 0 {
      assert forall k :: 0 <= k < |patches| ==> more[k] == more[..|patches|][k];
      if n > 1 {
        assert n * c >= 2 * c;
      } else {
        assert n * c == c;
      }
      if AllExact(more, c) {
        assert forall k :: 0 <= k < |patches| ==> patches[k] == more[k];
      }
    }
  }

  // ---- the stored offsets ----

  /** The start of a patch can be computed from what is stored exactly if it is a patch edge and its
      offset is not too large for the 32 bits it is cut down to. */
  lemma OffsetIff(ts: nat, patchLen: nat)
    requires patchLen > 0
    ensures var off := ts / patchLen;
            (Cast32(off / 1000) * 1000 + Cast32(off % 1000)) * patchLen == ts
            <==> ts % patchLen == 0 && off / 1000 < 0x1_0000_0000
  {
    var off := ts / patchLen;
    var m := Cast32(off / 1000) * 1000 + Cast32(off % 1000);
    assert ts == off * patchLen + ts % patchLen;
    assert m <= off && (m == off <==> off / 1000 < 0x1_0000_0000);
    assert m * patchLen == off * patchLen - (off - m) * patchLen;
    MulFacts(off - m, patchLen);
  }

  /** The offset that is stored in two parts. */
  function Offset(item: PatchItem): nat {
    item.offMsp * 1000 + item.offLsp
  }

  /** The stored offsets lead on from one patch to the next: by one where the patch is exact. */
  lemma OffsetsFollow(items: seq<seq<Bin>>, binLen: nat, binCount: nat, x: nat, k: nat)
    requires binLen > 0 && binCount > 0 && binLen * binCount > 0 && OnGrid(Flat(items), binLen, x)
    requires k + 1 < |After(items, binLen * binCount).outq|
    requires var patches := After(items, binLen * binCount).outq;
             patches[k + 1] != [] && patches[k + 1][0].ts1 / (binLen * binCount) / 1000 < 0x1_0000_0000
    ensures var patches := After(items, binLen * binCount).outq;
            && patches[k] != [] && patches[k + 1] != []
            && Offset(StoredPatch(patches[k + 1], binLen, binCount, binLen * binCount))
               == Offset(StoredPatch(patches[k], binLen, binCount, binLen * binCount)) + |patches[k]| / binCount
            && Offset(StoredPatch(patches[k], binLen, binCount, binLen * binCount)) * (binLen * binCount)
                 == patches[k][0].ts1
  {
    hide OnGrid;
    hide After;
    PatchesAligned(items, binLen, binCount, x, k);
    PatchesAligned(items, binLen, binCount, x, k + 1);
    var p := binLen * binCount;
    var a, b := After(items, p).outq[k][0].ts1, After(items, p).outq[k + 1][0].ts1;
    assert a / p <= b / p;
    assert a / p / 1000 <= b / p / 1000;
    OffsetIff(a, p);
    OffsetParts(a / p);
    OffsetParts(b / p);
  }

  lemma OffsetParts(off: nat)
    requires off / 1000 < 0x1_0000_0000
    ensures Cast32(off / 1000) * 1000 + Cast32(off % 1000) == off
  {
  }

  /** The length of a bin can be read back from the seconds that are stored if and only if it is whole
      seconds, fewer than 2^32 of them, and so can the number of bins if it has 32 bits. */
  lemma SizesIff(patches: seq<seq<Bin>>, n: nat, binLen: nat, binCount: nat, patchLen: nat, k: nat)
    requires patchLen > 0 && k < n <= |patches| && forall i :: 0 <= i < n ==> patches[i] != []
    ensures var item := StoredPatches(patches, n, binLen, binCount, patchLen)[k];
            && (item.binLenSec * 1_000_000_000 == binLen
                <==> binLen % 1_000_000_000 == 0 && binLen < 0x1_0000_0000 * 1_000_000_000)
            && (item.binCount == binCount <==> binCount < 0x1_0000_0000)
            && item.bins == patches[k]
  {
  }
}
