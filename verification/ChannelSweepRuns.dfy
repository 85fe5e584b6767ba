/**
 Whole sweeps over a fixed set of channels, tick by tick, up to where a channel in Init stops them.
 */
module ChannelSweepRuns {
  import opened Wrappers
  import opened OrderedMaps
  import opened ChannelSweep

  /** The sweep after ticks at the given times. A sweep that was stopped stays stopped. */
  function Swept(m: Channels, nows: seq<nat>): Sweep {
    if nows == [] then Sweep(m, None, false)
    else
      var s := Swept(m, nows[..|nows| - 1]);
      if s.stopped then s else Tick(s, nows[|nows| - 1])
  }

  /** The channel has waited too long for its series id: a visit puts it in Init. */
  predicate Overdue(st: ChannelState, now: nat) {
    st.WaitForStatusSeriesId? && now > st.since + 5_000_000_000
  }

  /** None of the first n channels is in Init. */
  ghost predicate NoneInInit(m: Channels, n: nat) {
    forall i :: 0 <= i < |SortedKeys(m.Keys)| && i < n ==> !m[SortedKeys(m.Keys)[i]].Init?
  }

  /** The channel at the seam between tick b and the next one, which both look at it, is not
      overdue at tick b. */
  ghost predicate SeamOk(m: Channels, nows: seq<nat>, b: nat)
    requires b < |nows|
  {
    var keys, p := SortedKeys(m.Keys), (b + 1) * CHECK_CHANS_PER_TICK;
    p < |keys| ==> !Overdue(m[keys[p]], nows[b])
  }

  /** The first t ticks meet no channel in Init. */
  ghost predicate Clear(m: Channels, nows: seq<nat>, t: nat)
    requires t <= |nows|
  {
    && NoneInInit(m, if t == 0 then 0 else t * CHECK_CHANS_PER_TICK + 1)
    && forall b :: 0 <= b < t - 1 ==> SeamOk(m, nows, b)
  }

  /** After t ticks: the channels behind the cursor are as they were, and the one at the cursor is
      in Init if it was overdue. */
  ghost predicate Ahead(m: Channels, nows: seq<nat>, t: nat, n: Channels)
    requires t <= |nows|
  {
    var keys, p := SortedKeys(m.Keys), t * CHECK_CHANS_PER_TICK;
    && n.Keys == m.Keys
    && (forall i :: p <= i < |keys| && (t == 0 || p < i) ==> n[keys[i]] == m[keys[i]])
    && (0 < t && p < |keys| ==> (n[keys[p]].Init? <==> !SeamOk(m, nows, t - 1)))
  }

  lemma BatchClear(n: Channels, keys: seq<nat>, p: nat, e: nat)
    requires p <= e <= |keys| && forall k :: k in keys ==> k in n
    ensures BeforeInit(n, keys[p..e]) == |keys[p..e]| <==> forall i :: p <= i < e ==> !n[keys[i]].Init?
  {
    hide BeforeInit;
    var batch := keys[p..e];
    StopsIff(n, batch);
    if BeforeInit(n, batch) == |batch| {
      forall i | p <= i < e
        ensures !n[keys[i]].Init?
      {
        assert batch[i - p] in batch;
      }
    } else {
      var k :| k in batch && n[k].Init?;
      var i :| 0 <= i < |batch| && batch[i] == k;
      assert keys[p + i] == k;
    }
  }

  /** Whether a tick meets a channel in Init, in terms of the channels at the start. */
  lemma RangeClear(m: Channels, nows: seq<nat>, t: nat, n: Channels, e: nat)
    requires t < |nows| && Ahead(m, nows, t, n) && t * CHECK_CHANS_PER_TICK < e <= |SortedKeys(m.Keys)|
    ensures var keys, p := SortedKeys(m.Keys), t * CHECK_CHANS_PER_TICK;
            (forall i :: p <= i < e ==> !n[keys[i]].Init?)
            <==> (t > 0 ==> SeamOk(m, nows, t - 1)) && forall i :: p <= i < e && (t == 0 || p < i) ==> !m[keys[i]].Init?
  {
    hide SortedKeys;
    hide SeamOk;
  }

  lemma ClearNext(m: Channels, nows: seq<nat>, t: nat)
    requires t < |nows| && t * CHECK_CHANS_PER_TICK < |SortedKeys(m.Keys)| && Clear(m, nows, t)
    ensures var keys, p := SortedKeys(m.Keys), t * CHECK_CHANS_PER_TICK;
            Clear(m, nows, t + 1)
            <==> (t > 0 ==> SeamOk(m, nows, t - 1))
                 && forall i | p <= i < BatchEnd(p, |keys|) && (t == 0 || p < i) :: !m[keys[i]].Init?
  {
    hide SortedKeys;
    hide SeamOk;
  }

  /** A tick that is not stopped extends the part that is clear. */
  lemma TickExtends(m: Channels, nows: seq<nat>, t: nat, n: Channels)
    requires t < |nows| && t * CHECK_CHANS_PER_TICK < |m| && Clear(m, nows, t) && Ahead(m, nows, t, n)
    ensures var batch := Batch(m, CursorAfter(m, t)); BeforeInit(n, batch) == |batch| <==> Clear(m, nows, t + 1)
  {
    hide SortedKeys;
    hide BeforeInit;
    hide Batch;
    hide CursorAfter;
    hide SeamOk;
    hide Clear;
    var keys, p := SortedKeys(m.Keys), t * CHECK_CHANS_PER_TICK;
    var e := BatchEnd(p, |keys|);
    TickPosition(m, t);
    BatchClear(n, keys, p, e);
    RangeClear(m, nows, t, n, e);
    ClearNext(m, nows, t);
  }

  /** A tick leaves the channels behind its batch alone. */
  lemma TickLeaves(m: Channels, nows: seq<nat>, t: nat, n: Channels)
    requires t < |nows| && t * CHECK_CHANS_PER_TICK < |m| && Clear(m, nows, t + 1) && Ahead(m, nows, t, n)
    ensures Ahead(m, nows, t + 1, Visited(n, Batch(m, CursorAfter(m, t)), nows[t]).0)
  {
    hide SortedKeys;
    hide Batch;
    hide CursorAfter;
    hide Visited;
    hide Clear;
    hide SeamOk;
    var keys, p, q := SortedKeys(m.Keys), t * CHECK_CHANS_PER_TICK, (t + 1) * CHECK_CHANS_PER_TICK;
    TickPosition(m, t);
    var e := BatchEnd(p, |keys|);
    var r := Visited(n, keys[p..e], nows[t]).0;
    forall i | q < i < |keys|
      ensures r[keys[i]] == m[keys[i]]
    {
      NotInSlice(keys, p, e, i);
    }
    if q < |keys| {
      SeamVisited(m, nows, t, n);
    }
  }

  lemma SeamVisited(m: Channels, nows: seq<nat>, t: nat, n: Channels)
    requires t < |nows| && Clear(m, nows, t + 1) && Ahead(m, nows, t, n)
    requires (t + 1) * CHECK_CHANS_PER_TICK < |SortedKeys(m.Keys)|
    ensures var keys, p, q := SortedKeys(m.Keys), t * CHECK_CHANS_PER_TICK, (t + 1) * CHECK_CHANS_PER_TICK;
            Visited(n, keys[p..BatchEnd(p, |keys|)], nows[t]).0[keys[q]].Init? <==> !SeamOk(m, nows, t)
  {
    hide SortedKeys;
    hide Visited;
    hide Overdue;
    hide Distinct;
    var keys, p, q := SortedKeys(m.Keys), t * CHECK_CHANS_PER_TICK, (t + 1) * CHECK_CHANS_PER_TICK;
    var batch := keys[p..BatchEnd(p, |keys|)];
    assert batch[q - p] == keys[q];
    BatchIsDistinct(keys, p, BatchEnd(p, |keys|), n);
    VisitMakesInit(n, batch, nows[t], keys[q]);
  }

  lemma NotInSlice(keys: seq<nat>, p: nat, e: nat, i: nat)
    requires p <= e <= i < |keys| && Ascending(keys)
    ensures keys[i] !in keys[p..e]
  {
    forall j | 0 <= j < e - p
      ensures keys[p..e][j] != keys[i]
    {
      assert keys[p..e][j] == keys[p + j];
    }
  }

  lemma BatchIsDistinct(keys: seq<nat>, p: nat, e: nat, n: Channels)
    requires p <= e <= |keys| && Ascending(keys) && forall k :: k in keys ==> k in n
    ensures Distinct(keys[p..e], n)
  {
  }

  /** Of the channels that are not in Init, a visit puts exactly the overdue ones there. */
  lemma VisitMakesInit(n: Channels, batch: seq<nat>, now: nat, k: nat)
    requires Distinct(batch, n) && k in batch && !n[k].Init?
    ensures Visited(n, batch, now).0[k].Init? <==> Overdue(n[k], now)
  {
    hide Visited;
    var i :| 0 <= i < |batch| && batch[i] == k;
    EachMovesOnce(n, batch, now, i);
  }

  /** One tick of a sweep that was not stopped so far. */
  lemma OneTick(m: Channels, nows: seq<nat>, t: nat, n: Channels)
    requires t < |nows| && t * CHECK_CHANS_PER_TICK < |m| && Clear(m, nows, t) && Ahead(m, nows, t, n)
    ensures var r := Tick(Sweep(n, CursorAfter(m, t), false), nows[t]);
            && (!r.stopped <==> Clear(m, nows, t + 1))
            && (!r.stopped ==> r.cursor == NextCursor(m, CursorAfter(m, t)) && Ahead(m, nows, t + 1, r.channels))
  {
    hide *;
    var cursor := CursorAfter(m, t);
    AheadKeys(m, nows, t, n);
    TickIs(n, cursor, nows[t]);
    BatchOfKeys(n, m, cursor);
    TickExtends(m, nows, t, n);
    var batch := Batch(n, cursor);
    assert batch[..|batch|] == batch;
    if Clear(m, nows, t + 1) {
      TickLeaves(m, nows, t, n);
    }
  }

  lemma AheadKeys(m: Channels, nows: seq<nat>, t: nat, n: Channels)
    requires t <= |nows| && Ahead(m, nows, t, n)
    ensures n.Keys == m.Keys
  {
  }

  lemma InTheSweep(m: Channels, nows: seq<nat>, t: nat)
    requires 0 < t <= |nows| && t <= TicksNeeded(|m|)
    ensures (t - 1) * CHECK_CHANS_PER_TICK < |m|
    ensures CursorAfter(m, t) == NextCursor(m, CursorAfter(m, t - 1))
    ensures var s := Swept(m, nows[..t - 1]); Swept(m, nows[..t]) == if s.stopped then s else Tick(s, nows[t - 1])
  {
    hide NextCursor;
    hide Tick;
    assert nows[..t][..t - 1] == nows[..t - 1] && nows[..t][t - 1] == nows[t - 1];
  }

  lemma StartOfSweep(m: Channels, nows: seq<nat>)
    ensures Swept(m, nows[..0]) == Sweep(m, CursorAfter(m, 0), false) && Clear(m, nows, 0) && Ahead(m, nows, 0, m)
  {
    hide SortedKeys;
    assert nows[..0] == [];
  }

  /** The state after t ticks of a sweep from the start. */
  lemma {:induction false} TicksAre(m: Channels, nows: seq<nat>, t: nat)
    requires t <= |nows| && t <= TicksNeeded(|m|)
    ensures var s := Swept(m, nows[..t]);
            && (!s.stopped <==> Clear(m, nows, t))
            && (!s.stopped ==> s == Sweep(s.channels, CursorAfter(m, t), false) && Ahead(m, nows, t, s.channels))
  {
    hide *;
    if t == 0 {
      StartOfSweep(m, nows);
    } else {
      InTheSweep(m, nows, t);
      TicksAre(m, nows, t - 1);
      var s := Swept(m, nows[..t - 1]);
      if !s.stopped {
        OneTick(m, nows, t - 1, s.channels);
      } else if Clear(m, nows, t) {
        ClearShrinks(m, nows, t - 1);
      }
    }
  }

  lemma ClearShrinks(m: Channels, nows: seq<nat>, t: nat)
    requires t < |nows| && Clear(m, nows, t + 1)
    ensures Clear(m, nows, t)
  {
  }

  /** A sweep gets through its ticks if and only if no channel is in Init at the start, and none at
      a seam between two ticks is overdue at the first of them. */
  lemma SweepGoesThrough(m: Channels, nows: seq<nat>)
    requires |nows| == TicksNeeded(|m|)
    ensures !Swept(m, nows).stopped
       <==> (forall k :: k in m ==> !m[k].Init?) && forall b :: 0 <= b < |nows| ==> SeamOk(m, nows, b)
  {
    hide Swept;
    hide SortedKeys;
    hide Overdue;
    var keys, t := SortedKeys(m.Keys), |nows|;
    assert nows[..t] == nows;
    TicksAre(m, nows, t);
    assert |keys| == |m.Keys| == |m| <= t * CHECK_CHANS_PER_TICK;
    assert t > 0 ==> SeamOk(m, nows, t - 1);
    if !Swept(m, nows).stopped {
      forall k | k in m
        ensures !m[k].Init?
      {
        var i :| 0 <= i < |keys| && keys[i] == k;
      }
    }
    if forall k :: k in m ==> !m[k].Init? {
      assert forall i :: 0 <= i < |keys| ==> keys[i] in m;
    }
  }

  // ---- what a whole sweep does ----

  /** The tick that first comes to channel i, unless it is at a seam. */
  function Turn(i: nat): nat {
    i / CHECK_CHANS_PER_TICK
  }

  /** The searches that are pending when channel i has its turn in tick t. */
  ghost function PendingAt(m: Channels, nows: seq<nat>, t: nat, i: nat): nat
    requires t < |nows| && t * CHECK_CHANS_PER_TICK <= i < |SortedKeys(m.Keys)|
  {
    |PendingKeys(Visited(Swept(m, nows[..t]).channels, SortedKeys(m.Keys)[t * CHECK_CHANS_PER_TICK..i], nows[t]).0)|
  }

  /** A sweep that gets through moves every channel exactly once, at its tick; only those at a seam
      are looked at twice. */
  lemma SweepMovesAll(m: Channels, nows: seq<nat>, i: nat)
    requires |nows| == TicksNeeded(|m|) && !Swept(m, nows).stopped
    requires i < |SortedKeys(m.Keys)| && (i == 0 || i % CHECK_CHANS_PER_TICK != 0)
    ensures var t, k := Turn(i), SortedKeys(m.Keys)[i];
            && t < |nows| && k in Swept(m, nows).channels
            && Moves(m[k], Swept(m, nows).channels[k], PendingAt(m, nows, t, i), nows[t])
  {
    hide *;
    var t := Turn(i);
    assert nows[..|nows|] == nows;
    SizeOf(m);
    TurnOf(i, |m|);
    TicksAre(m, nows, |nows|);
    ClearUpTo(m, nows, |nows|, t + 1);
    MovedAtTick(m, nows, t, i);
    StaysBehind(m, nows, t + 1, |nows|, i);
  }

  lemma SizeOf(m: Channels)
    ensures |SortedKeys(m.Keys)| == |m|
  {
  }

  lemma TurnOf(i: nat, n: nat)
    requires i < n && (i == 0 || i % CHECK_CHANS_PER_TICK != 0)
    ensures var t := Turn(i);
            && t < TicksNeeded(n) && t * CHECK_CHANS_PER_TICK <= i < BatchEnd(t * CHECK_CHANS_PER_TICK, n)
            && i < (t + 1) * CHECK_CHANS_PER_TICK && (t == 0 || t * CHECK_CHANS_PER_TICK < i)
  {
  }

  lemma ClearUpTo(m: Channels, nows: seq<nat>, t: nat, u: nat)
    requires u <= t <= |nows| && Clear(m, nows, t)
    ensures Clear(m, nows, u)
  {
    hide SortedKeys;
    hide SeamOk;
  }

  /** The tick that has come to channel i. */
  lemma MovedAtTick(m: Channels, nows: seq<nat>, t: nat, i: nat)
    requires t < |nows| == TicksNeeded(|m|) && Clear(m, nows, t + 1)
    requires t * CHECK_CHANS_PER_TICK <= i < BatchEnd(t * CHECK_CHANS_PER_TICK, |SortedKeys(m.Keys)|)
    requires t == 0 || t * CHECK_CHANS_PER_TICK < i
    ensures var k, s := SortedKeys(m.Keys)[i], Swept(m, nows[..t + 1]);
            k in m && k in s.channels && Moves(m[k], s.channels[k], PendingAt(m, nows, t, i), nows[t])
  {
    hide SortedKeys;
    hide Swept;
    hide Visited;
    hide PendingKeys;
    hide PendingAt;
    hide Clear;
    hide Ahead;
    hide Moves;
    hide Distinct;
    hide BatchEnd;
    hide TicksNeeded;
    var keys, p := SortedKeys(m.Keys), t * CHECK_CHANS_PER_TICK;
    var n := Swept(m, nows[..t]).channels;
    TickVisits(m, nows, t);
    Untouched(m, nows, t, n, i);
    BatchVisited(m, n, p, BatchEnd(p, |keys|), i, nows[t]);
    PendingIs(m, nows, t, i);
  }

  lemma BatchVisited(m: Channels, n: Channels, p: nat, e: nat, i: nat, now: nat)
    requires p <= i < e <= |SortedKeys(m.Keys)| && n.Keys == m.Keys
    ensures var keys, k := SortedKeys(m.Keys), SortedKeys(m.Keys)[i];
            && k in n && k in Visited(n, keys[p..e], now).0
            && Moves(n[k], Visited(n, keys[p..e], now).0[k], |PendingKeys(Visited(n, keys[p..i], now).0)|, now)
  {
    hide *;
    BatchAt(m, n, p, e, i);
    var keys := SortedKeys(m.Keys);
    MovedInBatch(n, keys[p..e], i - p, keys[p..i], keys[i], now);
  }

  lemma BatchAt(m: Channels, n: Channels, p: nat, e: nat, i: nat)
    requires p <= i < e <= |SortedKeys(m.Keys)| && n.Keys == m.Keys
    ensures var keys := SortedKeys(m.Keys);
            && Distinct(keys[p..e], n) && |keys[p..e]| == e - p
            && keys[p..e][i - p] == keys[i] && keys[p..e][..i - p] == keys[p..i]
  {
    hide SortedKeys;
    KeysAscend(m, n);
    BatchIsDistinct(SortedKeys(m.Keys), p, e, n);
  }

  lemma MovedInBatch(n: Channels, batch: seq<nat>, i: nat, front: seq<nat>, k: nat, now: nat)
    requires Distinct(batch, n) && i < |batch| && batch[i] == k && batch[..i] == front
    ensures k in n && k in Visited(n, batch, now).0
    ensures Moves(n[k], Visited(n, batch, now).0[k], |PendingKeys(Visited(n, front, now).0)|, now)
  {
    hide Visited;
    hide PendingKeys;
    hide Moves;
    EachMovesOnce(n, batch, now, i);
  }

  lemma PendingIs(m: Channels, nows: seq<nat>, t: nat, i: nat)
    requires t < |nows| && t * CHECK_CHANS_PER_TICK <= i < |SortedKeys(m.Keys)|
    ensures PendingAt(m, nows, t, i)
         == |PendingKeys(Visited(Swept(m, nows[..t]).channels, SortedKeys(m.Keys)[t * CHECK_CHANS_PER_TICK..i],
                                 nows[t]).0)|
  {
    hide PendingKeys;
    hide Visited;
    hide SortedKeys;
    hide Swept;
  }

  lemma KeysAscend(m: Channels, n: Channels)
    requires n.Keys == m.Keys
    ensures Ascending(SortedKeys(m.Keys)) && forall k :: k in SortedKeys(m.Keys) ==> k in n
  {
  }

  lemma Untouched(m: Channels, nows: seq<nat>, t: nat, n: Channels, i: nat)
    requires t <= |nows| && Ahead(m, nows, t, n) && t * CHECK_CHANS_PER_TICK <= i < |SortedKeys(m.Keys)|
    requires t == 0 || t * CHECK_CHANS_PER_TICK < i
    ensures var k := SortedKeys(m.Keys)[i]; n.Keys == m.Keys && k in n && n[k] == m[k]
  {
    hide SortedKeys;
    assert SortedKeys(m.Keys)[i] in SortedKeys(m.Keys);
  }

  /** A tick that gets through visits its whole batch. */
  lemma TickVisits(m: Channels, nows: seq<nat>, t: nat)
    requires t < |nows| == TicksNeeded(|m|) && Clear(m, nows, t + 1)
    ensures t * CHECK_CHANS_PER_TICK < |SortedKeys(m.Keys)|
    ensures var keys, p := SortedKeys(m.Keys), t * CHECK_CHANS_PER_TICK;
            && Ahead(m, nows, t, Swept(m, nows[..t]).channels)
            && Swept(m, nows[..t + 1]).channels
               == Visited(Swept(m, nows[..t]).channels, keys[p..BatchEnd(p, |keys|)], nows[t]).0
  {
    hide *;
    InTheSweep(m, nows, t + 1);
    ClearShrinks(m, nows, t);
    TicksAre(m, nows, t);
    var s := Swept(m, nows[..t]);
    TickPosition(m, t);
    AheadKeys(m, nows, t, s.channels);
    BatchOfKeys(s.channels, m, s.cursor);
    TickExtends(m, nows, t, s.channels);
    TickIs(s.channels, s.cursor, nows[t]);
    var batch := Batch(s.channels, s.cursor);
    assert batch[..|batch|] == batch;
    SizeOf(m);
  }

  /** Channels that the cursor has passed are left alone by the ticks to come. */
  lemma {:induction false} StaysBehind(m: Channels, nows: seq<nat>, t: nat, u: nat, i: nat)
    requires t <= u <= |nows| == TicksNeeded(|m|) && Clear(m, nows, u)
    requires i < |SortedKeys(m.Keys)| && i < t * CHECK_CHANS_PER_TICK
    ensures var k, a, b := SortedKeys(m.Keys)[i], Swept(m, nows[..t]).channels, Swept(m, nows[..u]).channels;
            k in a && k in b && b[k] == a[k]
  {
    hide *;
    var keys := SortedKeys(m.Keys);
    KeysAscend(m, m);
    if t == u {
      TicksAre(m, nows, t);
      AheadKeys(m, nows, t, Swept(m, nows[..t]).channels);
      assert keys[i] in keys;
    } else {
      ClearShrinks(m, nows, u - 1);
      StaysBehind(m, nows, t, u - 1, i);
      Behind(t, u, i);
      LeftBehind(m, nows, u - 1, i);
    }
  }

  lemma LeftBehind(m: Channels, nows: seq<nat>, t: nat, i: nat)
    requires t < |nows| == TicksNeeded(|m|) && Clear(m, nows, t + 1)
    requires i < |SortedKeys(m.Keys)| && i < t * CHECK_CHANS_PER_TICK
    ensures var k, a, b := SortedKeys(m.Keys)[i], Swept(m, nows[..t]).channels, Swept(m, nows[..t + 1]).channels;
            k in a ==> k in b && b[k] == a[k]
  {
    hide *;
    TickVisits(m, nows, t);
    KeysAscend(m, m);
    var keys, p := SortedKeys(m.Keys), t * CHECK_CHANS_PER_TICK;
    BeforeSlice(keys, p, BatchEnd(p, |keys|), i);
  }

  lemma Behind(t: nat, u: nat, i: nat)
    requires t < u && i < t * CHECK_CHANS_PER_TICK
    ensures i < (u - 1) * CHECK_CHANS_PER_TICK
  {
  }

  lemma BeforeSlice(keys: seq<nat>, p: nat, e: nat, i: nat)
    requires i < p <= e <= |keys| && Ascending(keys)
    ensures keys[i] !in keys[p..e]
  {
    forall j | 0 <= j < e - p
      ensures keys[p..e][j] != keys[i]
    {
      assert keys[p..e][j] == keys[p + j];
    }
  }

  // ---- which channels are visited ----

  /** The channels that tick t of a sweep looks at. */
  function VisitedAt(m: Channels, nows: seq<nat>, t: nat): seq<nat>
    requires t <= |nows|
  {
    var s := Swept(m, nows[..t]);
    var batch := Batch(s.channels, s.cursor);
    if s.stopped then [] else batch[..BeforeInit(s.channels, batch)]
  }

  ghost predicate AllVisited(m: Channels, nows: seq<nat>) {
    forall k :: k in m ==> exists t :: 0 <= t < |nows| && k in VisitedAt(m, nows, t)
  }

  /** No channel is in Init at the start, and none that stands between two ticks, with another one
      behind it, is overdue at the first of them. */
  ghost predicate Unhindered(m: Channels, nows: seq<nat>) {
    && (forall k :: k in m ==> !m[k].Init?)
    && forall b :: 0 <= b < |nows| && (b + 1) * CHECK_CHANS_PER_TICK + 1 < |m| ==> SeamOk(m, nows, b)
  }

  /** A sweep looks at every channel in as many ticks as it takes to count them by ten thousands,
      exactly if it is unhindered. */
  lemma SweepVisitsAll(m: Channels, nows: seq<nat>)
    requires |nows| == TicksNeeded(|m|)
    ensures AllVisited(m, nows) <==> Unhindered(m, nows)
  {
    hide SortedKeys;
    hide SeamOk;
    hide VisitedAt;
    var keys := SortedKeys(m.Keys);
    assert |keys| == |m|;
    if Unhindered(m, nows) {
      forall k | k in m
        ensures exists t :: 0 <= t < |nows| && k in VisitedAt(m, nows, t)
      {
        var i :| 0 <= i < |keys| && keys[i] == k;
        VisitedInTime(m, nows, i);
      }
    }
    if AllVisited(m, nows) {
      forall k | k in m
        ensures !m[k].Init?
      {
        var t :| 0 <= t < |nows| && k in VisitedAt(m, nows, t);
        NotInInit(m, nows, t, k);
      }
      forall b | 0 <= b < |nows| && (b + 1) * CHECK_CHANS_PER_TICK + 1 < |m|
        ensures SeamOk(m, nows, b)
      {
        var k := keys[(b + 1) * CHECK_CHANS_PER_TICK + 1];
        assert k in m;
        var t :| 0 <= t < |nows| && k in VisitedAt(m, nows, t);
        if !SeamOk(m, nows, b) {
          BehindTheSeam(m, nows, b, t);
        }
      }
    }
  }

  /** A channel that is in Init at the start is not looked at. */
  lemma NotInInit(m: Channels, nows: seq<nat>, t: nat, k: nat)
    requires t <= |nows| && k in m && k in VisitedAt(m, nows, t)
    ensures !m[k].Init?
  {
    hide Swept;
    hide BeforeInit;
    hide Batch;
    var s := Swept(m, nows[..t]);
    if m[k].Init? {
      InitStays(m, nows[..t], k);
      NoInitBefore(s.channels, Batch(s.channels, s.cursor), k);
    }
  }

  function FirstTick(i: nat): nat {
    if i == 0 then 0 else (i - 1) / CHECK_CHANS_PER_TICK
  }

  lemma VisitedInTime(m: Channels, nows: seq<nat>, i: nat)
    requires |nows| == TicksNeeded(|m|) && Unhindered(m, nows) && i < |SortedKeys(m.Keys)|
    ensures FirstTick(i) < |nows| && SortedKeys(m.Keys)[i] in VisitedAt(m, nows, FirstTick(i))
  {
    hide SortedKeys;
    hide Swept;
    hide VisitedAt;
    hide Clear;
    hide Unhindered;
    hide SeamOk;
    hide BatchEnd;
    hide TicksNeeded;
    hide FirstTick;
    var t, keys := FirstTick(i), SortedKeys(m.Keys);
    assert |keys| == |m|;
    TickOf(i, |m|);
    ClearWhenUnhindered(m, nows, t, i);
    WholeBatch(m, nows, t);
    InSlice(keys, t * CHECK_CHANS_PER_TICK, BatchEnd(t * CHECK_CHANS_PER_TICK, |m|), i);
  }

  lemma InSlice(keys: seq<nat>, p: nat, e: nat, i: nat)
    requires p <= i < e <= |keys|
    ensures keys[i] in keys[p..e]
  {
    assert keys[p..e][i - p] == keys[i];
  }

  lemma TickOf(i: nat, n: nat)
    requires i < n
    ensures var p := FirstTick(i) * CHECK_CHANS_PER_TICK;
            FirstTick(i) < TicksNeeded(n) && p <= i && p <= n && i < BatchEnd(p, n)
  {
  }

  lemma ClearWhenUnhindered(m: Channels, nows: seq<nat>, t: nat, i: nat)
    requires t < |nows| && Unhindered(m, nows)
    requires i < |m| && t == FirstTick(i)
    ensures Clear(m, nows, t + 1)
  {
    hide SortedKeys;
    hide SeamOk;
    forall j | 0 <= j < |SortedKeys(m.Keys)|
      ensures !m[SortedKeys(m.Keys)[j]].Init?
    {
      assert SortedKeys(m.Keys)[j] in m;
    }
  }

  lemma WholeBatch(m: Channels, nows: seq<nat>, t: nat)
    requires |nows| == TicksNeeded(|m|) && t < |nows| && Clear(m, nows, t + 1)
    ensures t * CHECK_CHANS_PER_TICK < |SortedKeys(m.Keys)|
    ensures VisitedAt(m, nows, t)
         == SortedKeys(m.Keys)[t * CHECK_CHANS_PER_TICK..BatchEnd(t * CHECK_CHANS_PER_TICK, |SortedKeys(m.Keys)|)]
  {
    hide *;
    VisitedIs(m, nows, t);
    InTheSweep(m, nows, t + 1);
    TicksAre(m, nows, t);
    ClearShrinks(m, nows, t);
    var s := Swept(m, nows[..t]);
    TickPosition(m, t);
    AheadKeys(m, nows, t, s.channels);
    BatchOfKeys(s.channels, m, s.cursor);
    TickExtends(m, nows, t, s.channels);
    assert Batch(s.channels, s.cursor)[..|Batch(s.channels, s.cursor)|] == Batch(s.channels, s.cursor);
  }

  lemma VisitedIs(m: Channels, nows: seq<nat>, t: nat)
    requires t <= |nows|
    ensures var s := Swept(m, nows[..t]);
            var batch := Batch(s.channels, s.cursor);
            && VisitedAt(m, nows, t) == (if s.stopped then [] else batch[..BeforeInit(s.channels, batch)])
            && forall k :: k in VisitedAt(m, nows, t) ==> k in batch
  {
    hide Swept;
    hide Batch;
    hide BeforeInit;
  }

  /** A channel in Init stays there, and is never looked at. */
  lemma {:induction false} InitStays(m: Channels, nows: seq<nat>, k: nat)
    requires k in m && m[k].Init?
    ensures var s := Swept(m, nows); k in s.channels && s.channels[k].Init?
  {
    if nows != [] {
      hide Tick;
      var front := nows[..|nows| - 1];
      InitStays(m, front, k);
      TickKeepsInit(Swept(m, front), nows[|nows| - 1], k);
    }
  }

  lemma TickKeepsInit(s: Sweep, now: nat, k: nat)
    requires k in s.channels && s.channels[k].Init?
    ensures k in Tick(s, now).channels && Tick(s, now).channels[k].Init?
  {
    hide Visited;
    hide Batch;
    hide BeforeInit;
    hide NextCursor;
    var batch := Batch(s.channels, s.cursor);
    var done := BeforeInit(s.channels, batch);
    BatchFacts(s.channels, s.cursor);
    FrontDistinct(s.channels, batch, done);
    if k in batch[..done] {
      var i :| 0 <= i < done && batch[..done][i] == k;
      EachMovesOnce(s.channels, batch[..done], now, i);
    }
  }

  lemma FrontDistinct(m: Channels, keys: seq<nat>, n: nat)
    requires n <= |keys| && Distinct(keys, m)
    ensures Distinct(keys[..n], m)
  {
  }

  lemma {:induction false} NoInitBefore(m: Channels, keys: seq<nat>, k: nat)
    requires k in keys[..BeforeInit(m, keys)] && k in m
    ensures !m[k].Init?
  {
    var done := BeforeInit(m, keys);
    if k != keys[0] {
      assert keys[..done] == [keys[0]] + keys[1..][..done - 1];
      NoInitBefore(m, keys[1..], k);
    }
  }

  /** What a sweep does not look at when a channel at a seam is overdue: the channel behind it. */
  lemma BehindTheSeam(m: Channels, nows: seq<nat>, b: nat, t: nat)
    requires |nows| == TicksNeeded(|m|) && b < |nows| && t < |nows| && !SeamOk(m, nows, b)
    requires (b + 1) * CHECK_CHANS_PER_TICK + 1 < |SortedKeys(m.Keys)|
    ensures SortedKeys(m.Keys)[(b + 1) * CHECK_CHANS_PER_TICK + 1] !in VisitedAt(m, nows, t)
  {
    hide *;
    VisitedIs(m, nows, t);
    var keys := SortedKeys(m.Keys);
    var s := Swept(m, nows[..t]);
    TicksAre(m, nows, t);
    if !s.stopped {
      NotYetStopped(m, nows, b, t, s.channels);
      AheadKeys(m, nows, t, s.channels);
      BatchOfKeys(s.channels, m, s.cursor);
      var batch := Batch(s.channels, s.cursor);
      NotThisTick(m, b, t);
      if t == b + 1 {
        StopsAtOnce(s.channels, batch);
      }
    }
  }

  lemma NotYetStopped(m: Channels, nows: seq<nat>, b: nat, t: nat, n: Channels)
    requires b < |nows| && t < |nows| && !SeamOk(m, nows, b) && Clear(m, nows, t) && Ahead(m, nows, t, n)
    ensures t <= b + 1
    ensures var keys := SortedKeys(m.Keys);
            t == b + 1 && t * CHECK_CHANS_PER_TICK < |keys| ==>
              keys[t * CHECK_CHANS_PER_TICK] in n && n[keys[t * CHECK_CHANS_PER_TICK]].Init?
  {
    hide SortedKeys;
    hide SeamOk;
  }

  lemma NotThisTick(m: Channels, b: nat, t: nat)
    requires t <= b + 1 && (b + 1) * CHECK_CHANS_PER_TICK + 1 < |SortedKeys(m.Keys)|
    ensures var keys, batch := SortedKeys(m.Keys), Batch(m, CursorAfter(m, t));
            if t == b + 1 then batch != [] && batch[0] == keys[t * CHECK_CHANS_PER_TICK]
            else keys[(b + 1) * CHECK_CHANS_PER_TICK + 1] !in batch
  {
    hide SortedKeys;
    hide Batch;
    hide CursorAfter;
    var keys, p := SortedKeys(m.Keys), t * CHECK_CHANS_PER_TICK;
    TickPosition(m, t);
    if t <= b {
      NotInSlice(keys, p, BatchEnd(p, |keys|), (b + 1) * CHECK_CHANS_PER_TICK + 1);
    }
  }

  lemma StopsAtOnce(m: Channels, keys: seq<nat>)
    requires keys != [] && keys[0] in m && m[keys[0]].Init?
    ensures BeforeInit(m, keys) == 0
  {
  }

  /** Whatever happens to a sweep, no channel comes or goes, and the searches stay bounded. */
  lemma {:induction false} SweptKeeps(m: Channels, nows: seq<nat>)
    ensures var s := Swept(m, nows);
            && s.channels.Keys == m.Keys
            && |PendingKeys(s.channels)|
               <= if |PendingKeys(m)| <= SEARCH_PENDING_MAX then SEARCH_PENDING_MAX else |PendingKeys(m)|
  {
    hide PendingKeys;
    hide Batch;
    hide BeforeInit;
    hide NextCursor;
    if nows != [] {
      var front := nows[..|nows| - 1];
      SweptKeeps(m, front);
      var s := Swept(m, front);
      var batch := Batch(s.channels, s.cursor);
      CountIsTrue(s.channels, batch[..BeforeInit(s.channels, batch)], nows[|nows| - 1]);
    }
  }

  // ---- a sweep that stops ----

  /** So many channels that wait for their series ids since the start. */
  function Waiting(n: nat): (m: Channels)
    ensures |m| == n && forall k :: k in m ==> k < n && m[k] == WaitForStatusSeriesId(0)
  {
    if n == 0 then map[] else Waiting(n - 1)[n - 1 := WaitForStatusSeriesId(0)]
  }

  /** 10002 channels wait for their series ids for six seconds, none is in Init, and the two ticks of
      the sweep do not look at all of them: the second tick stops at the channel at the seam. */
  lemma TimeoutStopsTheSweep()
    ensures var m := Waiting(10002);
            && TicksNeeded(|m|) == 2 && (forall k :: k in m ==> !m[k].Init?)
            && !AllVisited(m, [6000 * MS, 6000 * MS]) && Swept(m, [6000 * MS, 6000 * MS]).stopped
  {
    hide SortedKeys;
    hide AllVisited;
    hide Swept;
    var m, nows := Waiting(10002), [6000 * MS, 6000 * MS];
    var keys := SortedKeys(m.Keys);
    assert keys[10000] in m;
    assert !SeamOk(m, nows, 0);
    SweepVisitsAll(m, nows);
    SweepGoesThrough(m, nows);
  }
}
