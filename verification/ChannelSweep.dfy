/**
 The periodic check of all channels (netfetch/src/ca/connset.rs). Channels are kept in the order of
 their names, which are numbered in that order here. Times are in nanoseconds.
 */
module ChannelSweep {
  import opened Wrappers
  import opened OrderedMaps

  const CHECK_CHANS_PER_TICK: nat := 10000
  const SEARCH_PENDING_MAX: nat := 1024
  const MS: nat := 1_000_000
  const UNKNOWN_ADDRESS_STAY: nat := 2000 * MS
  const NO_ADDRESS_STAY: nat := 20000 * MS
  const SEARCH_PENDING_TIMEOUT: nat := 30000 * MS
  const STATUS_SERIES_TIMEOUT: nat := 5000 * MS

  datatype Inner =
    | UnknownAddress(since: nat)
    | SearchPending(since: nat)
    | Unassigned(addr: nat, since: nat)
    | Assigned(addr: nat)
    | NoAddress(since: nat)

  datatype ChannelState =
    | Init(since: nat)
    | WaitForStatusSeriesId(since: nat)
    | WithStatusSeriesId(inner: Inner)
    | ToRemove

  type Channels = map<nat, ChannelState>

  function Age(now: nat, since: nat): nat {
    if since <= now then now - since else 0
  }

  predicate IsPending(st: ChannelState) {
    st.WithStatusSeriesId? && st.inner.SearchPending?
  }

  function PendingKeys(m: Channels): set<nat> {
    set k | k in m && IsPending(m[k])
  }

  /** One channel is looked at, while `count` searches are pending. */
  function Visit(st: ChannelState, count: int, now: nat): (ChannelState, int) {
    match st
    case Init(_) => (st, count)
    case WaitForStatusSeriesId(since) => (if Age(now, since) > STATUS_SERIES_TIMEOUT then Init(now) else st, count)
    case WithStatusSeriesId(UnknownAddress(since)) =>
      if Age(now, since) > UNKNOWN_ADDRESS_STAY && count < SEARCH_PENDING_MAX then
        (WithStatusSeriesId(SearchPending(now)), count + 1)
      else (st, count)
    case WithStatusSeriesId(SearchPending(since)) =>
      if Age(now, since) > SEARCH_PENDING_TIMEOUT then (WithStatusSeriesId(NoAddress(now)), count - 1) else (st, count)
    case WithStatusSeriesId(NoAddress(since)) =>
      (if Age(now, since) > NO_ADDRESS_STAY then WithStatusSeriesId(UnknownAddress(now)) else st, count)
    case WithStatusSeriesId(_) => (st, count)
    case ToRemove => (st, count)
  }

  ghost predicate Distinct(keys: seq<nat>, m: Channels) {
    (forall k :: k in keys ==> k in m) && forall i, j :: 0 <= i < j < |keys| ==> keys[i] != keys[j]
  }

  /** All the given channels are looked at in turn. The running count starts with the number of
      pending searches. */
  function Visited(m: Channels, keys: seq<nat>, now: nat): (r: (Channels, int))
    ensures r.0.Keys == m.Keys
    ensures forall k :: k in m && k !in keys ==> r.0[k] == m[k]
  {
    if keys == [] then (m, |PendingKeys(m)|)
    else
      var (n, count) := Visited(m, keys[..|keys| - 1], now);
      var k := keys[|keys| - 1];
      assert keys == keys[..|keys| - 1] + [k];
      if k in n then
        var (st, c) := Visit(n[k], count, now);
        (n[k := st], c)
      else (n, count)
  }

  /** The number of channels before the first one in Init, where the source has a `todo!()`. */
  function BeforeInit(m: Channels, keys: seq<nat>): (n: nat)
    ensures n <= |keys|
  {
    if keys == [] || (keys[0] in m && m[keys[0]].Init?) then 0 else 1 + BeforeInit(m, keys[1..])
  }

  function From(m: Channels, cursor: Option<nat>): set<nat> {
    set k | k in m && (cursor.Some? ==> cursor.value <= k)
  }

  function KeysFrom(m: Channels, cursor: Option<nat>): seq<nat> {
    SortedKeys(From(m, cursor))
  }

  /** The channels of one tick: one more than the cursor moves on. */
  function Batch(m: Channels, cursor: Option<nat>): seq<nat> {
    var keys := KeysFrom(m, cursor);
    if |keys| > CHECK_CHANS_PER_TICK then keys[..CHECK_CHANS_PER_TICK + 1] else keys
  }

  function NextCursor(m: Channels, cursor: Option<nat>): Option<nat> {
    var batch := Batch(m, cursor);
    if |batch| > CHECK_CHANS_PER_TICK then Some(batch[CHECK_CHANS_PER_TICK]) else None
  }

  /** The channels, the cursor, and whether the sweep was stopped by a channel in Init. */
  datatype Sweep = Sweep(channels: Channels, cursor: Option<nat>, stopped: bool)

  /** `check_channel_states`: the channels of the batch before the first one in Init are looked at.
      The cursor is taken at the beginning, and set only at the end. */
  function Tick(s: Sweep, now: nat): Sweep {
    var batch := Batch(s.channels, s.cursor);
    var done := BeforeInit(s.channels, batch);
    var channels := Visited(s.channels, batch[..done], now).0;
    if done < |batch| then Sweep(channels, None, true)
    else Sweep(channels, NextCursor(s.channels, s.cursor), false)
  }

  // ---- the running count ----

  lemma PendingPut(m: Channels, k: nat, st: ChannelState)
    requires k in m
    ensures PendingKeys(m[k := st]) == if IsPending(st) then PendingKeys(m) + {k} else PendingKeys(m) - {k}
    ensures |PendingKeys(m[k := st])|
         == |PendingKeys(m)| + (if IsPending(st) then 1 else 0) - (if IsPending(m[k]) then 1 else 0)
  {
    assert PendingKeys(m[k := st]) == if IsPending(st) then PendingKeys(m) + {k} else PendingKeys(m) - {k};
  }

  lemma VisitCounts(st: ChannelState, count: int, now: nat)
    ensures Visit(st, count, now).1 - count
         == (if IsPending(Visit(st, count, now).0) then 1 else 0) - (if IsPending(st) then 1 else 0)
  {
  }

  /** The running count is at all times the number of searches that are pending, so the search for
      a channel is given up or taken up without it ever going wrong, and no visit lifts it above
      the maximum. */
  lemma {:induction false} CountIsTrue(m: Channels, keys: seq<nat>, now: nat)
    ensures var (n, count) := Visited(m, keys, now);
            && count == |PendingKeys(n)|
            && count <= if |PendingKeys(m)| <= SEARCH_PENDING_MAX then SEARCH_PENDING_MAX else |PendingKeys(m)|
  {
    hide PendingKeys;
    if keys != [] {
      CountIsTrue(m, keys[..|keys| - 1], now);
      var (n, count) := Visited(m, keys[..|keys| - 1], now);
      var k := keys[|keys| - 1];
      if k in n {
        VisitCounts(n[k], count, now);
        PendingPut(n, k, Visit(n[k], count, now).0);
      }
    }
  }

  // ---- what can happen to a channel ----

  /** What becomes of a channel in state a that is looked at while so many searches are pending: each
      state has its time, in nanoseconds, and a search is begun only while there are fewer than 1024. */
  ghost predicate Moves(a: ChannelState, b: ChannelState, pending: int, now: nat) {
    match a
    case WaitForStatusSeriesId(since) => b == if now > since + 5_000_000_000 then Init(now) else a
    case WithStatusSeriesId(UnknownAddress(since)) =>
      b == if now > since + 2_000_000_000 && pending < 1024 then WithStatusSeriesId(SearchPending(now)) else a
    case WithStatusSeriesId(SearchPending(since)) =>
      b == if now > since + 30_000_000_000 then WithStatusSeriesId(NoAddress(now)) else a
    case WithStatusSeriesId(NoAddress(since)) =>
      b == if now > since + 20_000_000_000 then WithStatusSeriesId(UnknownAddress(now)) else a
    case _ => b == a
  }

  /** Each channel moves once, with the searches that are pending when its turn comes. */
  lemma {:induction false} EachMovesOnce(m: Channels, keys: seq<nat>, now: nat, i: nat)
    requires Distinct(keys, m) && i < |keys|
    ensures Moves(m[keys[i]], Visited(m, keys, now).0[keys[i]], |PendingKeys(Visited(m, keys[..i], now).0)|, now)
  {
    hide Visit;
    hide Visited;
    hide Moves;
    hide PendingKeys;
    var n := |keys| - 1;
    var front, last := keys[..n], keys[n];
    VisitedLast(m, keys, now);
    if i == n {
      CountIsTrue(m, front, now);
      VisitMoves(m[last], Visited(m, front, now).1, now);
    } else {
      EachMovesOnce(m, front, now, i);
      assert front[..i] == keys[..i];
      assert keys[i] != last;
    }
  }

  lemma VisitedLast(m: Channels, keys: seq<nat>, now: nat)
    requires Distinct(keys, m) && keys != []
    ensures var n := |keys| - 1;
            var (f, count) := Visited(m, keys[..n], now);
            && keys[n] !in keys[..n] && Distinct(keys[..n], m) && f[keys[n]] == m[keys[n]]
            && Visited(m, keys, now).0 == f[keys[n] := Visit(m[keys[n]], count, now).0]
  {
    hide Visit;
    hide PendingKeys;
    assert forall k :: k in keys[..|keys| - 1] ==> k in keys;
  }

  lemma VisitMoves(st: ChannelState, count: int, now: nat)
    ensures Moves(st, Visit(st, count, now).0, count, now)
  {
  }

  // ---- the cursor ----

  lemma {:induction false} TailOfSorted(s: set<nat>, i: nat)
    requires i < |SortedKeys(s)|
    ensures SortedKeys(set k | k in s && SortedKeys(s)[i] <= k) == SortedKeys(s)[i..]
  {
    hide SortedKeys;
    var keys := SortedKeys(s);
    var tail := set k | k in s && keys[i] <= k;
    forall k
      ensures k in tail <==> k in keys[i..]
    {
      if k in tail {
        var j :| 0 <= j < |keys| && keys[j] == k;
        assert j >= i;
        assert keys[i..][j - i] == k;
      }
      if k in keys[i..] {
        var j :| 0 <= j < |keys[i..]| && keys[i..][j] == k;
        assert keys[i + j] == k;
      }
    }
    AscendingUnique(SortedKeys(tail), keys[i..]);
  }

  /** The cursor after a number of ticks, from the start of a sweep over channels that stay. */
  function CursorAfter(m: Channels, ticks: nat): Option<nat> {
    if ticks == 0 then None else NextCursor(m, CursorAfter(m, ticks - 1))
  }

  lemma TickFrom(m: Channels, cursor: Option<nat>, keys: seq<nat>, p: nat)
    requires p <= |keys| && KeysFrom(m, cursor) == keys[p..]
    ensures NextCursor(m, cursor)
         == if p + CHECK_CHANS_PER_TICK < |keys| then Some(keys[p + CHECK_CHANS_PER_TICK]) else None
    ensures Batch(m, cursor) == keys[p..BatchEnd(p, |keys|)]
  {
    hide KeysFrom;
  }

  /** The position behind the last channel of a tick that starts at position p of n. */
  function BatchEnd(p: nat, n: nat): (e: nat)
    requires p <= n
    ensures p <= e <= n
  {
    if p + CHECK_CHANS_PER_TICK < n then p + CHECK_CHANS_PER_TICK + 1 else n
  }

  lemma FromPosition(m: Channels, p: nat)
    requires p < |m|
    ensures KeysFrom(m, Some(SortedKeys(m.Keys)[p])) == SortedKeys(m.Keys)[p..]
    ensures KeysFrom(m, None) == SortedKeys(m.Keys)[0..]
  {
    hide SortedKeys;
    var keys := SortedKeys(m.Keys);
    TailOfSorted(m.Keys, p);
    assert From(m, Some(keys[p])) == set k | k in m.Keys && keys[p] <= k;
    assert From(m, None) == m.Keys;
    assert keys[0..] == keys;
  }

  /** The position of tick t in the order of all channels: the cursor moves on by 10000 at every
      tick, until the channels are exhausted and the sweep starts again. */
  lemma {:induction false} TickPosition(m: Channels, t: nat)
    requires t * CHECK_CHANS_PER_TICK < |m|
    ensures var keys, p := SortedKeys(m.Keys), t * CHECK_CHANS_PER_TICK;
            && KeysFrom(m, CursorAfter(m, t)) == keys[p..]
            && NextCursor(m, CursorAfter(m, t))
                 == (if p + CHECK_CHANS_PER_TICK < |keys| then Some(keys[p + CHECK_CHANS_PER_TICK]) else None)
            && Batch(m, CursorAfter(m, t)) == keys[p..BatchEnd(p, |keys|)]
  {
    hide SortedKeys;
    hide KeysFrom;
    hide NextCursor;
    hide Batch;
    var p := t * CHECK_CHANS_PER_TICK;
    FromPosition(m, p);
    if t > 0 {
      TickPosition(m, t - 1);
    }
    TickFrom(m, CursorAfter(m, t), SortedKeys(m.Keys), p);
  }

  function TicksNeeded(n: nat): nat {
    (n + CHECK_CHANS_PER_TICK - 1) / CHECK_CHANS_PER_TICK
  }

  /** The cursor strictly advances, or the sweep is through. */
  lemma CursorAdvances(m: Channels, cursor: nat)
    ensures var next := NextCursor(m, Some(cursor)); next.Some? ==> next.value > cursor && next.value in m
  {
    hide SortedKeys;
    var s := From(m, Some(cursor));
    var keys := SortedKeys(s);
    if |keys| > CHECK_CHANS_PER_TICK {
      assert keys[0] in s && keys[CHECK_CHANS_PER_TICK] in s;
    }
  }

  /** Which channels a tick visits depends only on which channels there are. */
  lemma BatchOfKeys(m: Channels, n: Channels, cursor: Option<nat>)
    requires m.Keys == n.Keys
    ensures Batch(m, cursor) == Batch(n, cursor) && NextCursor(m, cursor) == NextCursor(n, cursor)
  {
    hide SortedKeys;
    assert From(m, cursor) == From(n, cursor);
  }

  lemma {:induction false} StopsIff(m: Channels, keys: seq<nat>)
    ensures BeforeInit(m, keys) < |keys| <==> exists k :: k in keys && k in m && m[k].Init?
  {
    if keys != [] {
      StopsIff(m, keys[1..]);
      assert forall k :: k in keys <==> k == keys[0] || k in keys[1..];
    }
  }

  // ---- the object ----

  class CaConnSet {
    var channelStates: Channels
    var chanCheckNext: Option<nat>

    /** `update_channel_state_counts`. */
    method UpdateChannelStateCounts()
      returns (unknown: nat, pending: nat, noConn: nat, withConn: nat, noAddress: nat)
      ensures pending == |PendingKeys(channelStates)|
      ensures noConn == |Where(channelStates, IsUnassigned)|
      ensures withConn == |Where(channelStates, IsAssigned)|
      ensures noAddress == |Where(channelStates, HasNoAddress)|
      ensures unknown + pending + noConn + withConn + noAddress == |channelStates|
    {
      hide SortedKeys;
      hide Among;
      hide Where;
      hide PendingKeys;
      unknown, pending, noConn, withConn, noAddress := 0, 0, 0, 0, 0;
      var keys := SortedKeys(channelStates.Keys);
      AllAmong(channelStates, keys);
      for i := 0 to |keys|
        invariant unknown + pending + noConn + withConn + noAddress == i
        invariant pending == |Among(channelStates, keys[..i], IsPending)|
        invariant noConn == |Among(channelStates, keys[..i], IsUnassigned)|
        invariant withConn == |Among(channelStates, keys[..i], IsAssigned)|
        invariant noAddress == |Among(channelStates, keys[..i], HasNoAddress)|
      {
        var st := channelStates[keys[i]];
        EachStep(channelStates, keys, i);
        match st {
          case Init(_) => unknown := unknown + 1;
          case WaitForStatusSeriesId(_) => unknown := unknown + 1;
          case WithStatusSeriesId(inner) =>
            match inner {
              case UnknownAddress(_) => unknown := unknown + 1;
              case SearchPending(_) => pending := pending + 1;
              case Unassigned(_, _) => noConn := noConn + 1;
              case Assigned(_) => withConn := withConn + 1;
              case NoAddress(_) => noAddress := noAddress + 1;
            }
          case ToRemove => unknown := unknown + 1;
        }
      }
    }

    static method CheckOne(was: ChannelState, pending: nat, now: nat) returns (st: ChannelState, count: nat)
      requires IsPending(was) ==> pending > 0
      ensures (st, count as int) == Visit(was, pending, now)
    {
      st, count := was, pending;
      match st {
        case Init(_) =>
        case WaitForStatusSeriesId(since) =>
          if Age(now, since) > STATUS_SERIES_TIMEOUT {
            st := Init(now);
          }
        case WithStatusSeriesId(inner) =>
          match inner {
            case UnknownAddress(since) =>
              if Age(now, since) > UNKNOWN_ADDRESS_STAY {
                if count < SEARCH_PENDING_MAX {
                  count := count + 1;
                  st := WithStatusSeriesId(SearchPending(now));
                }
              }
            case SearchPending(since) =>
              if Age(now, since) > SEARCH_PENDING_TIMEOUT {
                st := WithStatusSeriesId(NoAddress(now));
                count := count - 1;
              }
            case NoAddress(since) =>
              if Age(now, since) > NO_ADDRESS_STAY {
                st := WithStatusSeriesId(UnknownAddress(now));
              }
            case _ =>
          }
        case ToRemove =>
      }
    }

    /** `check_channel_states`. The result is the running count, or the panic. */
    method CheckChannelStates(now: nat) returns (r: Result<nat, string>)
      modifies this
      ensures Sweep(channelStates, chanCheckNext, r.Err?) == Tick(old(Sweep(channelStates, chanCheckNext, false)), now)
      ensures r.Ok? ==> r.value == |PendingKeys(channelStates)|
    {
      hide *;
      ghost var m, cursor := channelStates, chanCheckNext;
      ghost var batch := Batch(m, cursor);
      var _, count, _, _, _ := UpdateChannelStateCounts();
      var keys := KeysFrom(channelStates, chanCheckNext);
      BatchFacts(m, cursor);
      SweptStart(m, batch, now);
      chanCheckNext := None;
      for i := 0 to |keys|
        invariant i <= CHECK_CHANS_PER_TICK && chanCheckNext == None
        invariant SweptTo(m, batch, now, i, channelStates, count)
      {
        var k := keys[i];
        SweptStep(m, batch, now, i, channelStates, count);
        var st := channelStates[k];
        if st.Init? {
          TickStopped(m, cursor, now, i, channelStates, count);
          return Err("not yet implemented");
        }
        st, count := CheckOne(st, count, now);
        channelStates := channelStates[k := st];
        if i >= CHECK_CHANS_PER_TICK {
          chanCheckNext := Some(k);
          TickThrough(m, cursor, now, channelStates, count);
          return Ok(count);
        }
      }
      TickThrough(m, cursor, now, channelStates, count);
      r := Ok(count);
    }
  }

  /** The first i channels of the batch have been looked at. */
  ghost predicate SweptTo(m: Channels, batch: seq<nat>, now: nat, i: nat, n: Channels, count: int) {
    i <= |batch| && (n, count) == Visited(m, batch[..i], now) && BeforeInit(m, batch) == i + BeforeInit(m, batch[i..])
  }

  lemma SweptStart(m: Channels, batch: seq<nat>, now: nat)
    ensures SweptTo(m, batch, now, 0, m, |PendingKeys(m)|)
  {
    hide PendingKeys;
    assert batch[..0] == [] && batch[0..] == batch;
  }

  lemma SweptStep(m: Channels, batch: seq<nat>, now: nat, i: nat, n: Channels, count: int)
    requires Distinct(batch, m) && i < |batch| && SweptTo(m, batch, now, i, n, count)
    ensures var k := batch[i];
            && k in n && n[k] == m[k] && (IsPending(n[k]) ==> count >= 1)
            && (n[k].Init? ==> BeforeInit(m, batch) == i)
            && (!n[k].Init? ==> var (st, c) := Visit(n[k], count, now); SweptTo(m, batch, now, i + 1, n[k := st], c))
  {
    hide PendingKeys;
    hide Visit;
    hide Visited;
    hide BeforeInit;
    SweepStep(m, batch, i, now);
  }

  lemma TickStopped(m: Channels, cursor: Option<nat>, now: nat, i: nat, n: Channels, count: int)
    requires var batch := Batch(m, cursor); SweptTo(m, batch, now, i, n, count) && BeforeInit(m, batch) == i < |batch|
    ensures Tick(Sweep(m, cursor, false), now) == Sweep(n, None, true)
  {
    hide Batch;
    hide Visited;
    hide BeforeInit;
  }

  lemma TickThrough(m: Channels, cursor: Option<nat>, now: nat, n: Channels, count: int)
    requires var batch := Batch(m, cursor); SweptTo(m, batch, now, |batch|, n, count)
    ensures Tick(Sweep(m, cursor, false), now) == Sweep(n, NextCursor(m, cursor), false)
    ensures count == |PendingKeys(n)|
  {
    hide Batch;
    hide Visited;
    hide PendingKeys;
    hide NextCursor;
    var batch := Batch(m, cursor);
    assert batch[..|batch|] == batch;
    CountIsTrue(m, batch, now);
  }

  lemma TickIs(m: Channels, cursor: Option<nat>, now: nat)
    ensures var batch := Batch(m, cursor);
            var done := BeforeInit(m, batch);
            Tick(Sweep(m, cursor, false), now)
            == Sweep(Visited(m, batch[..done], now).0,
                     if done == |batch| then NextCursor(m, cursor) else None,
                     done < |batch|)
  {
  }

  lemma BatchFacts(m: Channels, cursor: Option<nat>)
    ensures Distinct(KeysFrom(m, cursor), m) && Distinct(Batch(m, cursor), m)
    ensures var keys := KeysFrom(m, cursor);
            if |keys| <= CHECK_CHANS_PER_TICK then
              && Batch(m, cursor) == keys
              && NextCursor(m, cursor) == None
            else
              && |Batch(m, cursor)| == CHECK_CHANS_PER_TICK + 1 && Batch(m, cursor) <= keys
              && NextCursor(m, cursor) == Some(keys[CHECK_CHANS_PER_TICK])
  {
    hide SortedKeys;
    assert forall k :: k in KeysFrom(m, cursor) ==> k in m;
    var keys := KeysFrom(m, cursor);
    assert forall i, j :: 0 <= i < j < |keys| ==> keys[i] < keys[j];
    assert forall i :: 0 <= i < |Batch(m, cursor)| ==> Batch(m, cursor)[i] == keys[i];
  }

  lemma SweepStep(m: Channels, batch: seq<nat>, i: nat, now: nat)
    requires Distinct(batch, m) && i < |batch|
    ensures var k, (n, count) := batch[i], Visited(m, batch[..i], now);
            && k in n && n[k] == m[k] && (IsPending(n[k]) ==> count >= 1)
            && Visited(m, batch[..i + 1], now) == (n[k := Visit(n[k], count, now).0], Visit(n[k], count, now).1)
            && BeforeInit(m, batch[i..]) == if n[k].Init? then 0 else 1 + BeforeInit(m, batch[i + 1..])
  {
    hide PendingKeys;
    hide Visit;
    var k := batch[i];
    var (n, count) := Visited(m, batch[..i], now);
    assert batch[..i + 1][..i] == batch[..i];
    assert batch[i..][1..] == batch[i + 1..];
    assert k !in batch[..i];
    CountIsTrue(m, batch[..i], now);
    if IsPending(n[k]) {
      OneIsPending(n, k);
    }
  }

  lemma OneIsPending(m: Channels, k: nat)
    requires k in m && IsPending(m[k])
    ensures |PendingKeys(m)| >= 1
  {
    assert k in PendingKeys(m);
  }

  // ---- the counts ----

  predicate IsUnassigned(st: ChannelState) {
    st.WithStatusSeriesId? && st.inner.Unassigned?
  }

  predicate IsAssigned(st: ChannelState) {
    st.WithStatusSeriesId? && st.inner.Assigned?
  }

  predicate HasNoAddress(st: ChannelState) {
    st.WithStatusSeriesId? && st.inner.NoAddress?
  }

  /** The channels that are in one of some states. */
  function Where(m: Channels, p: ChannelState -> bool): set<nat> {
    set k | k in m && p(m[k])
  }

  /** Those among the keys. */
  function Among(m: Channels, keys: seq<nat>, p: ChannelState -> bool): set<nat> {
    set k | k in keys && k in m && p(m[k])
  }

  lemma AmongStep(m: Channels, keys: seq<nat>, i: nat, p: ChannelState -> bool)
    requires keys == SortedKeys(m.Keys) && i < |keys|
    ensures keys[i] in m
    ensures |Among(m, keys[..i + 1], p)| == |Among(m, keys[..i], p)| + if p(m[keys[i]]) then 1 else 0
  {
    hide SortedKeys;
    assert keys[..i + 1] == keys[..i] + [keys[i]];
    assert keys[i] !in keys[..i] && keys[i] in m;
    AmongPut(m, keys[..i], keys[i], p);
  }

  lemma AmongPut(m: Channels, keys: seq<nat>, k: nat, p: ChannelState -> bool)
    requires k in m && k !in keys
    ensures |Among(m, keys + [k], p)| == |Among(m, keys, p)| + if p(m[k]) then 1 else 0
  {
    assert Among(m, keys + [k], p) == Among(m, keys, p) + if p(m[k]) then {k} else {};
  }

  lemma AmongAll(m: Channels, keys: seq<nat>, p: ChannelState -> bool)
    requires keys == SortedKeys(m.Keys)
    ensures Among(m, keys[..0], p) == {} && Among(m, keys[..|keys|], p) == Where(m, p) && |keys| == |m|
  {
    hide SortedKeys;
    assert keys[..|keys|] == keys;
  }

  lemma AllAmong(m: Channels, keys: seq<nat>)
    requires keys == SortedKeys(m.Keys)
    ensures |keys| == |m| && forall i :: 0 <= i < |keys| ==> keys[i] in m
    ensures |Among(m, keys[..0], IsPending)| == |Among(m, keys[..0], IsUnassigned)| == 0
    ensures |Among(m, keys[..0], IsAssigned)| == |Among(m, keys[..0], HasNoAddress)| == 0
    ensures Among(m, keys[..|keys|], IsPending) == PendingKeys(m)
    ensures Among(m, keys[..|keys|], IsUnassigned) == Where(m, IsUnassigned)
    ensures Among(m, keys[..|keys|], IsAssigned) == Where(m, IsAssigned)
    ensures Among(m, keys[..|keys|], HasNoAddress) == Where(m, HasNoAddress)
  {
    hide SortedKeys;
    hide Among;
    AmongAll(m, keys, IsPending);
    AmongAll(m, keys, IsUnassigned);
    AmongAll(m, keys, IsAssigned);
    AmongAll(m, keys, HasNoAddress);
    forall i | 0 <= i < |keys|
      ensures keys[i] in m
    {
      assert keys[i] in keys;
    }
  }

  lemma EachStep(m: Channels, keys: seq<nat>, i: nat)
    requires keys == SortedKeys(m.Keys) && i < |keys| && keys[i] in m
    ensures var st, a, b := m[keys[i]], keys[..i], keys[..i + 1];
            && |Among(m, b, IsPending)| == |Among(m, a, IsPending)| + (if IsPending(st) then 1 else 0)
            && |Among(m, b, IsUnassigned)| == |Among(m, a, IsUnassigned)| + (if IsUnassigned(st) then 1 else 0)
            && |Among(m, b, IsAssigned)| == |Among(m, a, IsAssigned)| + (if IsAssigned(st) then 1 else 0)
            && |Among(m, b, HasNoAddress)| == |Among(m, a, HasNoAddress)| + (if HasNoAddress(st) then 1 else 0)
  {
    hide SortedKeys;
    hide Among;
    AmongStep(m, keys, i, IsPending);
    AmongStep(m, keys, i, IsUnassigned);
    AmongStep(m, keys, i, IsAssigned);
    AmongStep(m, keys, i, HasNoAddress);
  }
}
