/**
 The order in which the events of a channel are read back (netfetch/src/ca/conn.rs): by partition, and
 by offset in it.
 */
module EventOrder {
  import opened EventPartition

  predicate Before(a: Insert, b: Insert) {
    a.tsMsp < b.tsMsp || (a.tsMsp == b.tsMsp && a.tsLsp < b.tsLsp)
  }

  /** Reading the partitions in order yields the events in the order of their time. */
  ghost predicate ReadsInOrder(tss: seq<nat>) {
    forall i, j | 0 <= i < |tss| && 0 <= j < |tss| && tss[i] < tss[j] ::
      Before(Stored(tss).1[i], Stored(tss).1[j])
  }

  ghost predicate AllRight(tss: seq<nat>) {
    forall i :: 0 <= i < |tss| ==> Right(tss, i)
  }

  /** The partition that the guards choose for an event. */
  function Place(p: Partition, ts: nat): nat {
    if Rolls(p, ts) then Grid(ts) else p.mspLast
  }

  function PlaceAt(tss: seq<nat>, i: nat): nat
    requires i < |tss|
  {
    Place(Stored(tss[..i]).0, tss[i])
  }

  /** Event k leaves a partition because it is full, not because its hour is over. */
  ghost predicate RolledFull(tss: seq<nat>, k: nat)
    requires k < |tss|
  {
    var p := Stored(tss[..k]).0;
    p.inserted >= FULL && Grid(tss[k]) != p.mspLast && tss[k] < p.mspLast + HOUR
  }

  /** Two events are in places that are in the order of their times. */
  ghost predicate InPlace(tss: seq<nat>, i: nat, j: nat)
    requires i < |tss| && j < |tss|
  {
    && (PlaceAt(tss, i) < PlaceAt(tss, j) ==> tss[i] <= tss[j])
    && (PlaceAt(tss, j) < PlaceAt(tss, i) ==> tss[j] <= tss[i])
  }

  /** No event is out of place with one from before a full partition was left. */
  ghost predicate NoneOutOfPlace(tss: seq<nat>) {
    forall i, k, j | 0 <= i < k <= j < |tss| && RolledFull(tss, k) :: InPlace(tss, i, j)
  }

  // ---- places ----

  lemma PlaceIs(tss: seq<nat>, i: nat)
    requires InRange(tss) && i < |tss|
    ensures PlaceAt(tss, i) == Msp(tss, i + 1) == Stored(tss).1[i].tsMsp
  {
    hide Stored;
    hide Grid;
    hide Wrap;
    hide Rolls;
    StoredAt(tss, i);
    Placed(tss, i);
    AssignedPlace(Stored(tss[..i]).0, tss[i]);
  }

  lemma AssignedPlace(p: Partition, ts: nat)
    ensures Assigned(p, ts, p.mspLast).1.tsMsp == Place(p, ts)
  {
    hide Grid;
    hide Wrap;
    hide Rolls;
  }

  /** A partition that is left otherwise is left for one that starts after its hour. */
  lemma LeftAfterItsHour(tss: seq<nat>, k: nat)
    requires InRange(tss) && k < |tss| && !RolledFull(tss, k)
    ensures Msp(tss, k + 1) == Msp(tss, k) || Msp(tss, k + 1) >= Msp(tss, k) + HOUR
  {
    hide Stored;
    hide Assigned;
    hide Rolls;
    hide Grid;
    StoredAt(tss, k);
    MspOnGrid(tss, k);
    AssignedFacts(Stored(tss[..k]).0, tss[k]);
    if Msp(tss, k + 1) != Msp(tss, k) {
      assert HOUR % (SEC * 10) == 0;
      GridKeeps(Msp(tss, k) + HOUR, tss[k]);
    }
  }

  lemma {:induction false} NotFullBetween(tss: seq<nat>, a: nat, b: nat)
    requires InRange(tss) && a <= b <= |tss| && forall k | a <= k < b :: !RolledFull(tss, k)
    ensures Msp(tss, b) == Msp(tss, a) || Msp(tss, b) >= Msp(tss, a) + HOUR
    decreases b - a
  {
    hide Msp;
    hide RolledFull;
    if a < b {
      NotFullBetween(tss, a, b - 1);
      LeftAfterItsHour(tss, b - 1);
    }
  }

  // ---- the order ----

  /** Out of order: an event that is older than the start of its partition gets an offset that wraps
      around, and is read after the one that opened the partition. */
  lemma InOrderIsRight(tss: seq<nat>)
    requires InRange(tss) && ReadsInOrder(tss)
    ensures AllRight(tss)
  {
    hide Stored;
    hide Right;
    hide Msp;
    forall i | 0 <= i < |tss|
      ensures Right(tss, i)
    {
      Placed(tss, i);
      if !Right(tss, i) {
        var k := WrongIsMisread(tss, i);
      }
    }
  }

  lemma WrongIsMisread(tss: seq<nat>, i: nat) returns (k: nat)
    requires InRange(tss) && i < |tss| && !Right(tss, i)
    ensures k < i && tss[i] < tss[k] && Before(Stored(tss).1[k], Stored(tss).1[i])
  {
    hide Stored;
    hide Right;
    hide Msp;
    hide TurnsBack;
    Placed(tss, i);
    k := FindOpener(tss, i);
    Placed(tss, k);
    OpenerIsRight(tss, k);
  }

  lemma OpenerIsRight(tss: seq<nat>, k: nat)
    requires InRange(tss) && k < |tss| && Bumps(tss, k)
    ensures Right(tss, k)
  {
    hide Stored;
    hide TurnsBack;
    hide Rolls;
    Placed(tss, k);
  }

  /** Two events without a full partition left between them are in order. */
  lemma NearInOrder(tss: seq<nat>, i: nat, j: nat)
    requires InRange(tss) && i < j < |tss| && Right(tss, i) && Right(tss, j)
    requires forall k | i < k <= j :: !RolledFull(tss, k)
    ensures tss[i] < tss[j] ==> Before(Stored(tss).1[i], Stored(tss).1[j])
    ensures tss[j] < tss[i] ==> Before(Stored(tss).1[j], Stored(tss).1[i])
  {
    hide Stored;
    hide Right;
    hide Msp;
    hide RolledFull;
    hide TurnsBack;
    Placed(tss, i);
    Placed(tss, j);
    NotFullBetween(tss, i + 1, j + 1);
  }

  lemma FarInOrder(tss: seq<nat>, i: nat, j: nat)
    requires InRange(tss) && i < |tss| && j < |tss| && Right(tss, i) && Right(tss, j)
    requires InPlace(tss, i, j)
    ensures tss[i] < tss[j] ==> Before(Stored(tss).1[i], Stored(tss).1[j])
    ensures tss[j] < tss[i] ==> Before(Stored(tss).1[j], Stored(tss).1[i])
  {
    hide Stored;
    hide Right;
    hide Msp;
    hide PlaceAt;
    hide TurnsBack;
    Placed(tss, i);
    Placed(tss, j);
    PlaceIs(tss, i);
    PlaceIs(tss, j);
  }

  lemma OrderedPair(tss: seq<nat>, i: nat, j: nat)
    requires InRange(tss) && AllRight(tss) && NoneOutOfPlace(tss) && i < j < |tss|
    ensures tss[i] < tss[j] ==> Before(Stored(tss).1[i], Stored(tss).1[j])
    ensures tss[j] < tss[i] ==> Before(Stored(tss).1[j], Stored(tss).1[i])
  {
    hide Stored;
    hide Right;
    hide RolledFull;
    hide InPlace;
    if k :| i < k <= j && RolledFull(tss, k) {
      FarInOrder(tss, i, j);
    } else {
      NearInOrder(tss, i, j);
    }
  }

  lemma OutOfPlace(tss: seq<nat>, i: nat, j: nat)
    requires InRange(tss) && ReadsInOrder(tss) && i < |tss| && j < |tss|
    ensures InPlace(tss, i, j)
  {
    hide Stored;
    hide PlaceAt;
    PlaceIs(tss, i);
    PlaceIs(tss, j);
  }

  /** The stored order is the order of time exactly if every event is right, and none is out of place
      with one from before a full partition was left. */
  lemma OrderIff(tss: seq<nat>)
    requires InRange(tss)
    ensures ReadsInOrder(tss) <==> AllRight(tss) && NoneOutOfPlace(tss)
  {
    hide Stored;
    hide Right;
    hide RolledFull;
    hide InPlace;
    if AllRight(tss) && NoneOutOfPlace(tss) {
      forall i, j | 0 <= i < |tss| && 0 <= j < |tss| && tss[i] < tss[j]
        ensures Before(Stored(tss).1[i], Stored(tss).1[j])
      {
        if i < j {
          OrderedPair(tss, i, j);
        } else {
          OrderedPair(tss, j, i);
        }
      }
    }
    if ReadsInOrder(tss) {
      InOrderIsRight(tss);
      forall i, k, j | 0 <= i < k <= j < |tss| && RolledFull(tss, k)
        ensures InPlace(tss, i, j)
      {
        OutOfPlace(tss, i, j);
      }
    }
  }

  /** The next event can be stored with its time, and in a place that is in order with all others. */
  ghost predicate Fits(tss: seq<nat>, ts: nat) {
    var (p, items) := Stored(tss);
    && (Rolls(p, ts) || p.mspLast <= ts)
    && forall i | 0 <= i < |tss| ::
         && (items[i].tsMsp < Place(p, ts) ==> tss[i] <= ts)
         && (Place(p, ts) < items[i].tsMsp ==> ts <= tss[i])
  }

  /** Whether an event keeps the order can be told before it is stored. */
  lemma FitsIff(tss: seq<nat>, ts: nat)
    requires InRange(tss + [ts])
    ensures ReadsInOrder(tss + [ts]) <==> ReadsInOrder(tss) && Fits(tss, ts)
  {
    hide *;
    if ReadsInOrder(tss + [ts]) {
      InOrderFits(tss, ts);
    }
    if ReadsInOrder(tss) && Fits(tss, ts) {
      FitsInOrder(tss, ts);
    }
  }

  /** What is stored of the events before, and where the next one goes. */
  lemma MoreIs(tss: seq<nat>, ts: nat)
    requires InRange(tss + [ts])
    ensures InRange(tss) && |Stored(tss).1| == |tss|
    ensures var more, n, p := tss + [ts], |tss|, Stored(tss).0;
            && Stored(more).1[..n] == Stored(tss).1 && PlaceAt(more, n) == Place(p, ts)
            && (Right(more, n) <==> Rolls(p, ts) || p.mspLast <= ts)
            && forall i | 0 <= i < n ::
                 more[i] == tss[i] && PlaceAt(more, i) == Stored(tss).1[i].tsMsp && Right(more, i) == Right(tss, i)
  {
    hide Stored;
    hide Rolls;
    hide Place;
    hide Right;
    var more, n := tss + [ts], |tss|;
    assert more[..n] == tss && forall i | 0 <= i < n :: more[i] == tss[i];
    StoredPrefix(more, n);
    forall i | 0 <= i < n
      ensures PlaceAt(more, i) == Stored(tss).1[i].tsMsp && Right(more, i) == Right(tss, i)
    {
      PlaceIs(more, i);
      SameRight(tss, ts, i);
    }
    LastRight(tss, ts);
  }

  lemma LastRight(tss: seq<nat>, ts: nat)
    ensures var p := Stored(tss).0; Right(tss + [ts], |tss|) <==> Rolls(p, ts) || p.mspLast <= ts
  {
    hide Stored;
    hide Rolls;
    assert (tss + [ts])[..|tss|] == tss;
  }

  lemma InOrderFits(tss: seq<nat>, ts: nat)
    requires InRange(tss + [ts]) && ReadsInOrder(tss + [ts])
    ensures ReadsInOrder(tss) && Fits(tss, ts)
  {
    hide Stored;
    hide Rolls;
    hide Before;
    hide Place;
    hide PlaceAt;
    hide Right;
    var more, n := tss + [ts], |tss|;
    MoreIs(tss, ts);
    InOrderIsRight(more);
    var p, items := Stored(tss).0, Stored(tss).1;
    assert more[n] == ts;
    forall i | 0 <= i < n
      ensures items[i].tsMsp < Place(p, ts) ==> tss[i] <= ts
      ensures Place(p, ts) < items[i].tsMsp ==> ts <= tss[i]
    {
      OutOfPlace(more, i, n);
      assert InPlace(more, i, n);
    }
    forall i, j | 0 <= i < n && 0 <= j < n && tss[i] < tss[j]
      ensures Before(Stored(tss).1[i], Stored(tss).1[j])
    {
      assert Stored(more).1[..n][i] == Stored(more).1[i] && Stored(more).1[..n][j] == Stored(more).1[j];
      assert more[i] < more[j];
    }
    assert Right(more, n);
    assert Fits(tss, ts);
  }

  lemma FitsInOrder(tss: seq<nat>, ts: nat)
    requires InRange(tss + [ts]) && ReadsInOrder(tss) && Fits(tss, ts)
    ensures ReadsInOrder(tss + [ts])
  {
    hide Stored;
    hide Rolls;
    hide Before;
    hide Place;
    hide PlaceAt;
    hide Right;
    var more, n := tss + [ts], |tss|;
    MoreIs(tss, ts);
    InOrderIsRight(tss);
    assert Right(more, n);
    forall i | 0 <= i < n
      ensures more[i] < ts ==> Before(Stored(more).1[i], Stored(more).1[n])
      ensures ts < more[i] ==> Before(Stored(more).1[n], Stored(more).1[i])
    {
      assert Right(tss, i) && InPlace(more, i, n);
      FarInOrder(more, i, n);
    }
    forall i, j | 0 <= i <= n && 0 <= j <= n && more[i] < more[j]
      ensures Before(Stored(more).1[i], Stored(more).1[j])
    {
      if i < n && j < n {
        assert tss[i] < tss[j];
        assert Stored(more).1[..n][i] == Stored(more).1[i] && Stored(more).1[..n][j] == Stored(more).1[j];
      }
    }
  }

  lemma SameRight(tss: seq<nat>, ts: nat, i: nat)
    requires i < |tss|
    ensures Right(tss + [ts], i) == Right(tss, i)
  {
    hide Stored;
    hide Rolls;
    assert (tss + [ts])[..i] == tss[..i];
  }

  /** Since a full partition was left, no event was older than one from before that. */
  ghost predicate NoStepBack(tss: seq<nat>) {
    forall i, k, j | 0 <= i < k <= j < |tss| && RolledFull(tss, k) :: tss[i] <= tss[j]
  }

  /** As long as no event turns back, out of place is the same as stepping back. */
  lemma ForwardOrderIff(tss: seq<nat>)
    requires InRange(tss) && Forward(tss)
    ensures ReadsInOrder(tss) <==> AllRight(tss) && NoStepBack(tss)
  {
    hide Stored;
    hide Right;
    hide TurnsBack;
    hide RolledFull;
    hide InPlace;
    hide ReadsInOrder;
    OrderIff(tss);
    forall i, k, j | 0 <= i < k <= j < |tss| && RolledFull(tss, k)
      ensures InPlace(tss, i, j) <==> tss[i] <= tss[j]
    {
      OverTheEnd(tss, i, k, j);
    }
  }

  lemma OverTheEnd(tss: seq<nat>, i: nat, k: nat, j: nat)
    requires InRange(tss) && Forward(tss) && i < k <= j < |tss| && RolledFull(tss, k)
    ensures InPlace(tss, i, j) <==> tss[i] <= tss[j]
  {
    hide Stored;
    hide Msp;
    hide PlaceAt;
    hide RolledFull;
    hide TurnsBack;
    PlaceIs(tss, i);
    PlaceIs(tss, j);
    MspGrows(tss, i + 1, k);
    MspGrows(tss, k + 1, j + 1);
    RolledFullBumps(tss, k);
    Placed(tss, k);
  }

  /** In terms of what is stored: it announces another partition before the hour is over. */
  lemma RolledFullBumps(tss: seq<nat>, k: nat)
    requires InRange(tss) && k < |tss|
    ensures RolledFull(tss, k) <==> Bumps(tss, k) && tss[k] < Msp(tss, k) + HOUR
  {
    hide Stored;
    hide Assigned;
    hide Grid;
    StoredAt(tss, k);
    MspOnGrid(tss, k);
    LeavesFull(Stored(tss[..k]).0, tss[k]);
  }

  lemma LeavesFull(p: Partition, ts: nat)
    requires p.mspLast + HOUR < U64
    ensures Assigned(p, ts, p.mspLast).1.mspBump && ts < p.mspLast + HOUR
       <==> p.inserted >= FULL && Grid(ts) != p.mspLast && ts < p.mspLast + HOUR
  {
    hide Grid;
    hide Wrap;
    WrapSmall(p.mspLast + HOUR);
  }

  /** Events in the order of their time are always read back in that order. */
  lemma SortedReadsInOrder(tss: seq<nat>)
    requires InRange(tss) && Sorted(tss)
    ensures ReadsInOrder(tss)
  {
    hide Stored;
    hide ReadsInOrder;
    hide Right;
    hide RolledFull;
    SortedIsRight(tss);
    ForwardOrderIff(tss);
  }

  // ---- two ways to be read out of order ----

  /** Two events, the second one 900 s older. It goes into the partition of the first with an offset
      that wraps around 64 bits: its time is lost, and it is read after the first. */
  lemma OldEventIsMisread()
    ensures var tss := [EPICS_EPOCH + 1000 * SEC, EPICS_EPOCH + 100 * SEC];
            && Stored(tss).1 == [Insert(EPICS_EPOCH + 1000 * SEC, 0, true),
                                 Insert(EPICS_EPOCH + 1000 * SEC, 0x1_0000_0000_0000_0000 - 900 * SEC, false)]
            && !Right(tss, 1) && !ReadsInOrder(tss) && Forward(tss) && NoStepBack(tss)
  {
    hide Stored;
    hide Grid;
    hide Wrap;
    var a, b := EPICS_EPOCH + 1000 * SEC, EPICS_EPOCH + 100 * SEC;
    var tss := [a, b];
    FirstPlaced(tss);
    assert Grid(a) == a by { GridFixes(a); }
    assert tss[..0] == [] && tss[..1] == [a] && tss[..2] == tss;
    StoredAt(tss, 0);
    FreshStored();
    assert Stored([a]).0 == Partition(a, 1) by { AssignedAtOnce(0, a); }
    StoredAt(tss, 1);
    WrapSmall(a + HOUR);
    WrapSmall(b - a);
    assert Stored(tss).1[1] == Insert(a, U64 - 900 * SEC, false);
    assert !RolledFull(tss, 1);
    assert Forward(tss) by {
      assert Grid(a) >= Stored([]).0.mspLast;
    }
    assert tss[1] < tss[0];
  }

  /** No event falls before the partition that is current when it arrives. */
  ghost predicate Timely(tss: seq<nat>) {
    forall i :: 0 <= i < |tss| ==> Msp(tss, i) <= tss[i] < U64 - HOUR
  }

  lemma TimelyIsRight(tss: seq<nat>)
    requires Timely(tss)
    ensures InRange(tss) && AllRight(tss) && Forward(tss)
  {
    hide Stored;
    hide Grid;
    hide Rolls;
    forall i | 0 <= i < |tss|
      ensures tss[i] < U64 - HOUR && Right(tss, i) && !TurnsBack(tss, i)
    {
      assert Msp(tss, i) <= tss[i];
      TimelyGrid(tss, i);
    }
  }

  lemma TimelyGrid(tss: seq<nat>, i: nat)
    requires Timely(tss) && i < |tss|
    ensures Msp(tss, i) <= Grid(tss[i])
  {
    hide Stored;
    hide Grid;
    assert InRange(tss) by {
      assert forall j :: 0 <= j < |tss| ==> Msp(tss, j) <= tss[j] < U64 - HOUR;
    }
    MspOnGrid(tss, i);
    assert Msp(tss, i) <= tss[i];
    GridKeeps(Msp(tss, i), tss[i]);
  }

  lemma {:induction false} ManyAtOnce(n: nat, ts: nat)
    requires 1 <= n <= FULL && Grid(ts) == ts && 0 < ts < U64 - HOUR
    ensures var tss := seq(n, _ => ts); Timely(tss) && Stored(tss).0 == Partition(ts, n)
  {
    hide Stored;
    hide Timely;
    hide Grid;
    var front := seq(n - 1, _ => ts);
    if n == 1 {
      assert front == [];
      NothingStored();
    } else {
      ManyAtOnce(n - 1, ts);
    }
    OneMoreAtOnce(front, ts);
    TimelySnoc(front, ts);
    assert seq(n, _ => ts) == front + [ts];
  }

  lemma NothingStored()
    ensures Timely([]) && Stored([]).0 == Fresh()
  {
  }

  lemma OneMoreAtOnce(tss: seq<nat>, ts: nat)
    requires |tss| < FULL && Grid(ts) == ts && 0 < ts < U64 - HOUR
    requires Stored(tss).0 == if |tss| == 0 then Fresh() else Partition(ts, |tss|)
    ensures Stored(tss + [ts]).0 == Partition(ts, |tss| + 1)
  {
    hide *;
    var more, n := tss + [ts], |tss|;
    StoredAt(more, n);
    assert more[..n] == tss && more[..n + 1] == more && more[n] == ts;
    var p := Stored(tss).0;
    AssignedAtOnce(n, ts);
    assert Assigned(p, ts, p.mspLast).0 == Partition(ts, n + 1);
  }

  lemma AssignedAtOnce(n: nat, ts: nat)
    requires n < FULL && Grid(ts) == ts && 0 < ts < U64 - HOUR
    ensures var p := if n == 0 then Fresh() else Partition(ts, n); Assigned(p, ts, p.mspLast).0 == Partition(ts, n + 1)
  {
    hide Grid;
    hide Wrap;
    WrapSmall(ts + HOUR);
    WrapSmall(n + 1);
  }

  lemma GridFixes(ts: nat)
    requires ts % (SEC * 10) == 0
    ensures Grid(ts) == ts
  {
  }

  lemma TimelySnoc(tss: seq<nat>, ts: nat)
    requires Timely(tss) && Stored(tss).0.mspLast <= ts < U64 - HOUR
    ensures Timely(tss + [ts])
  {
    hide Stored;
    var more := tss + [ts];
    forall i | 0 <= i < |more|
      ensures Msp(more, i) <= more[i] < U64 - HOUR
    {
      if i < |tss| {
        assert more[..i] == tss[..i];
        assert Msp(tss, i) <= tss[i];
      } else {
        assert more[..i] == tss;
      }
    }
  }

  /** 63999 events at 100 s after the epoch of Channel Access and one 3500 s later fill the partition.
      An event at 121 s then goes into a partition of its own, and is read after the one that is
      later. All of them are stored with their times. */
  lemma StepBackIsMisread()
    ensures var tss := seq(63999, _ => EPICS_EPOCH + 100 * SEC) + [EPICS_EPOCH + 3600 * SEC]
              + [EPICS_EPOCH + 121 * SEC];
            InRange(tss) && AllRight(tss) && Forward(tss) && !NoStepBack(tss) && !ReadsInOrder(tss)
  {
    hide Stored;
    hide Grid;
    hide Wrap;
    var t := EPICS_EPOCH;
    var a := seq(63999, _ => t + 100 * SEC);
    var b := a + [t + 3600 * SEC];
    var tss := b + [t + 121 * SEC];
    assert Grid(t + 100 * SEC) == t + 100 * SEC by { GridFixes(t + 100 * SEC); }
    ManyAtOnce(63999, t + 100 * SEC);
    TimelySnoc(a, t + 3600 * SEC);
    assert b[..63999] == a && b[..64000] == b;
    StoredAt(b, 63999);
    WrapSmall(t + 100 * SEC + HOUR);
    WrapSmall(64000);
    assert Stored(b).0 == Partition(t + 100 * SEC, 64000);
    TimelySnoc(b, t + 121 * SEC);
    TimelyIsRight(tss);
    assert tss[..64000] == b;
    assert Grid(t + 121 * SEC) == t + 120 * SEC by { GridOf121(); }
    assert RolledFull(tss, 64000);
    assert tss[63999] == t + 3600 * SEC && tss[64000] == t + 121 * SEC;
    assert !NoStepBack(tss);
    ForwardOrderIff(tss);
  }

  lemma GridOf121()
    ensures Grid(EPICS_EPOCH + 121 * SEC) == EPICS_EPOCH + 120 * SEC
  {
  }
}
