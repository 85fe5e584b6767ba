/**
 Where an event is stored (netfetch/src/ca/conn.rs): its timestamp is split into the start of a
 partition and an offset in it. Timestamps are 64-bit nanoseconds, whose arithmetic wraps around.
 */
module EventPartition {

  const SEC: nat := 1_000_000_000
  const HOUR: nat := 3600 * SEC
  const FULL: nat := 64000
  const U64: nat := 0x1_0000_0000_0000_0000

  /** The first second that Channel Access can express. */
  const EPICS_EPOCH: nat := 631152000 * SEC

  function Wrap(x: int): nat {
    x % U64
  }

  /** Cut down to a multiple of ten seconds. */
  function Grid(ts: nat): nat {
    ts / (SEC * 10) * (SEC * 10)
  }

  /** The current partition: its start, and how many events went into it. */
  datatype Partition = Partition(mspLast: nat, inserted: nat)

  /** What is stored: the partition, the offset, and whether the partition is announced with it. */
  datatype Insert = Insert(tsMsp: nat, tsLsp: nat, mspBump: bool)

  function Fresh(): Partition {
    Partition(0, U64 - 1)
  }

  predicate Rolls(p: Partition, ts: nat) {
    p.inserted >= FULL || Wrap(p.mspLast + HOUR) <= ts
  }

  /** `event_add_insert`: `msp` is the partition for events that do not roll it over. */
  function Assigned(p: Partition, ts: nat, msp: nat): (Partition, Insert) {
    if Rolls(p, ts) then
      if Grid(ts) == p.mspLast then (p, Insert(p.mspLast, Wrap(ts - p.mspLast), false))
      else (Partition(Grid(ts), 1), Insert(Grid(ts), Wrap(ts - Grid(ts)), true))
    else (p.(inserted := Wrap(p.inserted + 1)), Insert(msp, Wrap(ts - msp), false))
  }

  /** The extra copies that are configured, from the last to the first: copy i is stored i + 1 ns
      early, for the events whose running number is `copies[i].1` modulo `copies[i].0`. */
  function Copied(p: Partition, ts: nat, msp: nat, copies: seq<(nat, nat)>, counter: nat): (Partition, seq<Insert>)
    requires forall c :: c in copies ==> c.0 > 0
    decreases |copies|
  {
    if copies == [] then (p, [])
    else
      var n := |copies| - 1;
      if counter % copies[n].0 == copies[n].1 then
        var (q, item) := Assigned(p, Wrap(ts - 1 - n), msp);
        var (r, items) := Copied(q, ts, msp, copies[..n], counter);
        (r, [item] + items)
      else Copied(p, ts, msp, copies[..n], counter)
  }

  /** `do_event_insert`: the copies, then the event. */
  function Inserted(p: Partition, ts: nat, copies: seq<(nat, nat)>, counter: nat): (Partition, seq<Insert>)
    requires forall c :: c in copies ==> c.0 > 0
  {
    var (q, items) := Copied(p, ts, p.mspLast, copies, counter);
    var (r, item) := Assigned(q, ts, p.mspLast);
    (r, items + [item])
  }

  // ---- one event ----

  lemma GridFacts(ts: nat)
    ensures Grid(ts) <= ts < Grid(ts) + SEC * 10
    ensures Grid(ts) % (SEC * 10) == 0
  {
  }

  lemma GridKeeps(g: nat, ts: nat)
    requires g % (SEC * 10) == 0 && g <= ts
    ensures g <= Grid(ts)
  {
  }

  lemma WrapSmall(x: int)
    ensures 0 <= x < U64 ==> Wrap(x) == x
    ensures -(U64 as int) <= x < 0 ==> Wrap(x) == x + U64
  {
  }

  /** Partition and offset make up the timestamp exactly if the event does not fall before the
      partition it is put into. */
  lemma SplitIsRight(p: Partition, ts: nat, msp: nat)
    requires ts < U64 && msp < U64
    ensures var item := Assigned(p, ts, msp).1;
            item.tsMsp + item.tsLsp == ts <==> Rolls(p, ts) || msp <= ts
  {
    hide Grid;
    hide Wrap;
    GridFacts(ts);
    WrapSmall(ts - Grid(ts));
    WrapSmall(ts - p.mspLast);
    WrapSmall(ts - msp);
  }

  // ---- all events of a channel ----

  /** The partition after events with the given timestamps, and what was stored, without copies. */
  function Stored(tss: seq<nat>): (r: (Partition, seq<Insert>))
    ensures |r.1| == |tss|
  {
    if tss == [] then (Fresh(), [])
    else
      var (p, items) := Stored(tss[..|tss| - 1]);
      var (q, more) := Inserted(p, tss[|tss| - 1], [], 0);
      (q, items + more)
  }

  /** The start of the partition before event i. */
  function Msp(tss: seq<nat>, i: nat): nat
    requires i <= |tss|
  {
    Stored(tss[..i]).0.mspLast
  }

  /** The times are early enough that the end of their hour is a 64-bit time. */
  ghost predicate InRange(tss: seq<nat>) {
    forall i :: 0 <= i < |tss| ==> tss[i] < U64 - HOUR
  }

  /** The guard under which event i is stored with its time: it rolls the partition over, or is not
      older than the start of the current one. */
  ghost predicate Right(tss: seq<nat>, i: nat)
    requires i < |tss|
  {
    var p := Stored(tss[..i]).0;
    Rolls(p, tss[i]) || p.mspLast <= tss[i]
  }

  /** Event k leaves a full partition for an earlier one. */
  ghost predicate TurnsBack(tss: seq<nat>, k: nat)
    requires k < |tss|
  {
    var p := Stored(tss[..k]).0;
    p.inserted >= FULL && Grid(tss[k]) < p.mspLast
  }

  /** No event leaves a full partition for an earlier one. */
  ghost predicate Forward(tss: seq<nat>) {
    forall k :: 0 <= k < |tss| ==> !TurnsBack(tss, k)
  }

  lemma {:induction false} StoredPrefix(tss: seq<nat>, i: nat)
    requires i <= |tss|
    ensures Stored(tss[..i]).1 == Stored(tss).1[..i]
    decreases |tss| - i
  {
    hide Inserted;
    if i == |tss| {
      assert tss[..i] == tss;
    } else {
      StoredPrefix(tss, i + 1);
      var more := tss[..i + 1];
      assert more[..|more| - 1] == tss[..i];
    }
  }

  lemma StoredAt(tss: seq<nat>, i: nat)
    requires i < |tss|
    ensures var p := Stored(tss[..i]).0;
            Assigned(p, tss[i], p.mspLast) == (Stored(tss[..i + 1]).0, Stored(tss).1[i])
  {
    hide Assigned;
    hide Inserted;
    StoredPrefix(tss, i + 1);
    var more := tss[..i + 1];
    assert more[..|more| - 1] == tss[..i] && more[|more| - 1] == tss[i];
    var p := Stored(tss[..i]).0;
    PlainInsert(p, tss[i]);
    assert Stored(more).1[i] == Assigned(p, tss[i], p.mspLast).1;
  }

  lemma PlainInsert(p: Partition, ts: nat)
    ensures var (q, item) := Assigned(p, ts, p.mspLast); Inserted(p, ts, [], 0) == (q, [item])
  {
    hide Assigned;
    var item := Assigned(p, ts, p.mspLast).1;
    assert [] + [item] == [item];
  }

  /** One event, wherever it falls. */
  lemma AssignedFacts(p: Partition, ts: nat)
    requires p.mspLast % (SEC * 10) == 0 && p.mspLast < U64 - HOUR && ts < U64 - HOUR
    ensures var (q, item) := Assigned(p, ts, p.mspLast);
            && item.tsMsp == q.mspLast && (item.mspBump <==> q.mspLast != p.mspLast)
            && (item.mspBump ==> q.mspLast == Grid(ts) && (p.inserted >= FULL || p.mspLast + HOUR <= ts))
            && q.mspLast % (SEC * 10) == 0 && q.mspLast < U64 - HOUR
            && (q.mspLast < p.mspLast <==> p.inserted >= FULL && Grid(ts) < p.mspLast)
    ensures var (q, item) := Assigned(p, ts, p.mspLast);
            var right := Rolls(p, ts) || p.mspLast <= ts;
            && (item.tsMsp + item.tsLsp == ts <==> right) && (item.tsLsp < HOUR <==> right)
            && (right ==> q.mspLast <= ts < q.mspLast + HOUR)
            && (!right ==> q.mspLast == p.mspLast && ts < p.mspLast)
  {
    hide Grid;
    hide Wrap;
    GridFacts(ts);
    WrapSmall(ts - Grid(ts));
    WrapSmall(ts - p.mspLast);
    WrapSmall(p.mspLast + HOUR);
    if p.mspLast <= ts {
      GridKeeps(p.mspLast, ts);
    }
  }

  lemma {:induction false} MspOnGrid(tss: seq<nat>, i: nat)
    requires InRange(tss) && i <= |tss|
    ensures Msp(tss, i) % (SEC * 10) == 0 && Msp(tss, i) < U64 - HOUR
  {
    hide Assigned;
    hide Stored;
    if i == 0 {
      FirstMsp(tss);
    } else {
      MspOnGrid(tss, i - 1);
      StoredAt(tss, i - 1);
      AssignedFacts(Stored(tss[..i - 1]).0, tss[i - 1]);
    }
  }

  /** What happens to event i: it goes into the partition that is current afterwards, which is
      announced exactly if it is another one than before. Its time is stored, and its offset less than
      an hour, exactly if it is right. The partition is an earlier one exactly if it turns back. */
  lemma Placed(tss: seq<nat>, i: nat)
    requires InRange(tss) && i < |tss|
    ensures var item := Stored(tss).1[i];
            && item.tsMsp == Msp(tss, i + 1) && (item.mspBump <==> Msp(tss, i + 1) != Msp(tss, i))
            && (item.tsMsp + item.tsLsp == tss[i] <==> Right(tss, i)) && (item.tsLsp < HOUR <==> Right(tss, i))
    ensures Msp(tss, i + 1) % (SEC * 10) == 0 && (Msp(tss, i + 1) < Msp(tss, i) <==> TurnsBack(tss, i))
    ensures if Right(tss, i) then Msp(tss, i + 1) <= tss[i] < Msp(tss, i + 1) + HOUR
            else Msp(tss, i + 1) == Msp(tss, i) > tss[i]
    ensures Stored(tss).1[i].mspBump ==> Msp(tss, i + 1) == Grid(tss[i])
  {
    hide Assigned;
    hide Stored;
    hide Rolls;
    hide Grid;
    StoredAt(tss, i);
    MspOnGrid(tss, i);
    AssignedFacts(Stored(tss[..i]).0, tss[i]);
  }

  /** Over whole runs: event i is stored with its time exactly if it is right. */
  lemma SplitIff(tss: seq<nat>, i: nat)
    requires InRange(tss) && i < |tss|
    ensures var item, p := Stored(tss).1[i], Stored(tss[..i]).0;
            item.tsMsp + item.tsLsp == tss[i] <==> Rolls(p, tss[i]) || p.mspLast <= tss[i]
  {
    hide Stored;
    hide Rolls;
    hide Msp;
    Placed(tss, i);
  }

  lemma {:induction false} MspGrows(tss: seq<nat>, i: nat, j: nat)
    requires InRange(tss) && Forward(tss) && i <= j <= |tss|
    ensures Msp(tss, i) <= Msp(tss, j)
    decreases j - i
  {
    hide Msp;
    hide TurnsBack;
    if i < j {
      MspGrows(tss, i, j - 1);
      Placed(tss, j - 1);
    }
  }

  /** The events come in the order of their time. */
  ghost predicate Sorted(tss: seq<nat>) {
    forall i, j :: 0 <= i <= j < |tss| ==> tss[i] <= tss[j]
  }

  /** Then each is stored with its time, and none turns back. */
  lemma SortedIsRight(tss: seq<nat>)
    requires InRange(tss) && Sorted(tss)
    ensures Forward(tss) && forall i :: 0 <= i < |tss| ==> Right(tss, i)
  {
    hide Right;
    hide TurnsBack;
    forall i | 0 <= i < |tss|
      ensures Right(tss, i) && !TurnsBack(tss, i)
    {
      SortedAt(tss, i);
    }
  }

  lemma {:induction false} SortedAt(tss: seq<nat>, i: nat)
    requires InRange(tss) && Sorted(tss) && i < |tss|
    ensures Msp(tss, i) <= tss[i] && Right(tss, i) && !TurnsBack(tss, i)
  {
    hide Stored;
    hide Grid;
    hide Rolls;
    MspOnGrid(tss, i);
    if i == 0 {
      FirstMsp(tss);
    } else {
      SortedAt(tss, i - 1);
      Placed(tss, i - 1);
    }
    GridKeeps(Msp(tss, i), tss[i]);
  }

  // ---- announcements ----

  /** Event k announces a partition. */
  predicate Bumps(tss: seq<nat>, k: nat)
    requires k < |tss|
  {
    Stored(tss).1[k].mspBump
  }

  /** The partition that is current before event i was announced by an earlier one. */
  lemma {:induction false} FindOpener(tss: seq<nat>, i: nat) returns (k: nat)
    requires InRange(tss) && i <= |tss|
    requires Msp(tss, i) > 0 || (i > 0 && tss[0] >= SEC * 10)
    ensures k < i && Bumps(tss, k) && Stored(tss).1[k].tsMsp == Msp(tss, k + 1) == Msp(tss, i)
    ensures forall x :: k < x < i ==> !Bumps(tss, x)
  {
    hide Stored;
    hide Msp;
    hide Right;
    hide TurnsBack;
    FirstMsp(tss);
    Placed(tss, i - 1);
    if Bumps(tss, i - 1) {
      k := i - 1;
    } else {
      if i == 1 {
        FirstBumps(tss);
      }
      k := FindOpener(tss, i - 1);
    }
  }

  lemma FirstMsp(tss: seq<nat>)
    ensures Msp(tss, 0) == 0
  {
    assert tss[..0] == [];
  }

  lemma FirstPlaced(tss: seq<nat>)
    requires tss != [] && tss[0] < U64
    ensures Stored(tss).1[0] == Insert(Grid(tss[0]), tss[0] - Grid(tss[0]), Grid(tss[0]) != 0)
    ensures Grid(tss[0]) == 0 <==> tss[0] < SEC * 10
  {
    hide Stored;
    StoredAt(tss, 0);
    assert tss[..0] == [];
    FreshStored();
    WrapSmall(tss[0] - Grid(tss[0]));
    GridFacts(tss[0]);
  }

  lemma FirstBumps(tss: seq<nat>)
    requires tss != [] && tss[0] < U64
    ensures Bumps(tss, 0) <==> tss[0] >= SEC * 10
  {
    hide Stored;
    FirstPlaced(tss);
  }

  lemma FreshStored()
    ensures Stored([]).0 == Fresh()
  {
  }

  /** Later announcements are of later partitions, exactly if no event leaves a full partition for an
      earlier one. */
  lemma AnnouncementsIncrease(tss: seq<nat>)
    requires InRange(tss)
    ensures (forall i, j | 0 <= i < j < |tss| && Bumps(tss, i) && Bumps(tss, j) ::
               Stored(tss).1[i].tsMsp < Stored(tss).1[j].tsMsp)
       <==> Forward(tss)
  {
    hide Stored;
    hide Msp;
    hide Right;
    hide TurnsBack;
    hide Bumps;
    if Forward(tss) {
      forall i, j | 0 <= i < j < |tss| && Bumps(tss, i) && Bumps(tss, j)
        ensures Stored(tss).1[i].tsMsp < Stored(tss).1[j].tsMsp
      {
        LaterAnnouncement(tss, i, j);
      }
    }
    if k :| 0 <= k < |tss| && TurnsBack(tss, k) {
      var i := EarlierAnnouncement(tss, k);
    }
  }

  lemma LaterAnnouncement(tss: seq<nat>, i: nat, j: nat)
    requires InRange(tss) && Forward(tss) && i < j < |tss| && Bumps(tss, j)
    ensures Stored(tss).1[i].tsMsp < Stored(tss).1[j].tsMsp
  {
    hide Stored;
    hide Msp;
    hide Right;
    hide TurnsBack;
    Placed(tss, i);
    Placed(tss, j);
    MspGrows(tss, i + 1, j);
  }

  lemma EarlierAnnouncement(tss: seq<nat>, k: nat) returns (i: nat)
    requires InRange(tss) && k < |tss| && TurnsBack(tss, k)
    ensures i < k && Bumps(tss, i) && Bumps(tss, k) && Stored(tss).1[k].tsMsp < Stored(tss).1[i].tsMsp
  {
    hide Stored;
    hide Msp;
    hide Right;
    hide TurnsBack;
    Placed(tss, k);
    i := FindOpener(tss, k);
  }

  ghost predicate Announces(items: seq<Insert>, j: nat, i: nat)
    requires i < |items| && j < |items|
  {
    items[j].mspBump && items[j].tsMsp == items[i].tsMsp
  }

  /** The partition of item i was announced with it or before. */
  ghost predicate Announced(items: seq<Insert>, i: nat)
    requires i < |items|
  {
    exists j :: 0 <= j <= i && Announces(items, j, i)
  }

  /** Without copies the index of partitions is complete exactly if the first event is not within ten
      seconds of the epoch: every partition in use was announced, at its first use or before. And no
      partition is announced twice if no event leaves a full one for an earlier one. */
  lemma IndexIsComplete(tss: seq<nat>)
    requires InRange(tss) && tss != []
    ensures (forall i :: 0 <= i < |tss| ==> Announced(Stored(tss).1, i)) <==> tss[0] >= SEC * 10
    ensures Forward(tss) ==>
              forall i, j, k | 0 <= i < |tss| && 0 <= j < |tss| && 0 <= k < |tss| ::
                Announces(Stored(tss).1, j, i) && Announces(Stored(tss).1, k, i) ==> j == k
  {
    hide Stored;
    hide Msp;
    hide Grid;
    hide Right;
    hide TurnsBack;
    FirstBumps(tss);
    if tss[0] >= SEC * 10 {
      forall i | 0 <= i < |tss|
        ensures Announced(Stored(tss).1, i)
      {
        Placed(tss, i);
        var j := FindOpener(tss, i + 1);
        assert Announces(Stored(tss).1, j, i);
      }
    } else {
      assert !Announces(Stored(tss).1, 0, 0);
      assert !Announced(Stored(tss).1, 0);
    }
    if Forward(tss) {
      forall i, j, k | 0 <= i < |tss| && 0 <= j < |tss| && 0 <= k < |tss|
                       && Announces(Stored(tss).1, j, i) && Announces(Stored(tss).1, k, i)
        ensures j == k
      {
        if j < k {
          LaterAnnouncement(tss, j, k);
        } else if k < j {
          LaterAnnouncement(tss, k, j);
        }
      }
    }
  }

  // ---- the size of the partitions ----

  /** How many of the items are in the partition. */
  function Count(items: seq<Insert>, msp: nat): nat {
    if items == [] then 0
    else Count(items[..|items| - 1], msp) + if items[|items| - 1].tsMsp == msp then 1 else 0
  }

  lemma CountSnoc(items: seq<Insert>, item: Insert, msp: nat)
    ensures Count(items + [item], msp) == Count(items, msp) + if item.tsMsp == msp then 1 else 0
  {
    assert (items + [item])[..|items|] == items;
  }

  lemma {:induction false} CountNone(items: seq<Insert>, msp: nat)
    requires forall x :: x in items ==> x.tsMsp != msp
    ensures Count(items, msp) == 0
  {
    if items != [] {
      CountNone(items[..|items| - 1], msp);
    }
  }

  /** The counter of a partition is right until the partition is full. */
  lemma {:induction false} CounterIsRight(tss: seq<nat>, i: nat)
    requires InRange(tss) && Forward(tss) && i <= |tss|
    ensures var p, n := Stored(tss[..i]).0, Count(Stored(tss).1[..i], Msp(tss, i));
            && (p.inserted < FULL ==> n == p.inserted)
            && (p.mspLast > 0 && p.inserted >= FULL ==> n >= p.inserted)
  {
    hide Stored;
    hide Grid;
    hide Wrap;
    hide Count;
    hide Rolls;
    if i == 0 {
      assert tss[..0] == [];
      assert Stored([]).0 == Fresh() by { FreshStored(); }
    } else {
      CounterIsRight(tss, i - 1);
      StoredAt(tss, i - 1);
      Placed(tss, i - 1);
      var items, item := Stored(tss).1[..i - 1], Stored(tss).1[i - 1];
      assert Stored(tss).1[..i] == items + [item];
      CountSnoc(items, item, Msp(tss, i));
      WrapSmall(Stored(tss[..i - 1]).0.inserted + 1);
      if item.mspBump {
        CountBefore(tss, i - 1);
      }
      CountsUp(Stored(tss[..i - 1]).0, tss[i - 1]);
    }
  }

  lemma CountsUp(p: Partition, ts: nat)
    ensures var (q, item) := Assigned(p, ts, p.mspLast);
            && (item.mspBump ==> q.inserted == 1)
            && (!item.mspBump ==> q.inserted == p.inserted || (p.inserted < FULL && q.inserted == p.inserted + 1))
            && (!item.mspBump && p.inserted < FULL && p.mspLast + HOUR < U64 && p.mspLast <= ts ==>
                  q.inserted == p.inserted + 1)
  {
    hide Grid;
    hide Wrap;
    WrapSmall(p.inserted + 1);
    WrapSmall(p.mspLast + HOUR);
    GridFacts(ts);
  }

  lemma CountBefore(tss: seq<nat>, k: nat)
    requires InRange(tss) && Forward(tss) && k < |tss| && Stored(tss).1[k].mspBump
    ensures Count(Stored(tss).1[..k], Msp(tss, k + 1)) == 0
  {
    hide Stored;
    hide Msp;
    Placed(tss, k);
    forall i | 0 <= i < k
      ensures Stored(tss).1[i].tsMsp != Msp(tss, k + 1)
    {
      Placed(tss, i);
      MspGrows(tss, i + 1, k);
    }
    CountNone(Stored(tss).1[..k], Msp(tss, k + 1));
  }

  /** An event goes into a partition that is full already only within ten seconds of its start. */
  lemma OverfullIsShort(tss: seq<nat>, i: nat)
    requires InRange(tss) && Forward(tss) && i < |tss| && Count(Stored(tss).1[..i], Stored(tss).1[i].tsMsp) >= FULL
    ensures Msp(tss, i + 1) <= tss[i] < Msp(tss, i + 1) + SEC * 10
  {
    hide Stored;
    hide Grid;
    hide Wrap;
    hide Count;
    CounterIsRight(tss, i);
    StoredAt(tss, i);
    Placed(tss, i);
    GridFacts(tss[i]);
    if Stored(tss).1[i].mspBump {
      CountBefore(tss, i);
    }
  }

  /** A partition of more than 64000 events, in the order of their time, spans less than ten seconds. */
  lemma OverfullSpansTenSeconds(tss: seq<nat>, i: nat, j: nat)
    requires InRange(tss) && Sorted(tss)
    requires j <= i < |tss| && Stored(tss).1[j].tsMsp == Stored(tss).1[i].tsMsp
    requires Count(Stored(tss).1[..i], Stored(tss).1[i].tsMsp) >= FULL
    ensures Msp(tss, i + 1) <= tss[j] <= tss[i] < Msp(tss, i + 1) + SEC * 10
  {
    hide Stored;
    hide Count;
    hide Msp;
    SortedIsRight(tss);
    hide Right;
    hide TurnsBack;
    OverfullIsShort(tss, i);
    Placed(tss, j);
    Placed(tss, i);
  }

  /** No partition is left early: it is full, or its hour is over, or it is the initial one. */
  lemma LeftWhenDone(tss: seq<nat>, i: nat)
    requires InRange(tss) && Forward(tss) && i < |tss| && Stored(tss).1[i].mspBump
    ensures Msp(tss, i) == 0 || Count(Stored(tss).1[..i], Msp(tss, i)) >= FULL || tss[i] >= Msp(tss, i) + HOUR
  {
    hide Stored;
    hide Grid;
    hide Wrap;
    hide Count;
    hide Msp;
    CounterIsRight(tss, i);
    StoredAt(tss, i);
    MspIs(tss, i);
    MspOnGrid(tss, i);
    RollsWhenDone(Stored(tss[..i]).0, tss[i]);
  }

  lemma MspIs(tss: seq<nat>, i: nat)
    requires i <= |tss|
    ensures Msp(tss, i) == Stored(tss[..i]).0.mspLast
  {
  }

  lemma RollsWhenDone(p: Partition, ts: nat)
    requires p.mspLast + HOUR < U64
    ensures Assigned(p, ts, p.mspLast).1.mspBump ==> p.inserted >= FULL || ts >= p.mspLast + HOUR
  {
    hide Grid;
    hide Wrap;
    WrapSmall(p.mspLast + HOUR);
  }
}
