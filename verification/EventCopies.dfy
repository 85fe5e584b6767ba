/**
 Events that are stored with extra copies (netfetch/src/ca/conn.rs). No code sets the configuration
 of copies yet; the insertion works with any.
 */
module EventCopies {
  import opened EventPartition

  type Copies = seq<(nat, nat)>

  ghost predicate Positive(copies: Copies) {
    forall c :: c in copies ==> c.0 > 0
  }

  /** Some copy is stored of the event with this running number. */
  ghost predicate Fires(copies: Copies, counter: nat)
    requires Positive(copies)
  {
    exists c :: c in copies && counter % c.0 == c.1
  }

  /** The partition after events with the given timestamps and running numbers, and what was stored. */
  function StoredWith(copies: Copies, events: seq<(nat, nat)>): (r: (Partition, seq<Insert>))
    requires Positive(copies)
  {
    if events == [] then (Fresh(), [])
    else
      var (p, items) := StoredWith(copies, events[..|events| - 1]);
      var (ts, counter) := events[|events| - 1];
      var (q, more) := Inserted(p, ts, copies, counter);
      (q, items + more)
  }

  function Stamps(events: seq<(nat, nat)>): seq<nat> {
    seq(|events|, i requires 0 <= i < |events| => events[i].0)
  }

  /** Without copies the running numbers do not matter. */
  lemma {:induction false} StoredPlain(events: seq<(nat, nat)>)
    ensures StoredWith([], events) == Stored(Stamps(events))
  {
    hide Assigned;
    if events != [] {
      var front := events[..|events| - 1];
      StoredPlain(front);
      assert Stamps(events)[..|events| - 1] == Stamps(front);
    }
  }

  /** Every event is stored once, and each of its copies at most once. */
  lemma {:induction false} ItemsPerEvent(copies: Copies, events: seq<(nat, nat)>)
    requires Positive(copies)
    ensures |events| <= |StoredWith(copies, events).1| <= |events| * (|copies| + 1)
  {
    hide Inserted;
    if events != [] {
      var front := events[..|events| - 1];
      var (ts, counter) := events[|events| - 1];
      ItemsPerEvent(copies, front);
      InsertedSize(StoredWith(copies, front).0, ts, copies, counter);
      assert |events| * (|copies| + 1) == |front| * (|copies| + 1) + (|copies| + 1);
    }
  }

  // ---- when the copies are ----

  /** The time that is read back from what is stored. */
  function TimeOf(item: Insert): nat {
    Wrap(item.tsMsp + item.tsLsp)
  }

  /** The copies of an event, in the order in which they are stored. */
  ghost predicate CopyOrder(copies: Copies, counter: nat, order: seq<nat>)
    requires Positive(copies)
  {
    && (forall j :: 0 <= j < |order| ==> order[j] < |copies|)
    && (forall j, k :: 0 <= j < k < |order| ==> order[j] > order[k])
    && forall i :: 0 <= i < |copies| ==> (i in order <==> counter % copies[i].0 == copies[i].1)
  }

  /** Copy i + 1 comes before copy i, each one nanosecond earlier, and the event comes last, with its
      own time: whatever the partitions are, these are the times that are read back, up to the range
      of 64 bits. */
  lemma CopiesAreEarlier(p: Partition, ts: nat, copies: Copies, counter: nat) returns (order: seq<nat>)
    requires Positive(copies)
    ensures CopyOrder(copies, counter, order)
    ensures var items := Inserted(p, ts, copies, counter).1;
            && |items| == |order| + 1 && TimeOf(items[|order|]) == Wrap(ts)
            && forall j :: 0 <= j < |order| ==> TimeOf(items[j]) == Wrap(ts - 1 - order[j])
  {
    hide Assigned;
    hide TimeOf;
    order := CopiesInOrder(p, ts, p.mspLast, copies, counter);
    TimeIsKept(Copied(p, ts, p.mspLast, copies, counter).0, ts, p.mspLast);
  }

  lemma {:induction false} CopiesInOrder(p: Partition, ts: nat, msp: nat, copies: Copies, counter: nat)
    returns (order: seq<nat>)
    requires Positive(copies)
    ensures CopyOrder(copies, counter, order)
    ensures var items := Copied(p, ts, msp, copies, counter).1;
            |items| == |order| && forall j :: 0 <= j < |order| ==> TimeOf(items[j]) == Wrap(ts - 1 - order[j])
    decreases |copies|
  {
    hide Assigned;
    hide TimeOf;
    hide Wrap;
    hide CopyOrder;
    if copies == [] {
      order := [];
      assert CopyOrder([], counter, []) by { NothingCopied(counter); }
    } else {
      var n := |copies| - 1;
      if counter % copies[n].0 == copies[n].1 {
        var (q, item) := Assigned(p, Wrap(ts - 1 - n), msp);
        var rest := CopiesInOrder(q, ts, msp, copies[..n], counter);
        TimeIsKept(p, Wrap(ts - 1 - n), msp);
        WrapTwice(ts - 1 - n);
        order := [n] + rest;
        OneMoreCopy(copies, counter, rest);
      } else {
        order := CopiesInOrder(p, ts, msp, copies[..n], counter);
        SameCopies(copies, counter, order);
      }
    }
  }

  lemma NothingCopied(counter: nat)
    ensures CopyOrder([], counter, [])
  {
  }

  lemma OneMoreCopy(copies: Copies, counter: nat, rest: seq<nat>)
    requires Positive(copies) && copies != []
    requires var n := |copies| - 1;
             CopyOrder(copies[..n], counter, rest) && counter % copies[n].0 == copies[n].1
    ensures CopyOrder(copies, counter, [|copies| - 1] + rest)
  {
  }

  lemma SameCopies(copies: Copies, counter: nat, order: seq<nat>)
    requires Positive(copies) && copies != []
    requires var n := |copies| - 1;
             CopyOrder(copies[..n], counter, order) && counter % copies[n].0 != copies[n].1
    ensures CopyOrder(copies, counter, order)
  {
    assert |copies| - 1 !in order;
  }

  lemma TimeIsKept(p: Partition, ts: nat, msp: nat)
    ensures TimeOf(Assigned(p, ts, msp).1) == Wrap(ts)
  {
    WrapDifference(p.mspLast, ts);
    WrapDifference(Grid(ts), ts);
    WrapDifference(msp, ts);
  }

  lemma WrapDifference(a: nat, b: nat)
    ensures Wrap(a + Wrap(b - a)) == Wrap(b)
  {
  }

  lemma WrapTwice(a: int)
    ensures Wrap(Wrap(a)) == Wrap(a)
  {
  }

  lemma InsertedSize(p: Partition, ts: nat, copies: Copies, counter: nat)
    requires Positive(copies)
    ensures 1 <= |Inserted(p, ts, copies, counter).1| <= |copies| + 1
  {
    CopiedSize(p, ts, p.mspLast, copies, counter);
  }

  lemma {:induction false} CopiedSize(p: Partition, ts: nat, msp: nat, copies: Copies, counter: nat)
    requires Positive(copies)
    ensures |Copied(p, ts, msp, copies, counter).1| <= |copies|
    decreases |copies|
  {
    hide Assigned;
    if copies != [] {
      var n := |copies| - 1;
      CopiedSize(p, ts, msp, copies[..n], counter);
      CopiedSize(Assigned(p, Wrap(ts - 1 - n), msp).0, ts, msp, copies[..n], counter);
    }
  }

  // ---- what is announced stays announced ----

  /** The partition was announced with one of the items. */
  ghost predicate Known(items: seq<Insert>, msp: nat) {
    exists x :: x in items && x.mspBump && x.tsMsp == msp
  }

  ghost predicate Complete(items: seq<Insert>) {
    forall i :: 0 <= i < |items| ==> Announced(items, i)
  }

  lemma CompleteSnoc(items: seq<Insert>, item: Insert)
    requires Complete(items) && (item.mspBump || Known(items, item.tsMsp))
    ensures Complete(items + [item])
  {
    var more := items + [item];
    forall i | 0 <= i < |more|
      ensures Announced(more, i)
    {
      if i < |items| {
        assert Announced(items, i);
        var j :| 0 <= j <= i && Announces(items, j, i);
        assert Announces(more, j, i);
      } else if item.mspBump {
        assert Announces(more, i, i);
      } else {
        var x :| x in items && x.mspBump && x.tsMsp == item.tsMsp;
        var j :| 0 <= j < |items| && items[j] == x;
        assert Announces(more, j, i);
      }
    }
  }

  lemma {:induction false} KnownAndComplete(p: Partition, ts: nat, msp: nat, items: seq<Insert>)
    requires Complete(items) && Known(items, msp) && Known(items, p.mspLast)
    ensures var (q, item) := Assigned(p, ts, msp);
            Complete(items + [item]) && Known(items + [item], msp) && Known(items + [item], q.mspLast)
  {
    hide Grid;
    hide Wrap;
    hide Complete;
    var (q, item) := Assigned(p, ts, msp);
    CompleteSnoc(items, item);
    assert item in items + [item];
  }

  lemma {:induction false} CopiesComplete(p: Partition, ts: nat, msp: nat, copies: Copies, counter: nat,
                                          items: seq<Insert>)
    requires Positive(copies) && Complete(items) && Known(items, msp) && Known(items, p.mspLast)
    ensures var (q, more) := Copied(p, ts, msp, copies, counter);
            Complete(items + more) && Known(items + more, msp) && Known(items + more, q.mspLast)
    decreases |copies|
  {
    hide Assigned;
    hide Complete;
    hide Known;
    if copies == [] {
      assert items + [] == items;
    } else {
      var n := |copies| - 1;
      if counter % copies[n].0 == copies[n].1 {
        var (q, item) := Assigned(p, Wrap(ts - 1 - n), msp);
        KnownAndComplete(p, Wrap(ts - 1 - n), msp, items);
        CopiesComplete(q, ts, msp, copies[..n], counter, items + [item]);
        var more := Copied(q, ts, msp, copies[..n], counter).1;
        assert items + ([item] + more) == (items + [item]) + more;
      } else {
        CopiesComplete(p, ts, msp, copies[..n], counter, items);
      }
    }
  }

  lemma InsertedComplete(p: Partition, ts: nat, copies: Copies, counter: nat, items: seq<Insert>)
    requires Positive(copies) && Complete(items) && Known(items, p.mspLast)
    ensures var (q, more) := Inserted(p, ts, copies, counter);
            Complete(items + more) && Known(items + more, q.mspLast)
  {
    hide Assigned;
    hide Complete;
    hide Known;
    hide Copied;
    var (q, more) := Copied(p, ts, p.mspLast, copies, counter);
    CopiesComplete(p, ts, p.mspLast, copies, counter, items);
    KnownAndComplete(q, ts, p.mspLast, items + more);
    var item := Assigned(q, ts, p.mspLast).1;
    assert items + (more + [item]) == (items + more) + [item];
  }

  // ---- the first event ----

  lemma {:induction false} NothingFires(p: Partition, ts: nat, msp: nat, copies: Copies, counter: nat)
    requires Positive(copies) && !Fires(copies, counter)
    ensures Copied(p, ts, msp, copies, counter) == (p, [])
    decreases |copies|
  {
    hide Assigned;
    if copies != [] {
      var n := |copies| - 1;
      assert copies[n] in copies;
      assert forall c :: c in copies[..n] ==> c in copies;
      NothingFires(p, ts, msp, copies[..n], counter);
    }
  }

  lemma FirstRolls(ts: nat)
    requires SEC * 10 <= ts < U64
    ensures var (q, item) := Assigned(Fresh(), ts, 0);
            && q == Partition(Grid(ts), 1) && item.mspBump && item.tsMsp == Grid(ts)
            && 0 < ts - SEC * 10 + 1 <= Grid(ts) <= ts
  {
    GridFacts(ts);
  }

  /** After the first item of the first event, the next one goes into partition 0. */
  lemma {:induction false} NextIsLost(p: Partition, ts: nat, copies: Copies, counter: nat)
    requires Positive(copies) && |copies| < ts < p.mspLast + HOUR < U64 && p.inserted == 1
    ensures var (q, more) := Copied(p, ts, 0, copies, counter);
            var items := more + [Assigned(q, ts, 0).1];
            items[0].tsMsp == 0 && !items[0].mspBump
    decreases |copies|
  {
    hide Grid;
    if copies == [] {
      WrapSmall(p.mspLast + HOUR);
    } else {
      var n := |copies| - 1;
      if counter % copies[n].0 == copies[n].1 {
        WrapSmall(ts - 1 - n);
        WrapSmall(p.mspLast + HOUR);
        var (q, item) := Assigned(p, Wrap(ts - 1 - n), 0);
        assert item.tsMsp == 0 && !item.mspBump;
      } else {
        NextIsLost(p, ts, copies[..n], counter);
      }
    }
  }

  /** If a copy fires at the first event, then the first item is announced and the second is in
      partition 0. */
  lemma {:induction false} SecondIsLost(ts: nat, copies: Copies, counter: nat)
    requires Positive(copies) && Fires(copies, counter)
    requires |copies| <= HOUR - SEC * 10 && HOUR <= ts < U64 - HOUR
    ensures var (q, more) := Copied(Fresh(), ts, 0, copies, counter);
            var items := more + [Assigned(q, ts, 0).1];
            |items| >= 2 && items[0].tsMsp > 0 && items[1].tsMsp == 0 && !items[1].mspBump
    decreases |copies|
  {
    hide Assigned;
    var n := |copies| - 1;
    if counter % copies[n].0 == copies[n].1 {
      WrapSmall(ts - 1 - n);
      FirstRolls(ts - 1 - n);
      var (q, item) := Assigned(Fresh(), ts - 1 - n, 0);
      NextIsLost(q, ts, copies[..n], counter);
      var (r, more) := Copied(q, ts, 0, copies[..n], counter);
      assert ([item] + more) + [Assigned(r, ts, 0).1] == [item] + (more + [Assigned(r, ts, 0).1]);
    } else {
      assert forall c :: c in copies ==> c == copies[n] || c in copies[..n];
      SecondIsLost(ts, copies[..n], counter);
    }
  }

  // ---- all events ----

  lemma {:induction false} StoredExtends(copies: Copies, events: seq<(nat, nat)>)
    requires Positive(copies) && events != []
    ensures StoredWith(copies, events[..1]).1 <= StoredWith(copies, events).1
  {
    hide Inserted;
    if |events| == 1 {
      assert events[..1] == events;
    } else {
      var front := events[..|events| - 1];
      assert front[..1] == events[..1];
      StoredExtends(copies, front);
    }
  }

  lemma StoredFirst(copies: Copies, events: seq<(nat, nat)>)
    requires Positive(copies) && events != []
    ensures StoredWith(copies, events[..1]) == Inserted(Fresh(), events[0].0, copies, events[0].1)
  {
    hide Inserted;
    assert events[..1][..0] == [];
    var items := Inserted(Fresh(), events[0].0, copies, events[0].1).1;
    assert [] + items == items;
  }

  lemma {:induction false} CompleteRun(copies: Copies, events: seq<(nat, nat)>)
    requires Positive(copies) && events != [] && !Fires(copies, events[0].1) && SEC * 10 <= events[0].0 < U64
    ensures var (p, items) := StoredWith(copies, events); Complete(items) && Known(items, p.mspLast)
  {
    hide Inserted;
    hide Complete;
    hide Known;
    if |events| == 1 {
      assert events[..1] == events;
      StoredFirst(copies, events);
      FirstComplete(events[0].0, copies, events[0].1);
    } else {
      var front := events[..|events| - 1];
      var (ts, counter) := events[|events| - 1];
      CompleteRun(copies, front);
      var (p, items) := StoredWith(copies, front);
      InsertedComplete(p, ts, copies, counter, items);
    }
  }

  lemma FirstComplete(ts: nat, copies: Copies, counter: nat)
    requires Positive(copies) && !Fires(copies, counter) && SEC * 10 <= ts < U64
    ensures var (p, items) := Inserted(Fresh(), ts, copies, counter); Complete(items) && Known(items, p.mspLast)
  {
    hide Assigned;
    NothingFires(Fresh(), ts, 0, copies, counter);
    FirstRolls(ts);
    var item := Assigned(Fresh(), ts, 0).1;
    assert [] + [item] == [item];
    assert Announces([item], 0, 0);
    assert item in [item];
  }

  /** Whatever is stored for a channel of Channel Access, in whatever order: the partition of every
      item was announced with it or before, exactly if the first event that is inserted has no copy.
      So many copies that the list does not fit in memory are left out. */
  lemma CopiesAreAnnouncedIff(copies: Copies, events: seq<(nat, nat)>)
    requires Positive(copies) && |copies| <= HOUR - SEC * 10
    requires events != [] && EPICS_EPOCH <= events[0].0 < U64 - HOUR
    ensures var items := StoredWith(copies, events).1;
            (forall i :: 0 <= i < |items| ==> Announced(items, i)) <==> !Fires(copies, events[0].1)
  {
    hide Inserted;
    hide StoredWith;
    hide Fires;
    var items := StoredWith(copies, events).1;
    if Fires(copies, events[0].1) {
      StoredExtends(copies, events);
      StoredFirst(copies, events);
      FirstLost(events[0].0, copies, events[0].1);
      var first := StoredWith(copies, events[..1]).1;
      assert items[0] == first[0] && items[1] == first[1];
      assert !Announced(items, 1);
    } else {
      CompleteRun(copies, events);
    }
  }

  lemma FirstLost(ts: nat, copies: Copies, counter: nat)
    requires Positive(copies) && Fires(copies, counter)
    requires |copies| <= HOUR - SEC * 10 && HOUR <= ts < U64 - HOUR
    ensures var items := Inserted(Fresh(), ts, copies, counter).1;
            |items| >= 2 && items[0].tsMsp > 0 && items[1].tsMsp == 0 && !items[1].mspBump
  {
    hide Copied;
    hide Assigned;
    SecondIsLost(ts, copies, counter);
  }

  /** With one copy of every event, the first event of a channel goes into a partition that is never
      announced, with its whole time as the offset, while its copy opens the right one. */
  lemma FirstEventIsLost()
    ensures var ts := 1_700_000_000 * SEC;
            StoredWith([(1, 0)], [(ts, 0)])
            == (Partition(ts - SEC * 10, 2), [Insert(ts - SEC * 10, SEC * 10 - 1, true), Insert(0, ts, false)])
  {
    var ts, copies, msp := 1_700_000_000 * SEC, [(1, 0)], 1_700_000_000 * SEC - SEC * 10;
    assert copies[..0] == [];
    assert Grid(ts - 1) == msp;
    assert Assigned(Fresh(), Wrap(ts - 1 - 0), 0) == (Partition(msp, 1), Insert(msp, SEC * 10 - 1, true));
    assert Copied(Partition(msp, 1), ts, 0, copies[..0], 0) == (Partition(msp, 1), []);
    assert 0 % copies[0].0 == copies[0].1;
    assert Copied(Fresh(), ts, 0, copies, 0) == (Partition(msp, 1), [Insert(msp, SEC * 10 - 1, true)] + []);
    assert [Insert(msp, SEC * 10 - 1, true)] + [] == [Insert(msp, SEC * 10 - 1, true)];
    assert Assigned(Partition(msp, 1), ts, 0) == (Partition(msp, 2), Insert(0, ts, false));
    assert Fresh().mspLast == 0;
    var a, b := Insert(msp, SEC * 10 - 1, true), Insert(0, ts, false);
    assert Inserted(Fresh(), ts, copies, 0) == (Partition(msp, 2), [a] + [b]);
    assert [a] + [b] == [a, b];
    StoredFirst(copies, [(ts, 0)]);
    assert [(ts, 0)][..1] == [(ts, 0)];
  }
}
