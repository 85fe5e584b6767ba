/**
 The insertion of events (netfetch/src/ca/conn.rs, stats/src/stats.rs) as objects that are updated
 in place: the moving averages, and the part of a created channel that the insertion works on.
 */
module EventInsert {
  import opened Wrappers
  import opened EventPartition
  import opened EventCopies
  import Rate = InsertRate

  class Ema32 {
    var ema: real
    var emv: real
    var k: real
    var updateCount: nat

    ghost function Value(): Rate.Ema
      reads this
    {
      Rate.Ema(ema, emv, k, updateCount)
    }

    constructor WithK(k: real)
      ensures Value() == Rate.Ema(0.0, 0.0, k, 0)
    {
      ema, emv, updateCount := 0.0, 0.0, 0;
      this.k := k;
    }

    method Update(v: real)
      modifies this
      ensures Value() == Rate.Updated(old(Value()), v)
    {
      updateCount := updateCount + 1;
      var dv := v - ema;
      ema := ema + k * dv;
      emv := (1.0 - k) * (emv + k * dv * dv);
    }
  }

  class IntervalEma {
    var tslast: Option<real>
    const ema: Ema32

    ghost function Value(): Rate.Intervals
      reads this, ema
    {
      Rate.Intervals(tslast, ema.Value())
    }

    constructor ()
      ensures Value() == Rate.Intervals(None, Rate.Ema(0.0, 0.0, 0.05, 0)) && fresh(ema)
    {
      tslast := None;
      ema := new Ema32.WithK(0.05);
    }

    method Tick(now: real)
      modifies this, ema
      ensures Value() == Rate.Ticked(old(Value()), now)
    {
      match tslast {
        case Some(last) =>
          tslast := Some(now);
          ema.Update(now - last);
        case None =>
          tslast := Some(now);
      }
    }

    method EmaPreview(now: real) returns (r: Option<real>)
      ensures r == Rate.Preview(Value(), now)
    {
      match tslast {
        case Some(last) =>
          var dv := now - last - ema.ema;
          r := Some(ema.ema + ema.k * dv);
          assert r.value == Rate.Preview(Value(), now).value;
        case None =>
          r := None;
      }
    }
  }

  /** What the insertion knows about a channel. */
  datatype Channel = Channel(gate: Rate.Gate, partition: Partition)

  /** What becomes of an event: if the gate is open it is inserted, with its copies. */
  function Handled(c: Channel, ts: nat, now: real, min: real, copies: Copies, counter: nat): (Channel, seq<Insert>)
    requires Positive(copies) && c.gate.intervals.ema.k != 0.0
  {
    if Rate.Opens(c.gate, now) then
      var (p, items) := Inserted(c.partition, ts, copies, counter);
      (Channel(Rate.Passed(c.gate, min, now), p), items)
    else (c, [])
  }

  /** `CreatedState`, as far as the insertion uses it. */
  class CreatedState {
    var tsMspLast: nat
    var insertedInTsMsp: nat
    const insertItemIvlEma: IntervalEma
    var insertNextEarliest: real
    var mutedBefore: bool

    ghost function Part(): Partition
      reads this
    {
      Partition(tsMspLast, insertedInTsMsp)
    }

    ghost function Gate(): Rate.Gate
      reads this, insertItemIvlEma, insertItemIvlEma.ema
    {
      Rate.Gate(insertItemIvlEma.Value(), insertNextEarliest)
    }

    constructor (now: real)
      ensures Part() == Fresh() && Gate() == Rate.NewGate(now, 0.05) && fresh(insertItemIvlEma)
              && fresh(insertItemIvlEma.ema)
    {
      tsMspLast := 0;
      insertedInTsMsp := U64 - 1;
      insertItemIvlEma := new IntervalEma();
      insertNextEarliest := now;
      mutedBefore := false;
    }

    method EventAddInsert(ts: nat, msp: nat, queue: seq<Insert>) returns (more: seq<Insert>)
      modifies this`tsMspLast, this`insertedInTsMsp
      ensures more == queue + [Assigned(old(Part()), ts, msp).1]
      ensures Part() == Assigned(old(Part()), ts, msp).0
    {
      var tsMsp, changed := msp, false;
      if insertedInTsMsp >= 64000 || Wrap(tsMspLast + HOUR) <= ts {
        var div := SEC * 10;
        tsMsp := ts / div * div;
        if tsMsp != tsMspLast {
          tsMspLast := tsMsp;
          insertedInTsMsp := 1;
          changed := true;
        }
      } else {
        insertedInTsMsp := Wrap(insertedInTsMsp + 1);
      }
      more := queue + [Insert(tsMsp, Wrap(ts - tsMsp), changed)];
    }

    method InsertCopies(ts: nat, copies: Copies, counter: nat, queue: seq<Insert>) returns (more: seq<Insert>)
      requires Positive(copies)
      modifies this`tsMspLast, this`insertedInTsMsp
      ensures var (p, items) := Inserted(old(Part()), ts, copies, counter);
              Part() == p && more == queue + items
    {
      hide Assigned;
      var msp := tsMspLast;
      more := queue;
      assert copies[..|copies|] == copies;
      for n := |copies| downto 0
        invariant Positive(copies[..n])
        invariant Copied(old(Part()), ts, msp, copies, counter).0 == Copied(Part(), ts, msp, copies[..n], counter).0
        invariant queue + Copied(old(Part()), ts, msp, copies, counter).1
               == more + Copied(Part(), ts, msp, copies[..n], counter).1
      {
        CopyStep(Part(), ts, msp, copies[..n + 1], counter, more);
        assert copies[..n + 1][..n] == copies[..n];
        if counter % copies[n].0 == copies[n].1 {
          more := EventAddInsert(Wrap(ts - 1 - n), msp, more);
        }
      }
      assert more + [] == more;
      ghost var items := Copied(old(Part()), ts, msp, copies, counter).1;
      ghost var item := Assigned(Part(), ts, msp).1;
      assert (queue + items) + [item] == queue + (items + [item]);
      more := EventAddInsert(ts, msp, more);
    }

    /** `do_event_insert`. */
    method DoEventInsert(ts: nat, now: real, ivlMinMus: nat, copies: Copies, counter: nat, queue: seq<Insert>)
      returns (more: seq<Insert>)
      requires Positive(copies) && insertItemIvlEma.ema.k != 0.0
      modifies this, insertItemIvlEma, insertItemIvlEma.ema
      ensures Gate() == Rate.Passed(old(Gate()), ivlMinMus as real * Rate.MICRO, now)
      ensures var (p, items) := Inserted(old(Part()), ts, copies, counter);
              Part() == p && more == queue + items
    {
      hide Inserted;
      mutedBefore := false;
      insertItemIvlEma.Tick(now);
      var ema := insertItemIvlEma.ema;
      var ivlMin := ivlMinMus as real * Rate.MICRO;
      var short := if ivlMin - ema.ema < 0.0 then 0.0 else ivlMin - ema.ema;
      var dt := short / ema.k;
      insertNextEarliest := now + (dt * 1000000.0).Floor as real * Rate.MICRO;
      more := InsertCopies(ts, copies, counter, queue);
    }

    /** The gate in `handle_event_add_res`: events that come too early are dropped. */
    method HandleEvent(ts: nat, now: real, ivlMinMus: nat, copies: Copies, counter: nat, queue: seq<Insert>)
      returns (more: seq<Insert>, next: nat)
      requires Positive(copies) && insertItemIvlEma.ema.k != 0.0
      modifies this, insertItemIvlEma, insertItemIvlEma.ema
      ensures var (c, items) :=
                Handled(old(Channel(Gate(), Part())), ts, now, ivlMinMus as real * Rate.MICRO, copies, counter);
              Gate() == c.gate && Part() == c.partition && more == queue + items
      ensures next == counter + if Rate.Opens(old(Gate()), now) then 1 else 0
    {
      hide Inserted;
      hide Rate.Passed;
      if now >= insertNextEarliest {
        more := DoEventInsert(ts, now, ivlMinMus, copies, counter, queue);
        next := counter + 1;
      } else {
        mutedBefore := true;
        more, next := queue, counter;
        assert queue + [] == queue;
      }
    }
  }

  lemma CopyStep(p: Partition, ts: nat, msp: nat, copies: Copies, counter: nat, before: seq<Insert>)
    requires copies != [] && Positive(copies)
    ensures var n := |copies| - 1;
            var (q, item) := Assigned(p, Wrap(ts - 1 - n), msp);
            if counter % copies[n].0 == copies[n].1 then
              Copied(p, ts, msp, copies, counter).0 == Copied(q, ts, msp, copies[..n], counter).0
              && before + Copied(p, ts, msp, copies, counter).1
                   == (before + [item]) + Copied(q, ts, msp, copies[..n], counter).1
            else Copied(p, ts, msp, copies, counter) == Copied(p, ts, msp, copies[..n], counter)
  {
    hide Assigned;
    var n := |copies| - 1;
    var (q, item) := Assigned(p, Wrap(ts - 1 - n), msp);
    var rest := Copied(q, ts, msp, copies[..n], counter).1;
    assert before + ([item] + rest) == (before + [item]) + rest;
  }

  // ---- all events of a channel ----

  /** An event: its timestamp, its running number if it is inserted, and when it arrives. */
  datatype Arrival = Arrival(ts: nat, counter: nat, now: real)

  /** The channel after the events, and everything that was inserted. */
  function HandledAll(start: real, k: real, min: real, copies: Copies,
                      events: seq<Arrival>): (r: (Channel, seq<Insert>))
    requires k != 0.0 && Positive(copies)
    ensures r.0.gate.intervals.ema.k == k
  {
    if events == [] then (Channel(Rate.NewGate(start, k), Fresh()), [])
    else
      var (c, items) := HandledAll(start, k, min, copies, events[..|events| - 1]);
      var e := events[|events| - 1];
      var (d, more) := Handled(c, e.ts, e.now, min, copies, e.counter);
      (d, items + more)
  }

  function Times(events: seq<Arrival>): seq<real> {
    seq(|events|, i requires 0 <= i < |events| => events[i].now)
  }

  function Numbered(events: seq<Arrival>): seq<(nat, nat)> {
    seq(|events|, i requires 0 <= i < |events| => (events[i].ts, events[i].counter))
  }

  /** The events that find the gate open. */
  function Admitted(start: real, k: real, min: real, events: seq<Arrival>): seq<Arrival>
    requires k != 0.0
  {
    if events == [] then []
    else
      var front, last := events[..|events| - 1], events[|events| - 1];
      if Rate.Opens(Rate.Run(Rate.NewGate(start, k), min, Times(front)).0, last.now) then
        Admitted(start, k, min, front) + [last]
      else Admitted(start, k, min, front)
  }

  /** The gate depends only on when the events arrive, and the partitions only on the events that
      it lets through: what holds of each holds of both together. */
  lemma {:induction false} GateAndPartition(start: real, k: real, min: real, copies: Copies, events: seq<Arrival>)
    requires k != 0.0 && Positive(copies)
    ensures var (c, items) := HandledAll(start, k, min, copies, events);
            var admitted := Admitted(start, k, min, events);
            && (c.gate, Times(admitted)) == Rate.Run(Rate.NewGate(start, k), min, Times(events))
            && (c.partition, items) == StoredWith(copies, Numbered(admitted))
  {
    hide Handled;
    hide Inserted;
    hide Rate.Opens;
    hide Rate.Passed;
    if events == [] {
      assert Times([]) == [] && Numbered([]) == [];
    } else {
      var front, last := events[..|events| - 1], events[|events| - 1];
      GateAndPartition(start, k, min, copies, front);
      TimesSnoc(events);
      var admitted := Admitted(start, k, min, front);
      var (c, items) := HandledAll(start, k, min, copies, front);
      HandledIs(c, last.ts, last.now, min, copies, last.counter);
      if Rate.Opens(c.gate, last.now) {
        AdmitOne(admitted, last, copies);
      } else {
        assert items + [] == items;
      }
    }
  }

  lemma TimesSnoc(events: seq<Arrival>)
    requires events != []
    ensures var front, last := events[..|events| - 1], events[|events| - 1];
            Times(events)[..|events| - 1] == Times(front) && Times(events)[|events| - 1] == last.now
  {
  }

  lemma HandledIs(c: Channel, ts: nat, now: real, min: real, copies: Copies, counter: nat)
    requires Positive(copies) && c.gate.intervals.ema.k != 0.0
    ensures var (p, more) := Inserted(c.partition, ts, copies, counter);
            Handled(c, ts, now, min, copies, counter)
            == if Rate.Opens(c.gate, now) then (Channel(Rate.Passed(c.gate, min, now), p), more) else (c, [])
  {
    hide Inserted;
    hide Rate.Opens;
    hide Rate.Passed;
  }

  /** One more admitted event, for the gate and for the partitions. */
  lemma AdmitOne(admitted: seq<Arrival>, last: Arrival, copies: Copies)
    requires Positive(copies)
    ensures Times(admitted + [last]) == Times(admitted) + [last.now]
    ensures var (p, items) := StoredWith(copies, Numbered(admitted));
            var (q, more) := Inserted(p, last.ts, copies, last.counter);
            StoredWith(copies, Numbered(admitted + [last])) == (q, items + more)
  {
    hide Inserted;
    var more := Numbered(admitted + [last]);
    assert more[..|more| - 1] == Numbered(admitted) && more[|more| - 1] == (last.ts, last.counter);
  }

  /** Every channel obeys the rate bound in the events that it stores, whatever arrives and when,
      and each of them is stored once, with at most one item for each configured copy. */
  lemma StoredAtBoundedRate(start: real, copies: Copies, events: seq<Arrival>)
    requires Positive(copies)
    ensures var min := 6000.0 * Rate.MICRO;
            var admitted, items := Admitted(start, 0.05, min, events), HandledAll(start, 0.05, min, copies, events).1;
            var n := |admitted|;
            && n <= |items| <= n * (|copies| + 1)
            && (n > 1 ==> admitted[n - 1].now - admitted[0].now >= 0.00569995 * ((n + 18) as real))
  {
    hide HandledAll;
    hide Admitted;
    hide StoredWith;
    var min := 6000.0 * Rate.MICRO;
    GateAndPartition(start, 0.05, min, copies, events);
    ItemsPerEvent(copies, Numbered(Admitted(start, 0.05, min, events)));
    Rate.SourceRateBound(start, Times(events));
  }
}
