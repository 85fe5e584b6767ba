/**
 The gate in front of event insertion (netfetch/src/ca/conn.rs, stats/src/stats.rs): a moving average
 of the intervals between inserts decides how long a channel is muted. Single precision numbers
 are modelled as reals, points in time as seconds.
 */
module InsertRate {
  import opened Wrappers

  const MICRO: real := 0.000001

  /** An exponential moving average of values and of their variance. */
  datatype Ema = Ema(ema: real, emv: real, k: real, updateCount: nat)

  function Updated(e: Ema, v: real): Ema {
    var dv := v - e.ema;
    Ema(e.ema + e.k * dv, (1.0 - e.k) * (e.emv + e.k * dv * dv), e.k, e.updateCount + 1)
  }

  /** The moving average of the intervals between ticks. */
  datatype Intervals = Intervals(last: Option<real>, ema: Ema)

  function Ticked(i: Intervals, now: real): Intervals {
    match i.last
    case Some(last) => Intervals(Some(now), Updated(i.ema, now - last))
    case None => Intervals(Some(now), i.ema)
  }

  /** What a tick would make of the average. */
  function Preview(i: Intervals, now: real): Option<real> {
    match i.last
    case Some(last) => Some(i.ema.ema + i.ema.k * (now - last - i.ema.ema))
    case None => None
  }

  /** `next` is the earliest time of the next insert. */
  datatype Gate = Gate(intervals: Intervals, next: real)

  function Max0(x: real): real {
    if x < 0.0 then 0.0 else x
  }

  /** A duration, cut down to whole microseconds. */
  function WholeMicros(dt: real): real {
    (dt * 1000000.0).Floor as real * MICRO
  }

  function Wait(e: Ema, min: real): real
    requires e.k != 0.0
  {
    WholeMicros(Max0(min - e.ema) / e.k)
  }

  function Opens(g: Gate, now: real): bool {
    now >= g.next
  }

  function Passed(g: Gate, min: real, now: real): Gate
    requires g.intervals.ema.k != 0.0
  {
    var i := Ticked(g.intervals, now);
    Gate(i, now + Wait(i.ema, min))
  }

  function NewGate(now: real, k: real): Gate {
    Gate(Intervals(None, Ema(0.0, 0.0, k, 0)), now)
  }

  // ---- the averages ----

  /** The average stays within any bounds that hold for it and for the values, and the variance,
      of which a root is taken, is never negative. */
  lemma AverageStaysBetween(e: Ema, v: real, lo: real, hi: real)
    requires 0.0 <= e.k <= 1.0 && lo <= e.ema <= hi && lo <= v <= hi && e.emv >= 0.0
    ensures lo <= Updated(e, v).ema <= hi && Updated(e, v).emv >= 0.0
  {
    var dv := v - e.ema;
    Between(e.k, e.ema, v, lo, hi);
    NotNegative(dv, dv);
    NotNegative(e.k, dv * dv);
    assert e.k * dv * dv == e.k * (dv * dv);
    NotNegative(1.0 - e.k, e.emv + e.k * dv * dv);
  }

  /** The values one after the other. */
  function UpdatedAll(e: Ema, vs: seq<real>): Ema {
    if vs == [] then e else Updated(UpdatedAll(e, vs[..|vs| - 1]), vs[|vs| - 1])
  }

  /** The exponentially weighted mean of x and the values behind it. */
  function WeightedMean(k: real, x: real, xs: seq<real>): real {
    if xs == [] then x else Mixed(k, WeightedMean(k, x, xs[..|xs| - 1]), xs[|xs| - 1])
  }

  function Mixed(k: real, x: real, y: real): real {
    (1.0 - k) * x + k * y
  }

  function Square(x: real): real {
    x * x
  }

  function Squares(xs: seq<real>): seq<real> {
    seq(|xs|, i requires 0 <= i < |xs| => Square(xs[i]))
  }

  lemma SquaresOf(xs: seq<real>)
    ensures |Squares(xs)| == |xs|
    ensures var n := |xs| - 1;
            xs != [] ==> Squares(xs)[n] == Square(xs[n]) && Squares(xs)[..n] == Squares(xs[..n])
  {
    hide Square;
  }

  /** The average is the weighted mean of the values, and the variance is their mean square less the
      square of their mean, both with the same weights. */
  lemma {:induction false} VarianceIsWeighted(e: Ema, vs: seq<real>)
    ensures var r := UpdatedAll(e, vs);
            && r.k == e.k && r.updateCount == e.updateCount + |vs|
            && r.ema == WeightedMean(e.k, e.ema, vs)
            && r.emv + Square(r.ema) == WeightedMean(e.k, e.emv + Square(e.ema), Squares(vs))
  {
    hide Square;
    hide Squares;
    hide Updated;
    hide Mixed;
    SquaresOf(vs);
    if vs != [] {
      var front, v := vs[..|vs| - 1], vs[|vs| - 1];
      VarianceIsWeighted(e, front);
      OneMoment(UpdatedAll(e, front), v, WeightedMean(e.k, e.emv + Square(e.ema), Squares(front)));
    }
  }

  lemma OneMoment(e: Ema, v: real, meanSquare: real)
    requires e.emv + Square(e.ema) == meanSquare
    ensures var r := Updated(e, v);
            && r.ema == Mixed(e.k, e.ema, v)
            && r.emv + Square(r.ema) == Mixed(e.k, meanSquare, Square(v))
            && r.k == e.k && r.updateCount == e.updateCount + 1
  {
    Expand(e.ema, v, e.k, e.emv);
    Recombine(e.ema, v, e.k);
  }

  lemma Recombine(a: real, v: real, k: real)
    ensures a + k * (v - a) == (1.0 - k) * a + k * v
  {
  }

  lemma Expand(a: real, v: real, k: real, s: real)
    ensures var d := v - a;
            (1.0 - k) * (s + k * d * d) + (a + k * d) * (a + k * d) == (1.0 - k) * (s + a * a) + k * (v * v)
  {
  }

  lemma Between(k: real, x: real, y: real, lo: real, hi: real)
    requires 0.0 <= k <= 1.0 && lo <= x <= hi && lo <= y <= hi
    ensures lo <= x + k * (y - x) <= hi
  {
    NotNegative(k, y - lo);
    NotNegative(1.0 - k, x - lo);
    assert x + k * (y - x) - lo == (1.0 - k) * (x - lo) + k * (y - lo);
    NotNegative(k, hi - y);
    NotNegative(1.0 - k, hi - x);
    assert hi - (x + k * (y - x)) == (1.0 - k) * (hi - x) + k * (hi - y);
  }

  lemma NotNegative(x: real, y: real)
    requires (x >= 0.0 && y >= 0.0) || x == y
    ensures x * y >= 0.0
  {
  }

  lemma Scales(k: real, x: real, y: real)
    requires 0.0 <= k && x <= y
    ensures k * x <= k * y
  {
  }

  /** The preview is what the tick then makes true. */
  lemma PreviewComesTrue(i: Intervals, now: real)
    ensures Preview(i, now).Some? <==> i.last.Some?
    ensures Preview(i, now).Some? ==> Preview(i, now).value == Ticked(i, now).ema.ema
  {
  }

  // ---- runs ----

  /** The gate after events at the given times, and the times of the events that passed it. */
  function Run(g: Gate, min: real, nows: seq<real>): (Gate, seq<real>)
    requires g.intervals.ema.k != 0.0
    ensures Run(g, min, nows).0.intervals.ema.k == g.intervals.ema.k
  {
    if nows == [] then (g, [])
    else
      var (h, passed) := Run(g, min, nows[..|nows| - 1]);
      var now := nows[|nows| - 1];
      if Opens(h, now) then (Passed(h, min, now), passed + [now]) else (h, passed)
  }

  ghost predicate InOrder(start: real, nows: seq<real>) {
    && (forall i :: 0 <= i < |nows| ==> start <= nows[i])
    && forall i, j :: 0 <= i <= j < |nows| ==> nows[i] <= nows[j]
  }

  lemma WholeMicrosCloseBelow(dt: real)
    requires dt >= 0.0
    ensures 0.0 <= WholeMicros(dt) <= dt < WholeMicros(dt) + MICRO
  {
    var n := (dt * 1000000.0).Floor;
    assert n as real <= dt * 1000000.0 < n as real + 1.0;
    assert n >= 0;
  }

  lemma WaitIsEnough(e: Ema, min: real)
    requires 0.0 < e.k
    ensures 0.0 <= Wait(e, min)
    ensures Max0(min - e.ema) - e.k * MICRO <= e.k * Wait(e, min) <= Max0(min - e.ema)
  {
    hide WholeMicros;
    var dt := Max0(min - e.ema) / e.k;
    Quotient(Max0(min - e.ema), e.k);
    WholeMicrosCloseBelow(dt);
    Scales(e.k, WholeMicros(dt), dt);
    Scales(e.k, dt - MICRO, WholeMicros(dt));
    assert e.k * (dt - MICRO) == e.k * dt - e.k * MICRO;
    assert Wait(e, min) == WholeMicros(dt);
    assert e.k * dt == Max0(min - e.ema);
  }

  lemma Quotient(x: real, k: real)
    requires 0.0 <= x && 0.0 < k
    ensures x / k >= 0.0 && k * (x / k) == x
  {
  }

  /** The least value of the average from the second insert on. */
  function Floor(k: real, min: real): real {
    (1.0 - k) * min - k * MICRO
  }

  /** An insert that comes at least the wait after the one before lifts the average over its floor,
      however low it was. */
  lemma AverageOverFloor(e: Ema, min: real, dt: real)
    requires 0.0 < e.k < 1.0 && dt >= Wait(e, min)
    ensures Updated(e, dt).ema >= Floor(e.k, min)
    ensures e.k * dt == Updated(e, dt).ema - e.ema + e.k * e.ema
  {
    hide *;
    WaitIsEnough(e, min);
    Scales(e.k, Wait(e, min), dt);
    UpdatedIs(e, dt);
    Lifted(e.k, e.ema, min, e.k * dt);
  }

  lemma UpdatedIs(e: Ema, v: real)
    ensures Updated(e, v).ema == e.ema + e.k * v - e.k * e.ema
  {
  }

  lemma Lifted(k: real, x: real, min: real, p: real)
    requires 0.0 < k < 1.0 && p >= Max0(min - x) - k * MICRO
    ensures x + p - k * x >= Floor(k, min)
  {
    assert (1.0 - k) * min == min - k * min;
    if x <= min {
      Scales(k, x, min);
    } else {
      Scales(1.0 - k, min, x);
      assert (1.0 - k) * x == x - k * x;
    }
  }

  /** What a run of the gate keeps: when it opens next, and how far the inserts have come. */
  ghost predicate Paced(g: Gate, k: real, min: real, passed: seq<real>)
    requires k != 0.0
  {
    var i := g.intervals;
    && i.ema.k == k
    && (passed == [] ==> i.last.None? && i.ema.ema == 0.0)
    && (passed != [] ==>
          && i.last == Some(passed[|passed| - 1])
          && g.next == passed[|passed| - 1] + Wait(i.ema, min)
          && (|passed| == 1 ==> i.ema.ema == 0.0)
          && (|passed| > 1 ==>
                && i.ema.ema >= Floor(k, min)
                && k * (passed[|passed| - 1] - passed[0]) >= i.ema.ema + k * ((|passed| - 2) as real * Floor(k, min))))
  }

  lemma PassedKeepsPace(g: Gate, k: real, min: real, passed: seq<real>, now: real)
    requires 0.0 < k < 1.0 && g.intervals.ema.k == k && Paced(g, k, min, passed) && Opens(g, now)
    ensures Paced(Passed(g, min, now), k, min, passed + [now])
  {
    hide Wait;
    hide Floor;
    hide Updated;
    var more, h := passed + [now], Passed(g, min, now);
    if passed != [] {
      var last, e := passed[|passed| - 1], g.intervals.ema;
      AverageOverFloor(e, min, now - last);
      KeepsK(e, now - last);
      if |passed| > 1 {
        var n, b := (|passed| - 2) as real, Floor(k, min);
        assert more[0] == passed[0];
        assert k * (now - passed[0]) == k * (last - passed[0]) + k * (now - last);
        Scales(k, b, e.ema);
        assert k * ((n + 1.0) * b) == k * (n * b) + k * b;
      } else {
        var b := Floor(k, min);
        assert k * e.ema == 0.0;
        assert more[0] == last && (|more| - 2) as real == 0.0;
        assert k * (0.0 * b) == 0.0;
      }
    }
  }

  lemma KeepsK(e: Ema, v: real)
    ensures Updated(e, v).k == e.k
  {
  }

  lemma {:induction false} RunKeepsPace(start: real, k: real, min: real, nows: seq<real>)
    requires 0.0 < k < 1.0
    ensures var (g, passed) := Run(NewGate(start, k), min, nows); Paced(g, k, min, passed)
  {
    hide Paced;
    hide Passed;
    if nows == [] {
      FreshPace(start, k, min);
    } else {
      var front := nows[..|nows| - 1];
      RunKeepsPace(start, k, min, front);
      var (g, passed) := Run(NewGate(start, k), min, front);
      if Opens(g, nows[|nows| - 1]) {
        PassedKeepsPace(g, k, min, passed, nows[|nows| - 1]);
      }
    }
  }

  lemma FreshPace(start: real, k: real, min: real)
    requires k != 0.0
    ensures Paced(NewGate(start, k), k, min, [])
  {
  }

  /** The long-run bound on the rate: the n-th insert after the first comes no earlier than
      ((1-k) min - k us) (n - 1 + 1/k) after it, for every sequence of event times. */
  lemma RateBound(start: real, k: real, min: real, nows: seq<real>)
    requires 0.0 < k < 1.0
    ensures var passed := Run(NewGate(start, k), min, nows).1;
            |passed| > 1 ==>
              passed[|passed| - 1] - passed[0] >= Floor(k, min) * ((|passed| - 2) as real + 1.0 / k)
  {
    hide Run;
    hide Wait;
    hide Floor;
    RunKeepsPace(start, k, min, nows);
    var (g, passed) := Run(NewGate(start, k), min, nows);
    if |passed| > 1 {
      var d, n, b := passed[|passed| - 1] - passed[0], (|passed| - 2) as real, Floor(k, min);
      assert k * d >= b + k * (n * b);
      Divided(k, d, n, b);
    }
  }

  lemma Divided(k: real, d: real, n: real, b: real)
    requires 0.0 < k && k * d >= b + k * (n * b)
    ensures d >= b * (n + 1.0 / k)
  {
    var q := 1.0 / k;
    assert k * q == 1.0;
    assert k * (b * (n + q)) == k * (b * n) + b * (k * q);
    if d < b * (n + q) {
      assert k * d < k * (b * (n + q));
    }
  }

  /** With the values of the source, a weight of 0.05 and a minimum of 6000 us. */
  lemma SourceRateBound(start: real, nows: seq<real>)
    ensures var passed := Run(NewGate(start, 0.05), 6000.0 * MICRO, nows).1;
            |passed| > 1 ==> passed[|passed| - 1] - passed[0] >= 0.00569995 * ((|passed| + 18) as real)
  {
    hide Run;
    RateBound(start, 0.05, 6000.0 * MICRO, nows);
    assert 1.0 / 0.05 == 20.0;
  }

  /** A channel is never muted for longer than min / k. */
  lemma {:induction false} NeverMutedLong(start: real, k: real, min: real, nows: seq<real>, now: real)
    requires 0.0 < k < 1.0 && min >= 0.0 && InOrder(start, nows)
    requires var passed := Run(NewGate(start, k), min, nows).1;
             now >= if passed == [] then start else passed[|passed| - 1] + min / k
    ensures Opens(Run(NewGate(start, k), min, nows).0, now)
  {
    hide Wait;
    hide Updated;
    AverageNotNegative(start, k, min, nows);
    RunKeepsPace(start, k, min, nows);
    var (g, passed) := Run(NewGate(start, k), min, nows);
    if passed == [] {
      NothingPassed(start, k, min, nows);
    } else {
      WaitIsBounded(g.intervals.ema, min);
    }
  }

  lemma WaitIsBounded(e: Ema, min: real)
    requires 0.0 < e.k && e.ema >= 0.0 && min >= 0.0
    ensures Wait(e, min) <= min / e.k
  {
    hide Wait;
    var w, q := Wait(e, min), min / e.k;
    WaitIsEnough(e, min);
    Quotient(min, e.k);
    assert Max0(min - e.ema) <= min;
    if w > q {
      assert e.k * w > e.k * q;
    }
  }

  lemma {:induction false} NothingPassed(start: real, k: real, min: real, nows: seq<real>)
    requires 0.0 < k < 1.0 && Run(NewGate(start, k), min, nows).1 == []
    ensures Run(NewGate(start, k), min, nows).0 == NewGate(start, k)
  {
    if nows != [] {
      NothingPassed(start, k, min, nows[..|nows| - 1]);
    }
  }

  lemma {:induction false} AverageNotNegative(start: real, k: real, min: real, nows: seq<real>)
    requires 0.0 < k < 1.0 && min >= 0.0 && InOrder(start, nows)
    ensures var (g, passed) := Run(NewGate(start, k), min, nows);
            && g.intervals.ema.ema >= 0.0 && g.intervals.ema.emv >= 0.0 && g.intervals.ema.k == k
            && (g.intervals.last.Some? ==> nows != [] && g.intervals.last.value <= nows[|nows| - 1])
  {
    hide Wait;
    hide Updated;
    if nows != [] {
      var front, now := nows[..|nows| - 1], nows[|nows| - 1];
      AverageNotNegative(start, k, min, front);
      var g := Run(NewGate(start, k), min, front).0;
      if g.intervals.last.Some? {
        var e, dt := g.intervals.ema, now - g.intervals.last.value;
        AverageStaysBetween(e, dt, 0.0, if e.ema <= dt then dt else e.ema);
        KeepsK(e, dt);
      }
    }
  }
}
