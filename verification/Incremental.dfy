/**
 Both protocol readers are the same kind of machine: a state that names how many bytes it
 needs next, and a step that takes exactly that many. This module proves once that such a
 machine cannot see how its input was cut into chunks.
 */
module Incremental {
  import opened Bytes

  datatype Outcome<S, E> =
    | Next(next: S, events: seq<E>)   // the step succeeded
    | Stop(events: seq<E>)            // the step failed: the connection is over

  /** `rank` decreases over the steps that need no input at all. */
  datatype Machine<!S, !E> = Machine(need: S -> nat, step: (S, seq<byte>) -> Outcome<S, E>, rank: S -> nat)

  ghost predicate Progressive<S(!new), E(!new)>(m: Machine<S, E>) {
    forall s :: m.need(s) == 0 && m.step(s, []).Next? ==> m.rank(m.step(s, []).next) < m.rank(s)
  }

  /** Where the reader stands: still running with some unread bytes, or stopped. */
  datatype Reader<S, E> =
    | Running(state: S, unread: seq<byte>, emitted: seq<E>)
    | Stopped(emitted: seq<E>)

  /** Steps as long as the unread bytes allow. */
  ghost function Drain<S(!new), E(!new)>(m: Machine<S, E>, s: S, data: seq<byte>): (r: Reader<S, E>)
    requires Progressive(m)
    ensures r.Running? ==> |r.unread| < m.need(r.state) && |r.unread| <= |data|
    decreases |data|, m.rank(s)
  {
    var n := m.need(s);
    if |data| < n then Running(s, data, [])
    else
      assert n == 0 ==> data[..n] == [];
      match m.step(s, data[..n])
      case Stop(ev) => Stopped(ev)
      case Next(t, ev) => Prepend(ev, Drain(m, t, data[n..]))
  }

  function Prepend<S, E>(ev: seq<E>, r: Reader<S, E>): Reader<S, E> {
    match r
    case Running(s, u, e) => Running(s, u, ev + e)
    case Stopped(e) => Stopped(ev + e)
  }

  /** One more chunk arrives. */
  ghost function Feed<S(!new), E(!new)>(m: Machine<S, E>, r: Reader<S, E>, chunk: seq<byte>): Reader<S, E>
    requires Progressive(m)
  {
    match r
    case Running(s, u, e) => Prepend(e, Drain(m, s, u + chunk))
    case Stopped(e) => r
  }

  ghost function FeedAll<S(!new), E(!new)>(m: Machine<S, E>, r: Reader<S, E>, chunks: seq<seq<byte>>): Reader<S, E>
    requires Progressive(m)
    decreases |chunks|
  {
    if chunks == [] then r else FeedAll(m, Feed(m, r, chunks[0]), chunks[1..])
  }

  function Concat<T>(parts: seq<seq<T>>): seq<T> {
    if parts == [] then [] else parts[0] + Concat(parts[1..])
  }

  lemma PrependPrepend<S, E>(a: seq<E>, b: seq<E>, r: Reader<S, E>)
    ensures Prepend(a, Prepend(b, r)) == Prepend(a + b, r)
  {
    assert forall c: seq<E> :: a + (b + c) == (a + b) + c;
  }

  lemma PrependNothing<S, E>(r: Reader<S, E>)
    ensures Prepend([], r) == r
  {
    assert forall c: seq<E> :: [] + c == c;
  }

  /** One step of a machine that has the bytes it needs, with more to come. */
  lemma Unfold<S(!new), E(!new)>(m: Machine<S, E>, p: S, d: seq<byte>, rest: seq<byte>, em: seq<E>)
    requires Progressive(m) && m.need(p) <= |d|
    ensures var n := m.need(p);
            Prepend(em, Drain(m, p, d + rest)) ==
            match m.step(p, d[..n])
            case Stop(ev) => Stopped(em + ev)
            case Next(q, ev) => Prepend(em + ev, Drain(m, q, d[n..] + rest))
  {
    var n := m.need(p);
    assert (d + rest)[..n] == d[..n] && (d + rest)[n..] == d[n..] + rest;
    match m.step(p, d[..n])
    case Stop(_) =>
    case Next(q, ev) => PrependPrepend(em, ev, Drain(m, q, d[n..] + rest));
  }

  lemma DrainShort<S(!new), E(!new)>(m: Machine<S, E>, p: S, d: seq<byte>)
    requires Progressive(m) && |d| < m.need(p)
    ensures Drain(m, p, d) == Running(p, d, [])
  {
  }

  /** Draining a prefix first changes nothing. */
  lemma {:induction false} DrainAppend<S(!new), E(!new)>(m: Machine<S, E>, s: S, a: seq<byte>, b: seq<byte>)
    requires Progressive(m)
    ensures Drain(m, s, a + b) == Feed(m, Drain(m, s, a), b)
    decreases |a|, m.rank(s)
  {
    var n := m.need(s);
    if |a| < n {
      PrependNothing(Drain(m, s, a + b));
    } else {
      assert (a + b)[..n] == a[..n] && (a + b)[n..] == a[n..] + b;
      assert n == 0 ==> a[..n] == [];
      match m.step(s, a[..n]) {
        case Stop(ev) =>
        case Next(t, ev) =>
          DrainAppend(m, t, a[n..], b);
          var r := Drain(m, t, a[n..]);
          if r.Running? {
            PrependPrepend(ev, r.emitted, Drain(m, r.state, r.unread + b));
          }
      }
    }
  }

  lemma FeedPrepend<S(!new), E(!new)>(m: Machine<S, E>, ev: seq<E>, r: Reader<S, E>, chunk: seq<byte>)
    requires Progressive(m)
    ensures Feed(m, Prepend(ev, r), chunk) == Prepend(ev, Feed(m, r, chunk))
  {
    if r.Running? {
      PrependPrepend(ev, r.emitted, Drain(m, r.state, r.unread + chunk));
    }
  }

  /** Two chunks are one longer chunk. */
  lemma FeedChunk<S(!new), E(!new)>(m: Machine<S, E>, r: Reader<S, E>, a: seq<byte>, b: seq<byte>)
    requires Progressive(m)
    ensures Feed(m, r, a + b) == Feed(m, Feed(m, r, a), b)
  {
    if r.Running? {
      assert r.unread + (a + b) == (r.unread + a) + b;
      DrainAppend(m, r.state, r.unread + a, b);
      FeedPrepend(m, r.emitted, Drain(m, r.state, r.unread + a), b);
    }
  }

  /** Bytes that arrive are bytes that are unread. */
  lemma FeedUnread<S(!new), E(!new)>(m: Machine<S, E>, s: S, u: seq<byte>, em: seq<E>, chunk: seq<byte>)
    requires Progressive(m)
    ensures Feed(m, Running(s, u, em), chunk) == Feed(m, Running(s, u + chunk, em), [])
  {
    assert (u + chunk) + [] == u + chunk;
  }

  lemma FeedShort<S(!new), E(!new)>(m: Machine<S, E>, s: S, u: seq<byte>, em: seq<E>)
    requires Progressive(m) && |u| < m.need(s)
    ensures Feed(m, Running(s, u, em), []) == Running(s, u, em)
  {
    assert u + [] == u && em + [] == em;
  }

  /** One step of a reader that has the bytes it needs. */
  lemma FeedStep<S(!new), E(!new)>(m: Machine<S, E>, s: S, u: seq<byte>, em: seq<E>)
    requires Progressive(m) && m.need(s) <= |u|
    ensures var n := m.need(s);
            Feed(m, Running(s, u, em), []) ==
            match m.step(s, u[..n])
            case Stop(ev) => Stopped(em + ev)
            case Next(q, ev) => Feed(m, Running(q, u[n..], em + ev), [])
  {
    hide Drain;
    Unfold(m, s, u, [], em);
  }

  /** Chunk independence: whatever the chunks, the reader ends up where one read of the whole
      stream would have taken it, having emitted the same events. */
  lemma {:induction false} AnyChunking<S(!new), E(!new)>(m: Machine<S, E>, s: S, data: seq<byte>,
                                                         chunks: seq<seq<byte>>)
    requires Progressive(m)
    ensures FeedAll(m, Drain(m, s, data), chunks) == Drain(m, s, data + Concat(chunks))
    decreases |chunks|
  {
    if chunks == [] {
      assert data + [] == data;
    } else {
      DrainAppend(m, s, data, chunks[0]);
      AnyChunking(m, s, data + chunks[0], chunks[1..]);
      assert data + (chunks[0] + Concat(chunks[1..])) == (data + chunks[0]) + Concat(chunks[1..]);
    }
  }
}
