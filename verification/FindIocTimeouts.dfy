/**
 What timeouts do (netfetch/src/ca/findioc.rs), in terms of the clock: which batches are given up, and
 what is yielded for them.
 */
module FindIocTimeouts {
  import opened Wrappers
  import opened OrderedMaps
  import opened FindIocState

  /** The batch was made more than the limit ago. */
  predicate Overdue(b: SearchBatch, limit: nat, now: nat) {
    b.tsBeg + limit < now
  }

  /** The result without an address for an entry of an overdue batch that nobody answered. */
  ghost predicate GivesUp(fl: map<BatchId, SearchBatch>, limit: nat, now: nat, bid: BatchId, j: nat, r: FindIocRes) {
    && bid in fl && Overdue(fl[bid], limit, now) && Sized(fl[bid])
    && j < |fl[bid].sids| && !fl[bid].done[j]
    && r.channel == fl[bid].channels[j] && r.responseAddr.None? && r.addr.None?
    && r.dt == now - fl[bid].tsBeg
  }

  lemma TimedOutIs(b: SearchBatch, limit: nat, now: nat)
    ensures TimedOut(b, limit, now) <==> Overdue(b, limit, now)
    ensures Overdue(b, limit, now) ==> Age(b, now) == now - b.tsBeg
  {
  }

  /** The entry for the j-th channel of a batch that nobody answered. */
  predicate EntryFor(b: SearchBatch, dt: nat, j: nat, e: (SearchId, FindIocRes))
    requires Sized(b)
  {
    j < |b.sids| && !b.done[j] && e == (b.sids[j], FindIocRes(b.channels[j], None, None, dt))
  }

  lemma {:induction false} UnansweredAre(b: SearchBatch, dt: nat, i: nat)
    requires Sized(b) && i <= |b.sids|
    ensures forall e :: e in Unanswered(b, dt, i) ==> exists j :: i <= j < |b.sids| && EntryFor(b, dt, j, e)
    ensures forall j :: i <= j < |b.sids| && !b.done[j] ==>
              (b.sids[j], FindIocRes(b.channels[j], None, None, dt)) in Unanswered(b, dt, i)
    decreases |b.sids| - i
  {
    if i < |b.sids| {
      UnansweredAre(b, dt, i + 1);
      var rest := Unanswered(b, dt, i + 1);
      forall e | e in Unanswered(b, dt, i)
        ensures exists j :: i <= j < |b.sids| && EntryFor(b, dt, j, e)
      {
        if e in rest {
          var j :| i + 1 <= j < |b.sids| && EntryFor(b, dt, j, e);
        } else {
          assert EntryFor(b, dt, i, e);
        }
      }
    }
  }

  ghost predicate GivesUpSome(fl: map<BatchId, SearchBatch>, limit: nat, now: nat, r: FindIocRes) {
    exists bid, j :: GivesUp(fl, limit, now, bid, j, r)
  }

  ghost predicate AllGiveUp(fl: map<BatchId, SearchBatch>, limit: nat, now: nat, rs: seq<FindIocRes>) {
    forall r :: r in rs ==> GivesUpSome(fl, limit, now, r)
  }

  /** Some result is for the entry. */
  ghost predicate IsGivenUp(fl: map<BatchId, SearchBatch>, limit: nat, now: nat, bid: BatchId, j: nat,
                            rs: seq<FindIocRes>) {
    exists k :: 0 <= k < |rs| && GivesUp(fl, limit, now, bid, j, rs[k])
  }

  lemma BatchGivesUp(fl: map<BatchId, SearchBatch>, limit: nat, now: nat, bid: BatchId)
    requires bid in fl && Sized(fl[bid]) && Overdue(fl[bid], limit, now)
    ensures var rs := Seconds(Unanswered(fl[bid], Age(fl[bid], now), 0));
            && AllGiveUp(fl, limit, now, rs)
            && forall j :: 0 <= j < |fl[bid].sids| && !fl[bid].done[j] ==> IsGivenUp(fl, limit, now, bid, j, rs)
  {
    hide Unanswered;
    hide GivesUp;
    hide EntryFor;
    var b, dt := fl[bid], Age(fl[bid], now);
    UnansweredAre(b, dt, 0);
    var u := Unanswered(b, dt, 0);
    var rs := Seconds(u);
    forall k | 0 <= k < |rs|
      ensures GivesUpSome(fl, limit, now, rs[k])
    {
      assert u[k] in u;
      var j :| 0 <= j < |b.sids| && EntryFor(b, dt, j, u[k]);
      EntryGivesUp(fl, limit, now, bid, j, u[k]);
    }
    forall j | 0 <= j < |b.sids| && !b.done[j]
      ensures IsGivenUp(fl, limit, now, bid, j, rs)
    {
      var e := (b.sids[j], FindIocRes(b.channels[j], None, None, dt));
      var k :| 0 <= k < |u| && u[k] == e;
      EntryIs(b, dt, j);
      EntryGivesUp(fl, limit, now, bid, j, e);
      assert rs[k] == e.1;
    }
  }

  lemma EntryIs(b: SearchBatch, dt: nat, j: nat)
    requires Sized(b) && j < |b.sids| && !b.done[j]
    ensures EntryFor(b, dt, j, (b.sids[j], FindIocRes(b.channels[j], None, None, dt)))
  {
  }

  lemma EntryGivesUp(fl: map<BatchId, SearchBatch>, limit: nat, now: nat, bid: BatchId, j: nat,
                     e: (SearchId, FindIocRes))
    requires bid in fl && Sized(fl[bid]) && Overdue(fl[bid], limit, now) && EntryFor(fl[bid], Age(fl[bid], now), j, e)
    ensures GivesUp(fl, limit, now, bid, j, e.1)
  {
    TimedOutIs(fl[bid], limit, now);
  }

  lemma GiveUpAppend(fl: map<BatchId, SearchBatch>, limit: nat, now: nat, a: seq<FindIocRes>, b: seq<FindIocRes>)
    requires AllGiveUp(fl, limit, now, a) && AllGiveUp(fl, limit, now, b)
    ensures AllGiveUp(fl, limit, now, a + b)
  {
    hide GivesUpSome;
  }

  lemma GivenUpAppend(fl: map<BatchId, SearchBatch>, limit: nat, now: nat, bid: BatchId, j: nat,
                      a: seq<FindIocRes>, b: seq<FindIocRes>)
    requires IsGivenUp(fl, limit, now, bid, j, a) || IsGivenUp(fl, limit, now, bid, j, b)
    ensures IsGivenUp(fl, limit, now, bid, j, a + b)
  {
    hide GivesUp;
    if k :| 0 <= k < |a| && GivesUp(fl, limit, now, bid, j, a[k]) {
      assert (a + b)[k] == a[k];
    } else {
      var k :| 0 <= k < |b| && GivesUp(fl, limit, now, bid, j, b[k]);
      assert (a + b)[|a| + k] == b[k];
    }
  }

  lemma {:induction false} ExpiredGiveUp(fl: map<BatchId, SearchBatch>, bids: seq<BatchId>, limit: nat, now: nat)
    requires forall bid :: bid in bids ==> bid in fl && Sized(fl[bid]) && Overdue(fl[bid], limit, now)
    ensures var rs := Seconds(ExpiredEntries(fl, bids, now));
            && AllGiveUp(fl, limit, now, rs)
            && forall bid, j :: bid in bids && 0 <= j < |fl[bid].sids| && !fl[bid].done[j] ==>
                 IsGivenUp(fl, limit, now, bid, j, rs)
  {
    hide Unanswered;
    hide AllGiveUp;
    hide IsGivenUp;
    hide Overdue;
    if bids == [] {
      NobodyGivesUp(fl, limit, now);
    } else {
      var first, rest := Unanswered(fl[bids[0]], Age(fl[bids[0]], now), 0), ExpiredEntries(fl, bids[1..], now);
      BatchGivesUp(fl, limit, now, bids[0]);
      ExpiredGiveUp(fl, bids[1..], limit, now);
      assert Seconds(first + rest) == Seconds(first) + Seconds(rest);
      GiveUpAppend(fl, limit, now, Seconds(first), Seconds(rest));
      forall bid, j | bid in bids && 0 <= j < |fl[bid].sids| && !fl[bid].done[j]
        ensures IsGivenUp(fl, limit, now, bid, j, Seconds(first) + Seconds(rest))
      {
        assert bid == bids[0] || bid in bids[1..];
        GivenUpAppend(fl, limit, now, bid, j, Seconds(first), Seconds(rest));
      }
    }
  }

  lemma NobodyGivesUp(fl: map<BatchId, SearchBatch>, limit: nat, now: nat)
    ensures AllGiveUp(fl, limit, now, Seconds(ExpiredEntries(fl, [], now)))
  {
  }

  /** Timeouts, by the clock: exactly the batches that were made more than the limit ago leave, and are
      remembered as timed out, the others are untouched. What is queued are results without an address,
      one at least for every entry of those batches that nobody answered, with the time since the batch
      was made, and nothing else. */
  lemma TimeoutsGiveUp(s: State, now: nat)
    requires AllSized(s)
    ensures var t := ClearTimedOut(s, now);
            && (forall bid :: bid in t.inFlight <==> bid in s.inFlight && now <= s.inFlight[bid].tsBeg + s.batchRunMax)
            && (forall bid :: bid in t.inFlight ==> t.inFlight[bid] == s.inFlight[bid])
            && t.bidsTimedOut == s.bidsTimedOut + set bid | bid in s.inFlight && bid !in t.inFlight
            && s.outQueue <= t.outQueue
            && var rs := t.outQueue[|s.outQueue|..];
               && AllGiveUp(s.inFlight, s.batchRunMax, now, rs)
               && forall bid, j | bid in s.inFlight && now > s.inFlight[bid].tsBeg + s.batchRunMax
                                  && 0 <= j < |s.inFlight[bid].sids| && !s.inFlight[bid].done[j] ::
                    IsGivenUp(s.inFlight, s.batchRunMax, now, bid, j, rs)
  {
    hide ExpiredEntries;
    hide SortedKeys;
    hide AllGiveUp;
    hide IsGivenUp;
    ExpiredIs(s, now);
    var bids := SortedKeys(Expired(s.inFlight, s.batchRunMax, now));
    ExpiredGiveUp(s.inFlight, bids, s.batchRunMax, now);
    var more := Seconds(ExpiredEntries(s.inFlight, bids, now));
    assert ClearTimedOut(s, now).outQueue == s.outQueue + more;
    assert (s.outQueue + more)[|s.outQueue|..] == more;
  }

  lemma ExpiredIs(s: State, now: nat)
    ensures forall bid :: bid in Expired(s.inFlight, s.batchRunMax, now)
                          <==> bid in s.inFlight && now > s.inFlight[bid].tsBeg + s.batchRunMax
  {
  }
}
