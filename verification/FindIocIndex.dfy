/**
 What every operation of the search engine keeps: the index is exact, and no channel is lost.
 */
module FindIocIndex {
  import opened Wrappers
  import opened OrderedMaps
  import opened FindIocState

  // ---- sums over the batches in flight ----

  lemma SmallerMap(fl: map<BatchId, SearchBatch>, k: BatchId)
    requires k in fl
    ensures |fl - {k}| < |fl|
  {
    assert (fl - {k}).Keys == fl.Keys - {k};
    assert |fl.Keys - {k}| < |fl.Keys|;
  }

  lemma {:induction false} InFlightSplit(fl: map<BatchId, SearchBatch>, bid: BatchId)
    requires bid in fl && forall k :: k in fl ==> Sized(fl[k])
    ensures InFlight(fl) == Waiting(fl[bid], 0) + InFlight(fl - {bid})
    decreases |fl|
  {
    hide Waiting;
    hide Sized;
    var k := Pick(fl);
    if k != bid {
      SmallerMap(fl, k);
      SmallerMap(fl, bid);
      InFlightSplit(fl - {k}, bid);
      InFlightSplit(fl - {bid}, k);
      assert (fl - {k}) - {bid} == (fl - {bid}) - {k};
    }
  }

  lemma InFlightUpdate(fl: map<BatchId, SearchBatch>, bid: BatchId, b: SearchBatch)
    requires Sized(b) && forall k :: k in fl ==> Sized(fl[k])
    ensures InFlight(fl[bid := b]) == Waiting(b, 0) + InFlight(fl - {bid})
  {
    InFlightSplit(fl[bid := b], bid);
    assert fl[bid := b] - {bid} == fl - {bid};
  }

  // ---- one batch ----

  lemma {:induction false} AllDoneNothingWaits(b: SearchBatch, i: nat)
    requires Sized(b) && i <= |b.sids| && AllDone(b)
    ensures Waiting(b, i) == multiset{}
    decreases |b.sids| - i
  {
    if i < |b.sids| {
      AllDoneNothingWaits(b, i + 1);
    }
  }

  lemma {:induction false} FreshAllWaits(b: SearchBatch, i: nat)
    requires Sized(b) && i <= |b.sids| && forall j :: 0 <= j < |b.done| ==> !b.done[j]
    ensures Waiting(b, i) == multiset(b.channels[i..])
    decreases |b.sids| - i
  {
    if i < |b.sids| {
      FreshAllWaits(b, i + 1);
      assert b.channels[i..] == [b.channels[i]] + b.channels[i + 1..];
    }
  }

  lemma AllDoneIsNothingPending(b: SearchBatch)
    requires Sized(b)
    ensures AllDone(b) <==> PendingSids(b) == {}
  {
    if !AllDone(b) {
      var i :| 0 <= i < |b.done| && !b.done[i];
      assert b.sids[i] in PendingSids(b);
    }
  }

  lemma MarkPending(b: SearchBatch, sid: SearchId)
    requires Sized(b)
    ensures PendingSids(Mark(b, sid)) == PendingSids(b) - {sid}
  {
  }

  lemma ChannelsCons(r: FindIocRes, rs: seq<FindIocRes>)
    ensures multiset(Channels([r] + rs)) == multiset{r.channel} + multiset(Channels(rs))
  {
    assert Channels([r] + rs) == [r.channel] + Channels(rs);
  }

  lemma ChannelsAppend(a: seq<FindIocRes>, b: seq<FindIocRes>)
    ensures multiset(Channels(a + b)) == multiset(Channels(a)) + multiset(Channels(b))
  {
    assert Channels(a + b) == Channels(a) + Channels(b);
  }

  /** Answering an id moves its waiting channels to the results; entries that were done already
      come out once more. */
  lemma {:induction false} MarkMoves(b: SearchBatch, sid: SearchId, src: Addr, addr: Addr, now: nat, i: nat)
    requires Sized(b) && i <= |b.sids|
    ensures var out := multiset(Channels(Answers(b, sid, src, addr, now, i)));
            && Waiting(b, i) <= Waiting(Mark(b, sid), i) + out
            && ((forall j :: i <= j < |b.sids| && b.sids[j] == sid ==> !b.done[j]) ==>
                  Waiting(b, i) == Waiting(Mark(b, sid), i) + out)
    decreases |b.sids| - i
  {
    hide Waiting;
    hide Answers;
    hide Channels;
    if i < |b.sids| {
      MarkMoves(b, sid, src, addr, now, i + 1);
      MarkStep(b, sid, src, addr, now, i);
    } else {
      MarkEnd(b, sid, src, addr, now);
    }
  }

  lemma MarkStep(b: SearchBatch, sid: SearchId, src: Addr, addr: Addr, now: nat, i: nat)
    requires Sized(b) && i < |b.sids|
    ensures var m, out := Mark(b, sid), Answers(b, sid, src, addr, now, i);
            var more := Answers(b, sid, src, addr, now, i + 1);
            var one := multiset{b.channels[i]};
            && Waiting(b, i) == (if b.done[i] then multiset{} else one) + Waiting(b, i + 1)
            && Waiting(m, i) == (if b.done[i] || b.sids[i] == sid then multiset{} else one) + Waiting(m, i + 1)
            && multiset(Channels(out)) == (if b.sids[i] == sid then one else multiset{}) + multiset(Channels(more))
  {
    hide Channels;
    var rest := Answers(b, sid, src, addr, now, i + 1);
    if b.sids[i] == sid {
      ChannelsCons(FindIocRes(b.channels[i], Some(src), Some(addr), Age(b, now)), rest);
    } else {
      assert [] + rest == rest;
    }
  }

  lemma MarkEnd(b: SearchBatch, sid: SearchId, src: Addr, addr: Addr, now: nat)
    requires Sized(b)
    ensures var n := |b.sids|;
            && Waiting(b, n) == Waiting(Mark(b, sid), n) == multiset{}
            && multiset(Channels(Answers(b, sid, src, addr, now, n))) == multiset{}
  {
  }

  lemma OnlyPending(b: SearchBatch, sid: SearchId)
    requires Sized(b) && DistinctSids(b) && sid in PendingSids(b)
    ensures forall j :: 0 <= j < |b.sids| && b.sids[j] == sid ==> !b.done[j]
  {
  }

  // ---- one answer ----

  ghost predicate Good(s: State, answered: set<SearchId>) {
    AllSized(s) && AllDistinct(s) && ExactIndex(s.inFlight, s.bidBySid - answered)
  }

  function NowAnswered(s: State, answered: set<SearchId>, sid: SearchId): set<SearchId> {
    if sid in s.bidBySid then answered + {sid} else answered
  }

  /** One id leaves the pending ids of its batch and the index. */
  lemma IndexStep(fl: map<BatchId, SearchBatch>, idx: map<SearchId, BatchId>, bid: BatchId, b: SearchBatch,
                  sid: SearchId)
    requires (forall k :: k in fl ==> Sized(fl[k])) && ExactIndex(fl, idx)
    requires bid in fl && Sized(b) && PendingSids(b) == PendingSids(fl[bid]) - {sid}
    requires sid in idx ==> idx[sid] == bid
    ensures ExactIndex(fl[bid := b], idx - {sid})
    ensures PendingSids(b) == {} ==> ExactIndex(fl - {bid}, idx - {sid})
  {
    hide PendingSids;
    var fl' := fl[bid := b];
    forall k, x | k in fl' && x in PendingSids(fl'[k])
      ensures x in idx - {sid} && idx[x] == k
    {
      assert x in PendingSids(fl[k]);
    }
    if PendingSids(b) == {} {
      forall k, x | k in fl - {bid} && x in PendingSids((fl - {bid})[k])
        ensures x in idx - {sid} && idx[x] == k
      {
        assert x in PendingSids(fl[k]);
      }
    }
  }

  lemma HandleOneKeepsIndex(s: State, answered: set<SearchId>, src: Addr, now: nat, ans: (SearchId, Addr))
    requires Good(s, answered)
    ensures Good(HandleOne(s, src, now, ans), NowAnswered(s, answered, ans.0))
  {
    hide PendingSids;
    hide Answers;
    var sid := ans.0;
    if sid in s.bidBySid {
      assert s.bidBySid - (answered + {sid}) == (s.bidBySid - answered) - {sid};
      var bid := s.bidBySid[sid];
      if bid in s.inFlight {
        var b := Mark(s.inFlight[bid], sid);
        MarkPending(s.inFlight[bid], sid);
        AllDoneIsNothingPending(b);
        IndexStep(s.inFlight, s.bidBySid - answered, bid, b, sid);
        assert DistinctSids(b);
      } else {
        assert sid !in s.bidBySid - answered;
        assert answered + {sid} == answered;
      }
    }
  }

  /** An answer loses nothing, and moves exactly one channel when it is the first for its id. */
  lemma HandleOneConserves(s: State, answered: set<SearchId>, src: Addr, now: nat, ans: (SearchId, Addr))
    requires Good(s, answered)
    ensures Account(s) <= Account(HandleOne(s, src, now, ans))
    ensures ans.0 !in answered ==> Account(s) == Account(HandleOne(s, src, now, ans))
  {
    hide Answers;
    hide Mark;
    hide Waiting;
    hide InFlight;
    hide PendingSids;
    var (sid, addr) := ans;
    if sid in s.bidBySid && s.bidBySid[sid] in s.inFlight {
      var bid := s.bidBySid[sid];
      var b0 := s.inFlight[bid];
      var b := Mark(b0, sid);
      var out := Answers(b0, sid, src, addr, now, 0);
      InFlightSplit(s.inFlight, bid);
      InFlightUpdate(s.inFlight, bid, b);
      MarkMoves(b0, sid, src, addr, now, 0);
      ChannelsAppend(s.outQueue, out);
      if AllDone(b) {
        AllDoneNothingWaits(b, 0);
      }
      assert s.inFlight[bid := b] - {bid} == s.inFlight - {bid};
      if sid !in answered {
        assert sid in s.bidBySid - answered;
        OnlyPending(b0, sid);
      }
    }
  }

  // ---- a datagram of answers ----

  /** No search id occurs twice. */
  ghost predicate NoRepeats(res: seq<(SearchId, Addr)>) {
    forall i, j :: 0 <= i < j < |res| ==> res[i].0 != res[j].0
  }

  lemma HandleOneFrame(s: State, src: Addr, now: nat, ans: (SearchId, Addr))
    requires AllSized(s)
    ensures HandleOne(s, src, now, ans).bidBySid == s.bidBySid
  {
  }

  lemma AnsweredCons(s: State, t: State, res: seq<(SearchId, Addr)>)
    requires res != [] && s.bidBySid == t.bidBySid
    ensures Answered(s, res) == NowAnswered(s, {}, res[0].0) + Answered(t, res[1..])
  {
    forall x | x in Answered(s, res)
      ensures x in NowAnswered(s, {}, res[0].0) + Answered(t, res[1..])
    {
      var i :| 0 <= i < |res| && res[i].0 == x;
      if i > 0 {
        assert res[1..][i - 1] == res[i];
      }
    }
  }

  lemma {:induction false} HandleAllKeeps(s: State, answered: set<SearchId>, src: Addr, now: nat,
                                          res: seq<(SearchId, Addr)>)
    requires Good(s, answered)
    ensures var t := HandleAll(s, src, now, res);
            && t.bidBySid == s.bidBySid
            && Good(t, answered + Answered(s, res))
            && Account(s) <= Account(t)
            && (NoRepeats(res) && (forall i :: 0 <= i < |res| ==> res[i].0 !in answered) ==> Account(s) == Account(t))
    decreases |res|
  {
    hide HandleOne;
    hide ExactIndex;
    hide AllDistinct;
    hide Account;
    if res == [] {
      assert answered + Answered(s, res) == answered;
    } else {
      var s1 := HandleOne(s, src, now, res[0]);
      var answered1 := NowAnswered(s, answered, res[0].0);
      HandleOneKeepsIndex(s, answered, src, now, res[0]);
      HandleOneConserves(s, answered, src, now, res[0]);
      HandleOneFrame(s, src, now, res[0]);
      HandleAllKeeps(s1, answered1, src, now, res[1..]);
      AnsweredCons(s, s1, res);
      assert answered1 + Answered(s1, res[1..]) == answered + Answered(s, res);
    }
  }

  /** Between operations the index is exact, so the branch for an indexed id without a batch is
      dead for the first answer to an id. */
  ghost predicate IndexInv(s: State) {
    AllSized(s) && AllDistinct(s) && ExactIndex(s.inFlight, s.bidBySid)
  }

  lemma HandleResultKeeps(s: State, src: Addr, now: nat, res: seq<(SearchId, Addr)>)
    requires IndexInv(s)
    ensures var t := HandleResult(s, src, now, res);
            && IndexInv(t)
            && Account(s) <= Account(t)
            && (NoRepeats(res) ==> Account(s) == Account(t))
  {
    assert s.bidBySid - {} == s.bidBySid;
    HandleAllKeeps(s, {}, src, now, res);
    assert {} + Answered(s, res) == Answered(s, res);
  }

  // ---- a new batch ----

  lemma NewSidsDistinct(from: nat, n: nat)
    requires n <= 0x1_0000_0000
    ensures forall i, j :: 0 <= i < j < n ==> NewSids(from, n)[i] != NewSids(from, n)[j]
  {
    forall i, j | 0 <= i < j < n
      ensures NewSids(from, n)[i] != NewSids(from, n)[j]
    {
      IdsDiffer(from + i, from + j);
    }
  }

  /** An index stays exact when a batch with new ids and its index entries come in together. */
  lemma IndexGrows(fl: map<BatchId, SearchBatch>, idx: map<SearchId, BatchId>, bid: BatchId, b: SearchBatch)
    requires (forall k :: k in fl ==> Sized(fl[k])) && ExactIndex(fl, idx)
    requires bid !in fl && Sized(b) && PendingSids(b) == (set x | x in b.sids)
    requires forall x :: x in b.sids ==> x !in idx
    ensures ExactIndex(fl[bid := b], idx + Entries(b.sids, bid))
  {
    hide PendingSids;
    var fl', idx' := fl[bid := b], idx + Entries(b.sids, bid);
    forall k, x | k in fl' && x in PendingSids(fl'[k])
      ensures x in idx' && idx'[x] == k
    {
      if k != bid {
        assert x in PendingSids(fl[k]);
      }
    }
  }

  lemma FreshPending(b: SearchBatch)
    requires Sized(b) && forall j :: 0 <= j < |b.done| ==> !b.done[j]
    ensures PendingSids(b) == (set x | x in b.sids)
  {
    forall x | x in b.sids
      ensures x in PendingSids(b)
    {
      var i :| 0 <= i < |b.sids| && b.sids[i] == x;
      assert !b.done[i];
    }
  }

  lemma NewBatchIsNew(s: State, now: nat)
    requires FreshIds(s, 1)
    ensures var b := NewBatch(s, now);
            && Sized(b) && DistinctSids(b)
            && PendingSids(b) == (set x | x in b.sids)
            && Waiting(b, 0) == multiset(s.channelsInput[..BatchSize(s)])
            && (forall x :: x in b.sids ==> x !in s.bidBySid)
            && Id(s.nextBatch) !in s.inFlight
  {
    hide Id;
    hide PendingSids;
    var n, b := BatchSize(s), NewBatch(s, now);
    NewSidsDistinct(s.nextSearch, n);
    FreshPending(b);
    FreshAllWaits(b, 0);
    assert b.channels[0..] == b.channels;
  }

  lemma CreateInFlightKeeps(s: State, now: nat)
    requires IndexInv(s) && FreshIds(s, 1)
    ensures IndexInv(CreateInFlight(s, now)) && Account(CreateInFlight(s, now)) == Account(s)
    ensures |CreateInFlight(s, now).inFlight| == |s.inFlight| + 1
  {
    hide InFlight;
    hide Id;
    hide NewBatch;
    hide FreshIds;
    hide ExactIndex;
    hide Entries;
    NewBatchIsNew(s, now);
    IndexGrows(s.inFlight, s.bidBySid, Id(s.nextBatch), NewBatch(s, now));
    CreateInFlightConserves(s, now);
  }

  lemma CreateInFlightConserves(s: State, now: nat)
    requires AllSized(s) && FreshIds(s, 1)
    ensures Account(CreateInFlight(s, now)) == Account(s)
  {
    hide InFlight;
    hide Waiting;
    hide Id;
    hide NewBatch;
    hide PendingSids;
    hide FreshIds;
    hide Entries;
    var n, bid := BatchSize(s), Id(s.nextBatch);
    NewBatchIsNew(s, now);
    InFlightUpdate(s.inFlight, bid, NewBatch(s, now));
    assert s.inFlight - {bid} == s.inFlight;
    assert s.channelsInput == s.channelsInput[..n] + s.channelsInput[n..];
  }

  // ---- timeouts ----

  lemma SecondsAppend(a: seq<(SearchId, FindIocRes)>, b: seq<(SearchId, FindIocRes)>)
    ensures multiset(Channels(Seconds(a + b))) == multiset(Channels(Seconds(a))) + multiset(Channels(Seconds(b)))
  {
    assert Channels(Seconds(a + b)) == Channels(Seconds(a)) + Channels(Seconds(b));
  }

  lemma FirstsAppend(a: seq<(SearchId, FindIocRes)>, b: seq<(SearchId, FindIocRes)>)
    ensures Elements(Firsts(a + b)) == Elements(Firsts(a)) + Elements(Firsts(b))
  {
    assert Firsts(a + b) == Firsts(a) + Firsts(b);
  }

  lemma {:induction false} UnansweredWait(b: SearchBatch, dt: nat, i: nat)
    requires Sized(b) && i <= |b.sids|
    ensures multiset(Channels(Seconds(Unanswered(b, dt, i)))) == Waiting(b, i)
    decreases |b.sids| - i
  {
    hide Seconds;
    hide Channels;
    hide Unanswered;
    hide Waiting;
    if i < |b.sids| {
      UnansweredWait(b, dt, i + 1);
      UnansweredStep(b, dt, i);
    } else {
      NobodyWaits(b, dt);
    }
  }

  lemma NobodyWaits(b: SearchBatch, dt: nat)
    requires Sized(b)
    ensures multiset(Channels(Seconds(Unanswered(b, dt, |b.sids|)))) == Waiting(b, |b.sids|)
  {
    SmallSeconds([]);
  }

  lemma UnansweredStep(b: SearchBatch, dt: nat, i: nat)
    requires Sized(b) && i < |b.sids|
    ensures multiset(Channels(Seconds(Unanswered(b, dt, i))))
         == (if b.done[i] then multiset{} else multiset{b.channels[i]})
            + multiset(Channels(Seconds(Unanswered(b, dt, i + 1))))
    ensures Waiting(b, i) == (if b.done[i] then multiset{} else multiset{b.channels[i]}) + Waiting(b, i + 1)
  {
    hide Seconds;
    hide Channels;
    hide Firsts;
    var first := if b.done[i] then [] else [(b.sids[i], FindIocRes(b.channels[i], None, None, dt))];
    SecondsAppend(first, Unanswered(b, dt, i + 1));
    SmallSeconds(first);
  }

  lemma SmallSeconds(a: seq<(SearchId, FindIocRes)>)
    requires |a| <= 1
    ensures multiset(Channels(Seconds(a))) == if a == [] then multiset{} else multiset{a[0].1.channel}
    ensures Elements(Firsts(a)) == if a == [] then {} else {a[0].0}
  {
    if a != [] {
      assert Channels(Seconds(a)) == [a[0].1.channel];
      assert Firsts(a) == [a[0].0];
    }
  }

  /** The pending ids from entry i on. */
  function PendingFrom(b: SearchBatch, i: nat): set<SearchId>
    requires Sized(b) && i <= |b.sids|
  {
    set j | i <= j < |b.sids| && !b.done[j] :: b.sids[j]
  }

  lemma {:induction false} UnansweredPend(b: SearchBatch, dt: nat, i: nat)
    requires Sized(b) && i <= |b.sids|
    ensures Elements(Firsts(Unanswered(b, dt, i))) == PendingFrom(b, i)
    decreases |b.sids| - i
  {
    hide Firsts;
    hide Elements;
    if i < |b.sids| {
      UnansweredPend(b, dt, i + 1);
      var first := if b.done[i] then [] else [(b.sids[i], FindIocRes(b.channels[i], None, None, dt))];
      FirstsAppend(first, Unanswered(b, dt, i + 1));
      SmallSeconds(first);
      assert PendingFrom(b, i) == (if b.done[i] then {} else {b.sids[i]}) + PendingFrom(b, i + 1);
    } else {
      SmallSeconds([]);
    }
  }

  /** The pending ids of some batches. */
  function PendingIn(fl: map<BatchId, SearchBatch>, bids: seq<BatchId>): set<SearchId>
    requires forall bid :: bid in bids ==> bid in fl && Sized(fl[bid])
  {
    if bids == [] then {} else PendingSids(fl[bids[0]]) + PendingIn(fl, bids[1..])
  }

  /** Removing some batches and yielding their unanswered channels loses nothing, and the removed
      index entries are those of these batches. */
  lemma {:induction false} ExpiredEntriesAre(fl: map<BatchId, SearchBatch>, bids: seq<BatchId>, now: nat)
    requires forall bid :: bid in fl ==> Sized(fl[bid])
    requires forall bid :: bid in bids ==> bid in fl
    requires forall i, j :: 0 <= i < j < |bids| ==> bids[i] != bids[j]
    ensures var e := ExpiredEntries(fl, bids, now);
            && InFlight(fl) == multiset(Channels(Seconds(e))) + InFlight(fl - Elements(bids))
            && Elements(Firsts(e)) == PendingIn(fl, bids)
    decreases |bids|
  {
    hide Seconds;
    hide Firsts;
    hide Channels;
    hide Unanswered;
    hide PendingSids;
    hide InFlight;
    if bids == [] {
      assert fl - Elements(bids) == fl;
      SmallSeconds([]);
    } else {
      var bid, rest := bids[0], bids[1..];
      var dt := Age(fl[bid], now);
      var u, e := Unanswered(fl[bid], dt, 0), ExpiredEntries(fl, rest, now);
      ExpiredEntriesAre(fl, rest, now);
      UnansweredWait(fl[bid], dt, 0);
      UnansweredPend(fl[bid], dt, 0);
      PendingFromStart(fl[bid]);
      SecondsAppend(u, e);
      FirstsAppend(u, e);
      InFlightSplit(fl - Elements(rest), bid);
      assert (fl - Elements(rest)) - {bid} == fl - Elements(bids);
    }
  }

  lemma PendingFromStart(b: SearchBatch)
    requires Sized(b)
    ensures PendingFrom(b, 0) == PendingSids(b)
  {
  }

  lemma {:induction false} PendingInMembers(fl: map<BatchId, SearchBatch>, bids: seq<BatchId>, x: SearchId)
    requires forall bid :: bid in bids ==> bid in fl && Sized(fl[bid])
    ensures x in PendingIn(fl, bids) <==> exists i :: 0 <= i < |bids| && x in PendingSids(fl[bids[i]])
  {
    hide PendingSids;
    if bids != [] {
      PendingInMembers(fl, bids[1..], x);
      if x in PendingIn(fl, bids[1..]) {
        var i :| 0 <= i < |bids[1..]| && x in PendingSids(fl[bids[1..][i]]);
        assert bids[i + 1] == bids[1..][i];
      }
      forall i | 0 < i < |bids| && x in PendingSids(fl[bids[i]])
        ensures x in PendingIn(fl, bids[1..])
      {
        assert bids[1..][i - 1] == bids[i];
      }
    }
  }

  /** Some batches leave with their pending ids. */
  lemma IndexShrinks(fl: map<BatchId, SearchBatch>, idx: map<SearchId, BatchId>, bids: seq<BatchId>)
    requires (forall k :: k in fl ==> Sized(fl[k])) && ExactIndex(fl, idx)
    requires forall bid :: bid in bids ==> bid in fl
    ensures ExactIndex(fl - Elements(bids), idx - PendingIn(fl, bids))
  {
    hide PendingSids;
    hide PendingIn;
    var fl', idx' := fl - Elements(bids), idx - PendingIn(fl, bids);
    forall x | x in idx'
      ensures idx'[x] in fl' && x in PendingSids(fl'[idx'[x]])
    {
      PendingInMembers(fl, bids, x);
      assert idx[x] !in bids;
    }
    forall k, x | k in fl' && x in PendingSids(fl'[k])
      ensures x in idx' && idx'[x] == k
    {
      PendingInMembers(fl, bids, x);
      assert x in PendingSids(fl[k]);
      forall i | 0 <= i < |bids|
        ensures x !in PendingSids(fl[bids[i]])
      {
        assert k !in bids && bids[i] in bids;
        var bid := bids[i];
        assert bid in fl && bid != k && idx[x] == k;
      }
    }
  }

  lemma ClearTimedOutKeeps(s: State, now: nat)
    requires IndexInv(s)
    ensures IndexInv(ClearTimedOut(s, now)) && Account(ClearTimedOut(s, now)) == Account(s)
  {
    hide ExactIndex;
    hide InFlight;
    hide ExpiredEntries;
    hide Channels;
    hide Seconds;
    hide Firsts;
    hide PendingIn;
    var bids := SortedKeys(Expired(s.inFlight, s.batchRunMax, now));
    var e := ExpiredEntries(s.inFlight, bids, now);
    ClearedIs(s, now);
    hide ClearTimedOut;
    hide SortedKeys;
    hide Expired;
    ExpiredEntriesAre(s.inFlight, bids, now);
    IndexShrinks(s.inFlight, s.bidBySid, bids);
    ChannelsAppend(s.outQueue, Seconds(e));
  }

  lemma ClearedIs(s: State, now: nat)
    requires AllSized(s)
    ensures var bids := SortedKeys(Expired(s.inFlight, s.batchRunMax, now));
            && (forall bid :: bid in bids ==> bid in s.inFlight) && Ascending(bids)
            && var e, t := ExpiredEntries(s.inFlight, bids, now), ClearTimedOut(s, now);
               && Elements(bids) == Expired(s.inFlight, s.batchRunMax, now)
               && t.inFlight == s.inFlight - Elements(bids) && t.bidBySid == s.bidBySid - Elements(Firsts(e))
               && t.outQueue == s.outQueue + Seconds(e)
               && t.channelsInput == s.channelsInput && t.yielded == s.yielded
  {
    hide ExpiredEntries;
    hide Seconds;
    hide Firsts;
    hide SortedKeys;
    var x := Expired(s.inFlight, s.batchRunMax, now);
    assert forall bid :: bid in x ==> bid in s.inFlight;
    hide Expired;
    SameElements(x);
  }

  lemma SameElements(x: set<BatchId>)
    ensures Elements(SortedKeys(x)) == x
  {
    hide SortedKeys;
  }
}
