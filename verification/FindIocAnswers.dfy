/**
 What becomes of the answers in one datagram, exactly: which of them yield a result, and which
 yield one too many; and what timeouts yield.
 */
module FindIocAnswers {
  import opened Wrappers
  import opened FindIocState
  import opened FindIocIndex
  import opened FindIocRuns

  /** An indexed id belongs to an entry of its batch, as long as the batch is there. */
  ghost predicate Covers(s: State) {
    forall sid :: sid in s.bidBySid && s.bidBySid[sid] in s.inFlight ==> sid in s.inFlight[s.bidBySid[sid]].sids
  }

  lemma IndexCovers(s: State)
    requires IndexInv(s)
    ensures Covers(s)
  {
  }

  /** The position of a search id in its batch. */
  ghost function Position(b: SearchBatch, sid: SearchId): (i: nat)
    requires sid in b.sids
    ensures i < |b.sids| && b.sids[i] == sid
  {
    var i :| 0 <= i < |b.sids| && b.sids[i] == sid;
    i
  }

  ghost function ChannelOf(b: SearchBatch, sid: SearchId): Name
    requires sid in b.sids && Sized(b)
  {
    b.channels[Position(b, sid)]
  }

  lemma {:induction false} AnswersOnce(b: SearchBatch, sid: SearchId, src: Addr, addr: Addr, now: nat, i: nat)
    requires Sized(b) && DistinctSids(b) && sid in b.sids && i <= |b.sids|
    ensures Answers(b, sid, src, addr, now, i)
         == if i <= Position(b, sid) then [FindIocRes(ChannelOf(b, sid), Some(src), Some(addr), Age(b, now))] else []
    decreases |b.sids| - i
  {
    if i < |b.sids| {
      AnswersOnce(b, sid, src, addr, now, i + 1);
    }
  }

  /** The first answer to an id that the index knows finds its batch, so the branch for an id
      without a batch is dead, and yields one result: for the channel that was searched for, with the
      address in the answer, the one that it came from, and the time since the batch was made. */
  lemma FirstAnswerYieldsOne(s: State, answered: set<SearchId>, src: Addr, now: nat, ans: (SearchId, Addr))
    requires Good(s, answered) && Covers(s) && ans.0 in s.bidBySid && ans.0 !in answered
    ensures var bid := s.bidBySid[ans.0];
            && bid in s.inFlight && ans.0 in s.inFlight[bid].sids
            && var b, q := s.inFlight[bid], HandleOne(s, src, now, ans).outQueue;
               && |q| == |s.outQueue| + 1 && s.outQueue <= q
               && var r := q[|s.outQueue|];
                  && r.channel == ChannelOf(b, ans.0) && r.responseAddr == Some(src) && r.addr == Some(ans.1)
                  && r.dt == (if b.tsBeg <= now then now - b.tsBeg else 0)
  {
    hide PendingSids;
    hide Answers;
    hide Position;
    assert ans.0 in s.bidBySid - answered;
    var b := s.inFlight[s.bidBySid[ans.0]];
    assert DistinctSids(b);
    AnswersOnce(b, ans.0, src, ans.1, now, 0);
  }

  /** An answer to an id that was answered before in the same datagram, while the batch still
      waits for other answers. */
  ghost predicate Doubles(s: State, answered: set<SearchId>, sid: SearchId) {
    sid in answered && sid in s.bidBySid && s.bidBySid[sid] in s.inFlight
  }

  lemma MarkedAlready(b: SearchBatch, sid: SearchId)
    requires Sized(b) && forall j :: 0 <= j < |b.sids| && b.sids[j] == sid ==> b.done[j]
    ensures Mark(b, sid) == b
  {
    assert Mark(b, sid).done == b.done;
  }

  lemma AnsweredIsDone(s: State, answered: set<SearchId>, sid: SearchId)
    requires Good(s, answered) && Doubles(s, answered, sid)
    ensures var b := s.inFlight[s.bidBySid[sid]];
            Sized(b) && DistinctSids(b) && forall j :: 0 <= j < |b.sids| && b.sids[j] == sid ==> b.done[j]
  {
    var b := s.inFlight[s.bidBySid[sid]];
    assert sid !in s.bidBySid - answered;
    assert sid !in PendingSids(b);
  }

  /** Such an answer yields a channel once more, and no other answer does. */
  lemma HandleOneExact(s: State, answered: set<SearchId>, src: Addr, now: nat, ans: (SearchId, Addr))
    requires Good(s, answered) && Covers(s)
    ensures var t := HandleOne(s, src, now, ans);
            && Covers(t)
            && Account(t) == Account(s)
                             + if !Doubles(s, answered, ans.0) then multiset{}
                               else multiset{ChannelOf(s.inFlight[s.bidBySid[ans.0]], ans.0)}
  {
    HandleOneCovers(s, src, now, ans);
    if Doubles(s, answered, ans.0) {
      DoubledYieldsMore(s, answered, src, now, ans);
    } else if ans.0 !in answered {
      HandleOneConserves(s, answered, src, now, ans);
    } else {
      SameAccount(s, HandleOne(s, src, now, ans));
    }
  }

  lemma SameAccount(s: State, t: State)
    requires AllSized(s)
    requires t.channelsInput == s.channelsInput && t.inFlight == s.inFlight && t.outQueue == s.outQueue
             && t.yielded == s.yielded
    ensures AllSized(t) && Account(t) == Account(s)
  {
  }

  lemma HandleOneCovers(s: State, src: Addr, now: nat, ans: (SearchId, Addr))
    requires AllSized(s) && Covers(s)
    ensures Covers(HandleOne(s, src, now, ans))
  {
    hide Answers;
    hide AllDone;
  }

  lemma DoubledYieldsMore(s: State, answered: set<SearchId>, src: Addr, now: nat, ans: (SearchId, Addr))
    requires Good(s, answered) && Covers(s) && Doubles(s, answered, ans.0)
    ensures Account(HandleOne(s, src, now, ans))
         == Account(s) + multiset{ChannelOf(s.inFlight[s.bidBySid[ans.0]], ans.0)}
  {
    hide Answers;
    hide Mark;
    hide Waiting;
    hide InFlight;
    hide PendingSids;
    hide Position;
    hide ExactIndex;
    hide AllDistinct;
    var (sid, addr) := ans;
    var bid := s.bidBySid[sid];
    var b := s.inFlight[bid];
    AnsweredIsDone(s, answered, sid);
    MarkedAlready(b, sid);
    AnswersOnce(b, sid, src, addr, now, 0);
    var out := Answers(b, sid, src, addr, now, 0);
    OneChannel(s.outQueue, FindIocRes(ChannelOf(b, sid), Some(src), Some(addr), Age(b, now)));
    hide ChannelOf;
    hide Channels;
    hide AllDone;
    InFlightSplit(s.inFlight, bid);
    if AllDone(b) {
      AllDoneNothingWaits(b, 0);
    } else {
      assert s.inFlight[bid := b] == s.inFlight;
    }
  }

  lemma OneChannel(queue: seq<FindIocRes>, r: FindIocRes)
    ensures multiset(Channels(queue + [r])) == multiset(Channels(queue)) + multiset{r.channel}
  {
    ChannelsAppend(queue, [r]);
    assert Channels([r]) == [r.channel];
  }

  /** No answer of the datagram doubles a result, answer by answer. */
  ghost predicate NoDoubles(s: State, answered: set<SearchId>, src: Addr, now: nat, res: seq<(SearchId, Addr)>)
    requires AllSized(s)
    decreases |res|
  {
    res == []
    || (!Doubles(s, answered, res[0].0)
        && NoDoubles(HandleOne(s, src, now, res[0]), NowAnswered(s, answered, res[0].0), src, now, res[1..]))
  }

  lemma {:induction false} HandleAllExact(s: State, answered: set<SearchId>, src: Addr, now: nat,
                                          res: seq<(SearchId, Addr)>)
    requires Good(s, answered) && Covers(s)
    ensures AllSized(HandleAll(s, src, now, res)) && Account(s) <= Account(HandleAll(s, src, now, res))
    ensures Account(HandleAll(s, src, now, res)) == Account(s) <==> NoDoubles(s, answered, src, now, res)
    decreases |res|
  {
    hide Account;
    hide HandleOne;
    hide ExactIndex;
    hide AllDistinct;
    hide Covers;
    hide Position;
    hide Doubles;
    if res != [] {
      var t, more := HandleOne(s, src, now, res[0]), NowAnswered(s, answered, res[0].0);
      HandleOneExact(s, answered, src, now, res[0]);
      HandleOneKeepsIndex(s, answered, src, now, res[0]);
      HandleAllExact(t, more, src, now, res[1..]);
      if Doubles(s, answered, res[0].0) {
        assert |Account(t)| > |Account(s)|;
        MoreIsMore(Account(t), Account(HandleAll(t, src, now, res[1..])));
      }
    }
  }

  lemma MoreIsMore(a: multiset<Name>, b: multiset<Name>)
    requires a <= b
    ensures |a| <= |b|
  {
    assert b == a + (b - a);
  }

  // ---- the same, seen on the datagram ----

  predicate Has(res: seq<(SearchId, Addr)>, sid: SearchId) {
    exists j :: 0 <= j < |res| && res[j].0 == sid
  }

  /** The batch waits for an answer that is not among these. */
  ghost predicate StillWaits(index: map<SearchId, BatchId>, res: seq<(SearchId, Addr)>, bid: BatchId) {
    exists x :: x in index && index[x] == bid && !Has(res, x)
  }

  /** After some answers, an id repeats one of them while its batch waits for another answer. The index
      is the one before the datagram, which holds the ids that wait. */
  ghost predicate Repeats(index: map<SearchId, BatchId>, before: seq<(SearchId, Addr)>, sid: SearchId) {
    sid in index && Has(before, sid) && StillWaits(index, before, index[sid])
  }

  ghost predicate Unrepeated(index: map<SearchId, BatchId>, res: seq<(SearchId, Addr)>) {
    forall i :: 0 <= i < |res| ==> !Repeats(index, res[..i], res[i].0)
  }

  /** A batch that had indexed ids waits for at least one of them, as long as it is in flight. */
  ghost predicate Open(s: State)
    requires AllSized(s)
  {
    forall sid :: sid in s.bidBySid && s.bidBySid[sid] in s.inFlight ==> PendingSids(s.inFlight[s.bidBySid[sid]]) != {}
  }

  lemma OpenAtFirst(s: State)
    requires IndexInv(s)
    ensures Open(s)
  {
    hide PendingSids;
  }

  lemma HandleOneKeepsOpen(s: State, src: Addr, now: nat, ans: (SearchId, Addr))
    requires AllSized(s) && Open(s)
    ensures Open(HandleOne(s, src, now, ans)) && HandleOne(s, src, now, ans).bidBySid == s.bidBySid
  {
    hide Answers;
    hide PendingSids;
    hide AllDone;
    hide Mark;
    if ans.0 in s.bidBySid && s.bidBySid[ans.0] in s.inFlight {
      AllDoneIsNothingPending(Mark(s.inFlight[s.bidBySid[ans.0]], ans.0));
    }
  }

  /** What doubles a result is a repetition. */
  lemma DoublesIsRepeats(s: State, before: seq<(SearchId, Addr)>, sid: SearchId)
    requires Good(s, Answered(s, before)) && Open(s)
    ensures Doubles(s, Answered(s, before), sid) <==> Repeats(s.bidBySid, before, sid)
  {
    hide PendingSids;
    var index, answered := s.bidBySid, Answered(s, before);
    forall x | x in index
      ensures x in answered <==> Has(before, x)
    {
      AnsweredHas(s, before, x);
    }
    if Doubles(s, answered, sid) {
      var x :| x in PendingSids(s.inFlight[index[sid]]);
      assert x in index - answered;
      assert StillWaits(index, before, index[sid]);
    }
    if Repeats(index, before, sid) {
      var x :| x in index && index[x] == index[sid] && !Has(before, x);
      assert x in index - answered;
    }
  }

  lemma AnsweredHas(s: State, res: seq<(SearchId, Addr)>, x: SearchId)
    requires x in s.bidBySid
    ensures x in Answered(s, res) <==> Has(res, x)
  {
    if x in Answered(s, res) {
      var r :| r in res && r.0 in s.bidBySid && r.0 == x;
      var j :| 0 <= j < |res| && res[j] == r;
    }
    if j :| 0 <= j < |res| && res[j].0 == x {
      assert res[j] in res;
    }
  }

  lemma {:induction false} NoDoublesIff(s: State, before: seq<(SearchId, Addr)>, src: Addr, now: nat,
                                        res: seq<(SearchId, Addr)>)
    requires Good(s, Answered(s, before)) && Open(s)
    ensures NoDoubles(s, Answered(s, before), src, now, res)
       <==> forall i | 0 <= i < |res| :: !Repeats(s.bidBySid, before + res[..i], res[i].0)
    decreases |res|
  {
    hide HandleOne;
    hide ExactIndex;
    hide AllDistinct;
    hide Open;
    hide Doubles;
    hide Repeats;
    if res != [] {
      var t, more := HandleOne(s, src, now, res[0]), before + [res[0]];
      DoublesIsRepeats(s, before, res[0].0);
      HandleOneKeepsIndex(s, Answered(s, before), src, now, res[0]);
      HandleOneKeepsOpen(s, src, now, res[0]);
      NowAnsweredIs(s, t, before, res[0]);
      NoDoublesIff(t, more, src, now, res[1..]);
      assert before + res[..0] == before;
      forall i | 0 <= i < |res| - 1
        ensures more + res[1..][..i] == before + res[..i + 1] && res[1..][i] == res[i + 1]
      {
      }
      ShiftRepeats(s.bidBySid, before, res);
    }
  }

  lemma NowAnsweredIs(s: State, t: State, before: seq<(SearchId, Addr)>, ans: (SearchId, Addr))
    requires t.bidBySid == s.bidBySid
    ensures NowAnswered(s, Answered(s, before), ans.0) == Answered(t, before + [ans])
  {
    var all := before + [ans];
    forall x
      ensures x in NowAnswered(s, Answered(s, before), ans.0) <==> x in Answered(t, all)
    {
      if x in Answered(s, before) {
        var r :| r in before && r.0 in s.bidBySid && r.0 == x;
        assert r in all;
      }
      assert ans in all;
    }
  }

  lemma ShiftRepeats(index: map<SearchId, BatchId>, before: seq<(SearchId, Addr)>, res: seq<(SearchId, Addr)>)
    requires res != []
    ensures (forall i | 0 <= i < |res| :: !Repeats(index, before + res[..i], res[i].0))
       <==> && !Repeats(index, before, res[0].0)
            && forall i | 0 <= i < |res| - 1 :: !Repeats(index, (before + [res[0]]) + res[1..][..i], res[1..][i].0)
  {
    hide Repeats;
    assert before + res[..0] == before;
    forall i | 0 <= i < |res| - 1
      ensures (before + [res[0]]) + res[1..][..i] == before + res[..i + 1] && res[1..][i] == res[i + 1]
    {
    }
    if forall i | 0 <= i < |res| - 1 :: !Repeats(index, (before + [res[0]]) + res[1..][..i], res[1..][i].0) {
      forall k | 1 <= k < |res|
        ensures !Repeats(index, before + res[..k], res[k].0)
      {
        var i := k - 1;
        assert !Repeats(index, (before + [res[0]]) + res[1..][..i], res[1..][i].0);
      }
    }
  }

  /** A datagram conserves the channels if and only if none of its answers repeats the id of an
      earlier one while the batch of that id still waits for an answer that has not come before. */
  lemma ConservesIff(s: State, src: Addr, now: nat, res: seq<(SearchId, Addr)>)
    requires IndexInv(s)
    ensures AllSized(HandleResult(s, src, now, res))
    ensures Account(HandleResult(s, src, now, res)) == Account(s) <==> Unrepeated(s.bidBySid, res)
  {
    hide Account;
    hide ExactIndex;
    hide Open;
    hide NoDoubles;
    hide Repeats;
    hide Covers;
    IndexCovers(s);
    assert s.bidBySid - {} == s.bidBySid;
    HandleAllExact(s, {}, src, now, res);
    SameAccount(HandleAll(s, src, now, res), HandleResult(s, src, now, res));
    OpenAtFirst(s);
    assert Answered(s, []) == {};
    NoDoublesIff(s, [], src, now, res);
    assert forall i | 0 <= i < |res| :: [] + res[..i] == res[..i];
  }

  /** A batch that waits for two channels, and the first one answered twice by one datagram: its
      result is queued twice, and there is one channel more than before. */
  lemma RepeatIsDoubled(s: State, src: Addr, addr: Addr, now: nat, bid: BatchId, i: nat, j: nat)
    requires IndexInv(s) && bid in s.inFlight
    requires var b := s.inFlight[bid]; i < |b.sids| && j < |b.sids| && i != j && Sized(b) && !b.done[i] && !b.done[j]
    ensures AllSized(s)
    ensures var b := s.inFlight[bid];
            var dt := if b.tsBeg <= now then now - b.tsBeg else 0;
            var sid, r := b.sids[i], FindIocRes(b.channels[i], Some(src), Some(addr), dt);
            var t := HandleResult(s, src, now, [(sid, addr), (sid, addr)]);
            && t.outQueue == s.outQueue + [r, r]
            && AllSized(t) && Account(t) == Account(s) + multiset{b.channels[i]}
  {
    hide Answers;
    hide Account;
    hide Position;
    hide Mark;
    hide PendingSids;
    hide HandleOne;
    IndexCovers(s);
    var b := s.inFlight[bid];
    var sid := b.sids[i];
    var ans := (sid, addr);
    var t := HandleOne(s, src, now, ans);
    RepeatFirst(s, src, addr, now, bid, i, j);
    var u := HandleOne(t, src, now, ans);
    RepeatSecond(t, src, addr, now, bid, i);
    assert HandleAll(s, src, now, [ans, ans]) == u by {
      assert [ans, ans][1..] == [ans];
      assert HandleAll(u, src, now, []) == u;
    }
    SameAccount(u, HandleResult(s, src, now, [ans, ans]));
  }

  /** The first answer to an entry of a batch that waits for another one too. */
  lemma RepeatFirst(s: State, src: Addr, addr: Addr, now: nat, bid: BatchId, i: nat, j: nat)
    requires IndexInv(s) && Covers(s) && bid in s.inFlight && Sized(s.inFlight[bid])
    requires var b := s.inFlight[bid]; i < |b.sids| && j < |b.sids| && i != j && !b.done[i] && !b.done[j]
    ensures var b, t := s.inFlight[bid], HandleOne(s, src, now, (s.inFlight[bid].sids[i], addr));
            && Good(t, {b.sids[i]}) && Covers(t) && Account(t) == Account(s)
            && t.outQueue == s.outQueue + [FindIocRes(b.channels[i], Some(src), Some(addr), Age(b, now))]
            && b.sids[i] in t.bidBySid && t.bidBySid[b.sids[i]] == bid
            && bid in t.inFlight && t.inFlight[bid] == b.(done := t.inFlight[bid].done)
  {
    hide Answers;
    hide Account;
    hide Position;
    hide Mark;
    hide AllDone;
    var b := s.inFlight[bid];
    var sid := b.sids[i];
    BothPending(s, bid, i, j);
    hide ExactIndex;
    hide PendingSids;
    assert s.bidBySid - {} == s.bidBySid;
    FirstAnswerYieldsOne(s, {}, src, now, (sid, addr));
    HandleOneExact(s, {}, src, now, (sid, addr));
    HandleOneKeepsIndex(s, {}, src, now, (sid, addr));
    assert {} + {sid} == {sid};
    OneMoreWaits(b, i, j);
    SameChannel(b, i);
  }

  lemma BothPending(s: State, bid: BatchId, i: nat, j: nat)
    requires IndexInv(s) && bid in s.inFlight && Sized(s.inFlight[bid])
    requires var b := s.inFlight[bid]; i < |b.sids| && j < |b.sids| && !b.done[i] && !b.done[j]
    ensures var b := s.inFlight[bid];
            b.sids[i] in s.bidBySid && s.bidBySid[b.sids[i]] == bid && DistinctSids(b)
  {
    var b := s.inFlight[bid];
    assert b.sids[i] in PendingSids(b);
  }

  lemma OneMoreWaits(b: SearchBatch, i: nat, j: nat)
    requires Sized(b) && DistinctSids(b) && i < |b.sids| && j < |b.sids| && i != j && !b.done[j]
    ensures !AllDone(Mark(b, b.sids[i]))
  {
    assert !Mark(b, b.sids[i]).done[j];
  }

  lemma SameChannel(b: SearchBatch, i: nat)
    requires Sized(b) && DistinctSids(b) && i < |b.sids|
    ensures ChannelOf(b, b.sids[i]) == b.channels[i]
  {
  }

  lemma RepeatSecond(t: State, src: Addr, addr: Addr, now: nat, bid: BatchId, i: nat)
    requires bid in t.inFlight && i < |t.inFlight[bid].sids| && Good(t, {t.inFlight[bid].sids[i]}) && Covers(t)
    requires t.inFlight[bid].sids[i] in t.bidBySid && t.bidBySid[t.inFlight[bid].sids[i]] == bid
    ensures var b, u := t.inFlight[bid], HandleOne(t, src, now, (t.inFlight[bid].sids[i], addr));
            && Sized(b) && Account(u) == Account(t) + multiset{b.channels[i]}
            && u.outQueue == t.outQueue + [FindIocRes(b.channels[i], Some(src), Some(addr), Age(b, now))]
  {
    hide Answers;
    hide Account;
    hide Position;
    var b := t.inFlight[bid];
    var sid := b.sids[i];
    assert Doubles(t, {sid}, sid);
    AnsweredIsDone(t, {sid}, sid);
    HandleOneExact(t, {sid}, src, now, (sid, addr));
    AnswersOnce(b, sid, src, addr, now, 0);
  }

  // ---- whole runs ----

  /** No answer that a round reads is a repetition. */
  ghost predicate ExactRound(s: State, op: Op)
    requires Inv(s) && Can(s, op)
  {
    op.RoundOp? && op.r.Got? && s.outQueue == [] ==>
      (ScheduleIsKnown(s);
       BeforeReading(s, op.now, op.w);
       Unrepeated(FillInFlight(Schedule(Send(s, op.w).0), op.now).bidBySid, op.r.res))
  }

  lemma RoundExact(s: State, op: Op)
    requires Inv(s) && Can(s, op) && op.RoundOp?
    ensures AllSized(s) && AllSized(Apply(s, op))
    ensures Account(Apply(s, op)) == Account(s) <==> ExactRound(s, op)
  {
    hide Send;
    hide Schedule;
    hide FillInFlight;
    hide HandleResult;
    hide IndexInv;
    hide ScheduleInv;
    hide Account;
    hide Unrepeated;
    AllSizedInv(s);
    ScheduleIsKnown(s);
    if s.outQueue != [] {
      YieldKeeps(s);
    } else {
      BeforeReading(s, op.now, op.w);
      var s3 := FillInFlight(Schedule(Send(s, op.w).0), op.now);
      AllSizedInv(s3);
      if op.r.Got? {
        ConservesIff(s3, op.r.src, op.now, op.r.res);
      }
    }
    RoundKeeps(s, op.now, op.w, op.r, op.sleeperReady);
  }

  ghost predicate ExactStep(s: State, op: Op) {
    Inv(s) && Can(s, op) ==> ExactRound(s, op)
  }

  /** Over whole runs: each pushed channel is in exactly one place exactly once if and only if no
      datagram answered an id again while its batch was waiting for other answers. */
  lemma {:induction false} RunConservesIff(states: seq<State>, ops: seq<Op>, n: nat)
    requires IsRun(states, ops) && n <= |ops|
    ensures AllSized(states[n])
    ensures Balanced(states[n]) <==> forall i :: 0 <= i < n ==> ExactStep(states[i], ops[i])
  {
    hide Apply;
    hide Inv;
    hide IsNew;
    hide Account;
    hide ExactStep;
    RunConserves(states, ops, n);
    if n == 0 {
      NewIsGood(states[0]);
    } else {
      RunConservesIff(states, ops, n - 1);
      RunConserves(states, ops, n - 1);
      assert Follows(states[n - 1], ops[n - 1], states[n]);
      StepExact(states[n - 1], ops[n - 1]);
    }
  }

  lemma StepExact(s: State, op: Op)
    requires Inv(s) && Can(s, op) && AllSized(s) && NothingLost(s)
    ensures AllSized(Apply(s, op)) && (Balanced(Apply(s, op)) <==> Balanced(s) && ExactStep(s, op))
  {
    hide Account;
    hide Round;
    hide ClearTimedOut;
    hide IndexInv;
    hide ScheduleInv;
    hide ExactRound;
    hide Push;
    PushedFrame(s, op);
    ScheduleIsKnown(s);
    assert multiset(s.pushed + []) == multiset(s.pushed);
    match op {
      case PushOp(x) =>
        PushExact(s, x);
        NotARound(s, op);
      case OthersTakeIds(b, n) =>
        OthersKeep(s, b, n);
        NotARound(s, op);
      case PollStarts(now) =>
        ClearConserves(s, now);
        NotARound(s, op);
      case RoundOp(now, w, r, sl) =>
        RoundExact(s, op);
        RoundKeeps(s, now, w, r, sl);
    }
  }

  lemma PushExact(s: State, x: Name)
    requires Inv(s) && AllSized(s)
    ensures AllSized(Push(s, x)) && (Balanced(Push(s, x)) <==> Balanced(s))
  {
    hide Inv;
    hide Account;
    PushKeeps(s, x);
    PushedOne(s.pushed, Account(s), x);
  }

  lemma PushedOne(pushed: seq<Name>, b: multiset<Name>, x: Name)
    ensures multiset(pushed + [x]) == b + multiset{x} <==> multiset(pushed) == b
  {
    assert multiset(pushed + [x]) == multiset(pushed) + multiset{x};
    OneMoreEach(multiset(pushed), b, x);
  }

  lemma NotARound(s: State, op: Op)
    requires Inv(s) && Can(s, op) && !op.RoundOp?
    ensures ExactRound(s, op)
  {
  }

  lemma OneMoreEach(a: multiset<Name>, b: multiset<Name>, x: Name)
    ensures a + multiset{x} == b + multiset{x} <==> a == b
  {
    if a + multiset{x} == b + multiset{x} {
      assert (a + multiset{x}) - multiset{x} == a && (b + multiset{x}) - multiset{x} == b;
    }
  }
}
