/**
 Whole runs of the search engine: the send schedule, and where every pushed channel ends up.
 */
module FindIocRuns {
  import opened OrderedMaps
  import opened FindIocState
  import opened FindIocIndex
  import SearchDatagram

  // ---- the send schedule ----

  /** The targets a batch was serialised for, followed by those it still has to be sent to, are
      all targets in order; and while there are some left it is queued. */
  ghost predicate OnSchedule(s: State, bid: BatchId)
    requires bid in s.inFlight
  {
    && bid in s.sentTo
    && s.sentTo[bid] + s.inFlight[bid].tgts == AllTargets(|s.tgts|)
    && (s.inFlight[bid].tgts != [] ==> bid in s.batchSendQueue)
  }

  ghost predicate QueuedOnce(q: seq<BatchId>) {
    forall i, j :: 0 <= i < j < |q| ==> q[i] != q[j]
  }

  ghost predicate ScheduleInv(s: State) {
    QueuedOnce(s.batchSendQueue) && forall bid :: bid in s.inFlight ==> OnSchedule(s, bid)
  }

  ghost predicate Inv(s: State) {
    IndexInv(s) && ScheduleInv(s) && |s.inFlight| <= s.inFlightMax
  }

  /** The branch for a target that does not exist is dead. */
  lemma ScheduleIsKnown(s: State)
    requires AllSized(s) && ScheduleInv(s)
    ensures Schedulable(s)
  {
    forall bid, i | bid in s.inFlight && 0 <= i < |s.inFlight[bid].tgts|
      ensures s.inFlight[bid].tgts[i] < |s.tgts|
    {
      assert OnSchedule(s, bid);
      var all := s.sentTo[bid] + s.inFlight[bid].tgts;
      assert all[|s.sentTo[bid]| + i] == s.inFlight[bid].tgts[i];
    }
  }

  /** Batches that keep their targets stay on schedule. */
  lemma SameTargets(s: State, t: State)
    requires ScheduleInv(s)
    requires t.tgts == s.tgts && t.batchSendQueue == s.batchSendQueue && t.sentTo == s.sentTo
    requires forall bid :: bid in t.inFlight ==> bid in s.inFlight && t.inFlight[bid].tgts == s.inFlight[bid].tgts
    ensures ScheduleInv(t)
  {
    forall bid | bid in t.inFlight
      ensures OnSchedule(t, bid)
    {
      assert OnSchedule(s, bid);
    }
  }

  lemma HandleOneKeepsSchedule(s: State, src: Addr, now: nat, ans: (SearchId, Addr))
    requires AllSized(s) && ScheduleInv(s)
    ensures var t := HandleOne(s, src, now, ans);
            AllSized(t) && ScheduleInv(t) && t.inFlight.Keys <= s.inFlight.Keys && t.inFlightMax == s.inFlightMax
  {
    hide ScheduleInv;
    AnswerFrame(s, src, now, ans);
    hide HandleOne;
    SameTargets(s, HandleOne(s, src, now, ans));
  }

  /** An answer leaves alone what the schedule is about. */
  lemma AnswerFrame(s: State, src: Addr, now: nat, ans: (SearchId, Addr))
    requires AllSized(s)
    ensures var t := HandleOne(s, src, now, ans);
            && t.tgts == s.tgts && t.batchSendQueue == s.batchSendQueue && t.sentTo == s.sentTo
            && t.inFlightMax == s.inFlightMax && t.inFlight.Keys <= s.inFlight.Keys
            && SameTgts(s.inFlight, t.inFlight)
  {
    hide Answers;
    hide AllDone;
    hide Mark;
    hide SameTgts;
    SameTgtsSelf(s.inFlight);
    if ans.0 in s.bidBySid && s.bidBySid[ans.0] in s.inFlight {
      var bid := s.bidBySid[ans.0];
      SameTgtsPut(s.inFlight, bid, Mark(s.inFlight[bid], ans.0));
    }
  }

  /** No batch is new, and each is meant for the same targets. */
  ghost predicate SameTgts(fl: map<BatchId, SearchBatch>, fl': map<BatchId, SearchBatch>) {
    forall bid :: bid in fl' ==> bid in fl && fl'[bid].tgts == fl[bid].tgts
  }

  lemma SameTgtsSelf(fl: map<BatchId, SearchBatch>)
    ensures SameTgts(fl, fl)
  {
  }

  lemma SameTgtsPut(fl: map<BatchId, SearchBatch>, bid: BatchId, b: SearchBatch)
    requires bid in fl && b.tgts == fl[bid].tgts
    ensures SameTgts(fl, fl[bid := b]) && SameTgts(fl, fl - {bid})
  {
  }

  lemma {:induction false} HandleAllKeepsSchedule(s: State, src: Addr, now: nat, res: seq<(SearchId, Addr)>)
    requires AllSized(s) && ScheduleInv(s)
    ensures var t := HandleAll(s, src, now, res);
            ScheduleInv(t) && t.inFlight.Keys <= s.inFlight.Keys && t.inFlightMax == s.inFlightMax
    decreases |res|
  {
    hide HandleOne;
    hide ScheduleInv;
    if res != [] {
      HandleOneKeepsSchedule(s, src, now, res[0]);
      HandleAllKeepsSchedule(HandleOne(s, src, now, res[0]), src, now, res[1..]);
    }
  }

  lemma SmallerKeys(a: map<BatchId, SearchBatch>, b: map<BatchId, SearchBatch>)
    requires a.Keys <= b.Keys
    ensures |a| <= |b|
  {
    assert |a| == |a.Keys| && |b| == |b.Keys|;
    FewerOrEqual(a.Keys, b.Keys);
  }

  lemma HandleResultKeepsInv(s: State, src: Addr, now: nat, res: seq<(SearchId, Addr)>)
    requires Inv(s)
    ensures Inv(HandleResult(s, src, now, res))
  {
    hide IndexInv;
    assert AllSized(s) by { AllSizedInv(s); }
    HandleResultKeeps(s, src, now, res);
    HandleAllKeepsSchedule(s, src, now, res);
    var t := HandleAll(s, src, now, res);
    SmallerKeys(t.inFlight, s.inFlight);
    SameTargets(t, HandleResult(s, src, now, res));
  }

  lemma AllSizedInv(s: State)
    requires IndexInv(s)
    ensures AllSized(s)
  {
  }

  lemma ClearTimedOutKeepsInv(s: State, now: nat)
    requires Inv(s)
    ensures Inv(ClearTimedOut(s, now))
  {
    hide IndexInv;
    hide ExpiredEntries;
    AllSizedInv(s);
    ClearTimedOutKeeps(s, now);
    SmallerKeys(s.inFlight - Expired(s.inFlight, s.batchRunMax, now), s.inFlight);
    SameTargets(s, ClearTimedOut(s, now));
  }

  lemma CreateInFlightKeepsSchedule(s: State, now: nat)
    requires ScheduleInv(s) && FreshIds(s, 1)
    ensures ScheduleInv(CreateInFlight(s, now))
  {
    hide Id;
    var t, b := CreateInFlight(s, now), Id(s.nextBatch);
    assert b !in s.batchSendQueue;
    forall bid | bid in t.inFlight
      ensures OnSchedule(t, bid)
    {
      if bid == b {
        assert [] + AllTargets(|s.tgts|) == AllTargets(|s.tgts|);
      } else {
        assert OnSchedule(s, bid);
      }
    }
  }

  lemma {:induction false} FillInFlightKeepsInv(s: State, now: nat)
    requires Inv(s) && FreshIds(s, s.inFlightMax - |s.inFlight|)
    ensures var t := FillInFlight(s, now);
            Inv(t) && Account(t) == Account(s) && (t.channelsInput == [] || |t.inFlight| == t.inFlightMax)
    decreases s.inFlightMax - |s.inFlight|
  {
    hide CreateInFlight;
    hide Account;
    hide IndexInv;
    hide ScheduleInv;
    hide AllSized;
    AllSizedInv(s);
    if s.channelsInput != [] && |s.inFlight| < s.inFlightMax {
      var t := CreateInFlight(s, now);
      FewerFresh(s, s.inFlightMax - |s.inFlight|);
      CreateInFlightKeeps(s, now);
      CreateInFlightKeepsSchedule(s, now);
      StaysFresh(s, now, s.inFlightMax - |s.inFlight|);
      CreateKeepsLimits(s, now);
      FillInFlightKeepsInv(t, now);
    }
  }

  lemma CreateKeepsLimits(s: State, now: nat)
    ensures CreateInFlight(s, now).inFlightMax == s.inFlightMax
  {
  }

  lemma FewerFresh(s: State, k: nat)
    requires FreshIds(s, k) && k > 0
    ensures FreshIds(s, 1)
  {
  }

  // ---- sending keeps everything ----

  lemma {:induction false} SameWaiting(a: SearchBatch, b: SearchBatch, i: nat)
    requires Sized(a) && b == a.(tgts := b.tgts) && i <= |a.sids|
    ensures Waiting(a, i) == Waiting(b, i)
    decreases |a.sids| - i
  {
    if i < |a.sids| {
      SameWaiting(a, b, i + 1);
    }
  }

  lemma SendNextKeepsIndex(s: State)
    requires IndexInv(s) && Schedulable(s) && s.batchSendQueue != []
    requires s.batchSendQueue[0] in s.inFlight && s.inFlight[s.batchSendQueue[0]].tgts != []
    ensures IndexInv(SendNext(s)) && Account(SendNext(s)) == Account(s)
  {
    hide SearchDatagram.Datagram;
    hide Waiting;
    hide InFlight;
    var bid := s.batchSendQueue[0];
    var b := s.inFlight[bid];
    var b' := b.(tgts := b.tgts[1..]);
    SameWaiting(b, b', 0);
    InFlightSplit(s.inFlight, bid);
    InFlightUpdate(s.inFlight, bid, b');
    SamePending(s.inFlight, s.bidBySid, bid, b');
  }

  lemma SamePending(fl: map<BatchId, SearchBatch>, idx: map<SearchId, BatchId>, bid: BatchId, b: SearchBatch)
    requires (forall k :: k in fl ==> Sized(fl[k])) && ExactIndex(fl, idx)
    requires bid in fl && b == fl[bid].(tgts := b.tgts)
    ensures ExactIndex(fl[bid := b], idx)
  {
    assert PendingSids(b) == PendingSids(fl[bid]);
    hide PendingSids;
    var fl' := fl[bid := b];
    forall k, x | k in fl' && x in PendingSids(fl'[k])
      ensures x in idx && idx[x] == k
    {
      assert x in PendingSids(fl[k]);
    }
  }

  lemma SendNextKeepsSchedule(s: State)
    requires ScheduleInv(s) && Schedulable(s) && s.batchSendQueue != []
    requires s.batchSendQueue[0] in s.inFlight && s.inFlight[s.batchSendQueue[0]].tgts != []
    ensures ScheduleInv(SendNext(s))
  {
    hide SearchDatagram.Datagram;
    var t, q := SendNext(s), s.batchSendQueue;
    var b := q[0];
    assert t.batchSendQueue == q[1..] + [b];
    forall bid | bid in t.inFlight
      ensures OnSchedule(t, bid)
    {
      assert OnSchedule(s, bid);
      if bid == b {
        var all := s.inFlight[bid].tgts;
        assert (s.sentTo[bid] + [all[0]]) + all[1..] == s.sentTo[bid] + all;
        assert t.batchSendQueue[|q| - 1] == b;
      } else if bid in q {
        assert bid in q[1..];
      }
    }
  }

  /** A queue entry that is gone or exhausted can be dropped. */
  lemma DropKeepsSchedule(s: State)
    requires ScheduleInv(s) && s.batchSendQueue != []
    requires s.batchSendQueue[0] in s.inFlight ==> s.inFlight[s.batchSendQueue[0]].tgts == []
    ensures ScheduleInv(s.(batchSendQueue := s.batchSendQueue[1..]))
  {
    var t, q := s.(batchSendQueue := s.batchSendQueue[1..]), s.batchSendQueue;
    forall bid | bid in t.inFlight
      ensures OnSchedule(t, bid)
    {
      assert OnSchedule(s, bid);
      if bid in q && bid != q[0] {
        assert bid in q[1..];
      }
    }
  }

  /** Scheduling keeps the invariants, and unless there is nothing to send it leaves something in
      the send buffer. */
  lemma {:induction false} ScheduleKeeps(s: State)
    requires IndexInv(s) && ScheduleInv(s) && Schedulable(s)
    ensures var t := Schedule(s);
            && IndexInv(t) && ScheduleInv(t) && Account(t) == Account(s)
            && (t.buf1 == [] ==> t.batchSendQueue == [])
    decreases |s.batchSendQueue|
  {
    hide SendNext;
    hide ScheduleInv;
    hide ExactIndex;
    hide Account;
    if s.buf1 == [] && s.batchSendQueue != [] {
      var bid := s.batchSendQueue[0];
      if bid in s.inFlight && s.inFlight[bid].tgts != [] {
        SendNextKeepsIndex(s);
        SendNextKeepsSchedule(s);
        SendsSomething(s);
      } else {
        var t := s.(batchSendQueue := s.batchSendQueue[1..]);
        DropKeepsSchedule(s);
        SameAccount(s, t);
        ScheduleKeeps(t);
      }
    }
  }

  lemma SendsSomething(s: State)
    requires Schedulable(s) && s.batchSendQueue != []
    requires s.batchSendQueue[0] in s.inFlight && s.inFlight[s.batchSendQueue[0]].tgts != []
    ensures SendNext(s).buf1 != []
  {
    assert |SendNext(s).buf1| >= 16;
  }

  lemma SameAccount(s: State, t: State)
    requires AllSized(s)
             && t == s.(batchSendQueue := t.batchSendQueue, buf1 := t.buf1, nextBatch := t.nextBatch,
                        nextSearch := t.nextSearch)
    ensures Account(t) == Account(s) && AllSized(t)
  {
  }

  // ---- runs ----

  /** Everything that can happen to a stream. The counters are shared with other streams, so they
      can also move on their own. */
  datatype Op =
    | PushOp(x: Name)
    | OthersTakeIds(batches: nat, searches: nat)
    | PollStarts(now: nat)
    | RoundOp(now: nat, w: WriteEnv, r: ReadEnv, sleeperReady: bool)

  ghost predicate Can(s: State, op: Op) {
    op.RoundOp? ==> FreshRound(s)
  }

  ghost function Apply(s: State, op: Op): State
    requires Inv(s) && Can(s, op)
  {
    ScheduleIsKnown(s);
    match op
    case PushOp(x) => Push(s, x)
    case OthersTakeIds(b, n) => s.(nextBatch := s.nextBatch + b, nextSearch := s.nextSearch + n)
    case PollStarts(now) => ClearTimedOut(s, now)
    case RoundOp(now, w, r, sl) => Round(s, now, w, r, sl).0
  }

  /** No datagram of this operation answers a search id twice. */
  ghost predicate SingleAnswers(op: Op) {
    op.RoundOp? && op.r.Got? ==> NoRepeats(op.r.res)
  }

  ghost predicate Balanced(s: State)
    requires AllSized(s)
  {
    multiset(s.pushed) == Account(s)
  }

  ghost predicate NothingLost(s: State)
    requires AllSized(s)
  {
    multiset(s.pushed) <= Account(s)
  }

  lemma FreshAfterSchedule(s: State)
    requires Schedulable(s) && FreshRound(s) && |s.inFlight| <= s.inFlightMax
    ensures FreshIds(Schedule(s), s.inFlightMax - |s.inFlight|)
  {
    hide Schedule;
    hide Id;
    ScheduleFrame(s);
  }

  lemma SendFrame(s: State, w: WriteEnv)
    ensures Send(s, w).0 == s.(buf1 := Send(s, w).0.buf1)
  {
  }

  lemma SendKeeps(s: State, w: WriteEnv)
    requires Inv(s)
    ensures Inv(Send(s, w).0) && Account(Send(s, w).0) == Account(s) && (FreshRound(s) ==> FreshRound(Send(s, w).0))
  {
    SendFrame(s, w);
    hide Send;
    SameTargets(s, Send(s, w).0);
    SameAccount(s, Send(s, w).0);
  }

  /** A round up to the point where it reads from the socket. */
  lemma BeforeReading(s: State, now: nat, w: WriteEnv)
    requires Inv(s) && FreshRound(s)
    ensures var s1 := Send(s, w).0;
            && Schedulable(s1) && FreshRound(s1) && AllSized(Schedule(s1))
            && FreshIds(Schedule(s1), s.inFlightMax - |s.inFlight|)
            && |Schedule(s1).inFlight| == |s.inFlight| && Schedule(s1).inFlightMax == s.inFlightMax
            && var s3 := FillInFlight(Schedule(s1), now);
               Inv(s3) && Account(s3) == Account(s)
  {
    hide Send;
    hide Schedule;
    hide FillInFlight;
    hide IndexInv;
    hide ScheduleInv;
    hide Account;
    var s1 := Send(s, w).0;
    SendFrame(s, w);
    SendKeeps(s, w);
    AllSizedInv(s1);
    ScheduleIsKnown(s1);
    ScheduleFrame(s1);
    ScheduleKeeps(s1);
    FreshAfterSchedule(s1);
    FillInFlightKeepsInv(Schedule(s1), now);
  }

  lemma YieldKeeps(s: State)
    requires Inv(s)
    ensures var t := s.(outQueue := [], yielded := s.yielded + s.outQueue);
            Inv(t) && Account(t) == Account(s)
  {
    var t := s.(outQueue := [], yielded := s.yielded + s.outQueue);
    ChannelsAppend(s.yielded, s.outQueue);
    SameTargets(s, t);
    assert Channels([]) == [];
  }

  lemma RoundKeeps(s: State, now: nat, w: WriteEnv, r: ReadEnv, sleeperReady: bool)
    requires Inv(s) && FreshRound(s) && Schedulable(s)
    ensures var (t, c) := Round(s, now, w, r, sleeperReady);
            && Inv(t) && AllSized(t) && Account(s) <= Account(t)
            && ((r.Got? ==> NoRepeats(r.res)) ==> Account(s) == Account(t))
            && (c.EndOfStream? ==> t.channelsInput == [] && t.inFlight == map[] && t.outQueue == [])
  {
    hide Send;
    hide Schedule;
    hide FillInFlight;
    hide HandleResult;
    hide IndexInv;
    hide ScheduleInv;
    hide Account;
    if s.outQueue != [] {
      YieldKeeps(s);
    } else {
      BeforeReading(s, now, w);
      var s3 := FillInFlight(Schedule(Send(s, w).0), now);
      if r.Got? {
        AllSizedInv(s3);
        HandleResultKeepsInv(s3, r.src, now, r.res);
        HandleResultConserves(s3, r.src, now, r.res);
      }
    }
    AllSizedInv(Round(s, now, w, r, sleeperReady).0);
  }

  lemma HandleResultConserves(s: State, src: Addr, now: nat, res: seq<(SearchId, Addr)>)
    requires IndexInv(s)
    ensures var t := HandleResult(s, src, now, res);
            AllSized(t) && Account(s) <= Account(t) && (NoRepeats(res) ==> Account(s) == Account(t))
  {
    HandleResultKeeps(s, src, now, res);
  }

  lemma PushKeeps(s: State, x: Name)
    requires Inv(s)
    ensures Inv(Push(s, x)) && Account(Push(s, x)) == Account(s) + multiset{x}
  {
    SameTargets(s, Push(s, x));
    assert multiset(s.channelsInput + [x]) == multiset(s.channelsInput) + multiset{x};
  }

  lemma OthersKeep(s: State, b: nat, n: nat)
    requires Inv(s)
    ensures var t := s.(nextBatch := s.nextBatch + b, nextSearch := s.nextSearch + n);
              Inv(t) && Account(t) == Account(s)
  {
    var t := s.(nextBatch := s.nextBatch + b, nextSearch := s.nextSearch + n);
    SameTargets(s, t);
  }

  lemma RoundFrame(s: State, now: nat, w: WriteEnv, r: ReadEnv, sleeperReady: bool)
    requires Inv(s) && FreshRound(s) && Schedulable(s)
    ensures Round(s, now, w, r, sleeperReady).0.pushed == s.pushed
  {
    hide Send;
    hide Schedule;
    hide FillInFlight;
    hide HandleAll;
    hide Inv;
    hide Account;
    if s.outQueue == [] {
      BeforeReading(s, now, w);
      var s1 := Send(s, w).0;
      SendFrame(s, w);
      ScheduleFrame(s1);
      FillFrame(Schedule(s1), now);
      if r.Got? {
        HandleAllFrame(FillInFlight(Schedule(s1), now), r.src, now, r.res);
      }
    }
  }

  /** Only a push changes what was pushed. */
  lemma PushedFrame(s: State, op: Op)
    requires Inv(s) && Can(s, op)
    ensures Apply(s, op).pushed == s.pushed + if op.PushOp? then [op.x] else []
  {
    hide Round;
    hide ExpiredEntries;
    assert s.pushed + [] == s.pushed;
    ScheduleIsKnown(s);
    if op.RoundOp? {
      RoundFrame(s, op.now, op.w, op.r, op.sleeperReady);
    }
  }

  lemma {:induction false} FillFrame(s: State, now: nat)
    requires CanFill(s)
    ensures FillInFlight(s, now).pushed == s.pushed
    decreases s.inFlightMax - |s.inFlight|
  {
    if s.channelsInput != [] && |s.inFlight| < s.inFlightMax {
      StaysFresh(s, now, s.inFlightMax - |s.inFlight|);
      FillFrame(CreateInFlight(s, now), now);
    }
  }

  lemma {:induction false} HandleAllFrame(s: State, src: Addr, now: nat, res: seq<(SearchId, Addr)>)
    requires AllSized(s)
    ensures HandleAll(s, src, now, res).pushed == s.pushed
    decreases |res|
  {
    hide Answers;
    if res != [] {
      HandleAllFrame(HandleOne(s, src, now, res[0]), src, now, res[1..]);
    }
  }

  lemma ApplyKeeps(s: State, op: Op)
    requires Inv(s) && Can(s, op) && AllSized(s) && NothingLost(s)
    ensures var t := Apply(s, op);
            && Inv(t) && AllSized(t) && NothingLost(t)
            && (Balanced(s) && SingleAnswers(op) ==> Balanced(t))
  {
    hide Account;
    hide Round;
    hide ClearTimedOut;
    hide IndexInv;
    hide ScheduleInv;
    PushedFrame(s, op);
    ScheduleIsKnown(s);
    assert multiset(s.pushed + []) == multiset(s.pushed);
    match op {
      case PushOp(x) =>
        PushKeeps(s, x);
        assert multiset(s.pushed + [x]) == multiset(s.pushed) + multiset{x};
      case OthersTakeIds(b, n) =>
        OthersKeep(s, b, n);
      case PollStarts(now) =>
        ClearTimedOutKeepsInv(s, now);
        ClearConserves(s, now);
      case RoundOp(now, w, r, sl) =>
        RoundKeeps(s, now, w, r, sl);
    }
    AllSizedInv(Apply(s, op));
  }

  lemma ClearConserves(s: State, now: nat)
    requires IndexInv(s)
    ensures AllSized(ClearTimedOut(s, now)) && Account(ClearTimedOut(s, now)) == Account(s)
  {
    ClearTimedOutKeeps(s, now);
  }

  /** A stream as it is made. */
  function New(tgts: seq<Addr>, batchRunMax: nat, inFlightMax: nat, batchSize: nat, stop: bool, nb: nat,
               ns: nat): State {
    State(tgts, inFlightMax, batchSize, batchRunMax, stop, nb, ns, [], map[], map[], [], seq(1024, _ => 0),
          Addr(0, 5064), [], {}, {}, {}, 0, [], [], map[])
  }

  ghost predicate IsNew(s: State) {
    exists tgts, d, m, b, stop, nb, ns :: s == New(tgts, d, m, b, stop, nb, ns)
  }

  lemma NewIsGood(s: State)
    requires IsNew(s)
    ensures Inv(s) && AllSized(s) && Balanced(s)
  {
    assert Channels([]) == [];
  }

  ghost predicate IsRun(states: seq<State>, ops: seq<Op>) {
    && |states| == |ops| + 1 && IsNew(states[0])
    && forall i :: 0 <= i < |ops| ==> Follows(states[i], ops[i], states[i + 1])
  }

  /** The operation is possible, and where it is defined (which is always, as the runs show) its
      result is the next state. */
  ghost predicate Follows(s: State, op: Op, t: State) {
    Can(s, op) && (Inv(s) ==> t == Apply(s, op))
  }

  /** Search conservation. At every point of every run, each pushed channel is waiting for a batch,
      waiting for an answer, in the output queue or yielded: never lost, and, as long as no single
      datagram answers an id twice, in exactly one of these places exactly once. */
  lemma {:induction false} RunConserves(states: seq<State>, ops: seq<Op>, n: nat)
    requires IsRun(states, ops) && n <= |ops|
    ensures Inv(states[n]) && AllSized(states[n]) && NothingLost(states[n])
    ensures (forall i :: 0 <= i < n ==> SingleAnswers(ops[i])) ==> Balanced(states[n])
  {
    hide Apply;
    hide Inv;
    hide IsNew;
    hide Account;
    if n == 0 {
      NewIsGood(states[0]);
    } else {
      RunConserves(states, ops, n - 1);
      assert Follows(states[n - 1], ops[n - 1], states[n]);
      ApplyKeeps(states[n - 1], ops[n - 1]);
    }
  }

  /** When the stream ends, every pushed channel has been yielded; exactly as often as it was
      pushed, as long as no single datagram answered an id twice. */
  lemma EndYieldsEverything(states: seq<State>, ops: seq<Op>)
    requires IsRun(states, ops) && ops != [] && ops[|ops| - 1].RoundOp?
    ensures var s, op, t := states[|ops| - 1], ops[|ops| - 1], states[|ops|];
            && Schedulable(s) && FreshRound(s)
            && (Round(s, op.now, op.w, op.r, op.sleeperReady).1.EndOfStream? ==>
                  && multiset(t.pushed) <= multiset(Channels(t.yielded))
                  && ((forall i :: 0 <= i < |ops| ==> SingleAnswers(ops[i])) ==>
                        multiset(t.pushed) == multiset(Channels(t.yielded))))
  {
    hide Round;
    hide IndexInv;
    hide ScheduleInv;
    hide Account;
    hide IsNew;
    var n := |ops| - 1;
    var op := ops[n];
    assert Follows(states[n], op, states[n + 1]);
    RunConserves(states, ops, n);
    RunConserves(states, ops, n + 1);
    ScheduleIsKnown(states[n]);
    RoundKeeps(states[n], op.now, op.w, op.r, op.sleeperReady);
    if Round(states[n], op.now, op.w, op.r, op.sleeperReady).1.EndOfStream? {
      EmptyAccount(states[n + 1]);
    }
  }

  lemma EmptyAccount(s: State)
    requires s.channelsInput == [] && s.inFlight == map[] && s.outQueue == [] && AllSized(s)
    ensures Account(s) == multiset(Channels(s.yielded))
  {
    assert Channels([]) == [];
  }
}
