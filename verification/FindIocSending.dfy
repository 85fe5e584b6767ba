/**
 Where the search engine sends its datagrams: each batch is asked for at every target, in order.
 */
module FindIocSending {
  import opened Bytes
  import opened CaWire
  import opened FindIocState
  import opened FindIocIndex
  import opened FindIocRuns
  import SearchDatagram

  /** The bytes ask for exactly the channels of the batch, with their search ids, if and only if the
      format can carry their names. */
  ghost predicate AsksForBatch(bytes: seq<byte>, b: SearchBatch) {
    && bytes != [] && |b.sids| == |b.channels|
    && ((forall name :: name in b.channels ==> 0 !in name) ==>
          (SearchDatagram.Conveys(bytes, b.sids, b.channels)
           <==> forall name :: name in b.channels ==> |name| <= 65527))
  }

  /** The send buffer holds the datagram of the batch, for the next of its targets, which is then no
      longer to be asked. */
  ghost predicate Readied(s: State, t: State, bid: BatchId) {
    && bid in s.inFlight && bid in t.inFlight && s.inFlight[bid].tgts != []
    && s.inFlight[bid].tgts[0] < |s.tgts| && t.sendAddr == s.tgts[s.inFlight[bid].tgts[0]]
    && t.inFlight[bid].tgts == s.inFlight[bid].tgts[1..]
    && AsksForBatch(t.buf1, s.inFlight[bid])
  }

  /** There is nothing to send for this entry of the queue. */
  predicate Exhausted(s: State, bid: BatchId) {
    bid in s.inFlight ==> s.inFlight[bid].tgts == []
  }

  /** The n-th entry of the queue is the first for which there is something to send. It is sent, and
      goes to the back of the queue; the entries before it are dropped. */
  ghost predicate TakesTurn(s: State, t: State, n: nat)
    requires n < |s.batchSendQueue|
  {
    var bid := s.batchSendQueue[n];
    && !Exhausted(s, bid) && (forall j :: 0 <= j < n ==> Exhausted(s, s.batchSendQueue[j]))
    && Readied(s, t, bid)
    && t.batchSendQueue == s.batchSendQueue[n + 1..] + [bid]
    && bid in s.sentTo && t.sentTo == s.sentTo[bid := s.sentTo[bid] + [s.inFlight[bid].tgts[0]]]
    && t.inFlight == s.inFlight[bid := s.inFlight[bid].(tgts := s.inFlight[bid].tgts[1..])]
    && t == s.(inFlight := t.inFlight, buf1 := t.buf1, sendAddr := t.sendAddr,
               batchSendQueue := t.batchSendQueue, sentTo := t.sentTo)
  }

  lemma SendNextTakesTurn(s: State)
    requires Schedulable(s) && s.batchSendQueue != [] && !Exhausted(s, s.batchSendQueue[0])
    ensures TakesTurn(s, SendNext(s), 0)
  {
    hide SearchDatagram.Datagram;
    hide SearchDatagram.Conveys;
    var b := s.inFlight[s.batchSendQueue[0]];
    BatchIsAsked(b);
  }

  lemma BatchIsAsked(b: SearchBatch)
    requires Sized(b)
    ensures AsksForBatch(SearchDatagram.Datagram(b.sids, b.channels), b)
  {
    hide SearchDatagram.Conveys;
    var bytes := SearchDatagram.Datagram(b.sids, b.channels);
    assert |bytes| >= 16;
    hide SearchDatagram.Datagram;
    forall i | 0 <= i < |b.channels|
      ensures b.channels[i] in b.channels
    {
    }
    if forall name :: name in b.channels ==> 0 !in name {
      assert forall i :: 0 <= i < |b.channels| ==> NulFree(b.channels[i]);
      SearchDatagram.DatagramConveys(b.sids, b.channels);
    }
  }

  /** Filling an empty send buffer: the first batch in the queue that still has a target gets its
      turn; if there is none, the queue is empty afterwards, and nothing else changes. */
  lemma {:induction false} ScheduleTakesTurn(s: State)
    requires Schedulable(s) && s.buf1 == []
    ensures var t := Schedule(s);
            if forall bid :: bid in s.batchSendQueue ==> Exhausted(s, bid) then t == s.(batchSendQueue := [])
            else exists n :: 0 <= n < |s.batchSendQueue| && TakesTurn(s, t, n)
    decreases |s.batchSendQueue|
  {
    hide AsksForBatch;
    hide SendNext;
    hide TakesTurn;
    hide Exhausted;
    var q := s.batchSendQueue;
    if q != [] {
      ScheduleHead(s);
      assert forall bid :: bid in q <==> bid == q[0] || bid in q[1..];
      if Exhausted(s, q[0]) {
        var r := s.(batchSendQueue := q[1..]);
        ScheduleTakesTurn(r);
        SameExhausted(s, r);
        if n :| 0 <= n < |q[1..]| && TakesTurn(r, Schedule(r), n) {
          TurnLater(s, Schedule(r), n);
          assert TakesTurn(s, Schedule(s), n + 1);
        }
      } else {
        SendNextTakesTurn(s);
        assert TakesTurn(s, Schedule(s), 0);
      }
    }
  }

  lemma SameExhausted(s: State, r: State)
    requires r.inFlight == s.inFlight
    ensures forall bid :: Exhausted(r, bid) == Exhausted(s, bid)
  {
  }

  lemma ScheduleHead(s: State)
    requires Schedulable(s)
    ensures s.buf1 != [] ==> Schedule(s) == s
    ensures s.buf1 == [] && s.batchSendQueue != [] ==>
              var rest := s.(batchSendQueue := s.batchSendQueue[1..]);
              Schedule(s) == if Exhausted(s, s.batchSendQueue[0]) then Schedule(rest) else SendNext(s)
  {
    hide SendNext;
  }

  lemma TurnLater(s: State, t: State, n: nat)
    requires s.batchSendQueue != [] && Exhausted(s, s.batchSendQueue[0])
    requires n < |s.batchSendQueue[1..]| && TakesTurn(s.(batchSendQueue := s.batchSendQueue[1..]), t, n)
    ensures TakesTurn(s, t, n + 1)
  {
    hide AsksForBatch;
    var q, r := s.batchSendQueue, s.(batchSendQueue := s.batchSendQueue[1..]);
    assert q[1..][n] == q[n + 1] && q[1..][n + 1..] == q[n + 2..];
    forall j | 0 <= j < n + 1
      ensures Exhausted(s, q[j])
    {
      if j > 0 {
        assert Exhausted(r, q[1..][j - 1]);
      }
    }
  }

  // ---- one operation ----

  /** What is not about sending: the buffer stays, no batch loses a target, and a new one has all of
      them before it. */
  ghost predicate Carries(s: State, t: State) {
    && t.tgts == s.tgts && t.buf1 == s.buf1 && t.sendAddr == s.sendAddr
    && forall bid :: bid in t.inFlight ==>
         t.inFlight[bid].tgts == if bid in s.inFlight then s.inFlight[bid].tgts else AllTargets(|s.tgts|)
  }

  lemma CarriesFrom(s: State, t: State)
    requires t.tgts == s.tgts && t.buf1 == s.buf1 && t.sendAddr == s.sendAddr && SameTgts(s.inFlight, t.inFlight)
    ensures Carries(s, t)
  {
  }

  lemma AnswerCarries(s: State, src: Addr, now: nat, ans: (SearchId, Addr))
    requires AllSized(s)
    ensures var t := HandleOne(s, src, now, ans);
            t.tgts == s.tgts && t.buf1 == s.buf1 && t.sendAddr == s.sendAddr && SameTgts(s.inFlight, t.inFlight)
  {
    hide Answers;
    hide AllDone;
    hide Mark;
    hide SameTgts;
    AnswerFrame(s, src, now, ans);
  }

  lemma {:induction false} AnswersCarry(s: State, src: Addr, now: nat, res: seq<(SearchId, Addr)>)
    requires AllSized(s)
    ensures var t := HandleAll(s, src, now, res);
            t.tgts == s.tgts && t.buf1 == s.buf1 && t.sendAddr == s.sendAddr && SameTgts(s.inFlight, t.inFlight)
    decreases |res|
  {
    hide HandleOne;
    if res != [] {
      AnswerCarries(s, src, now, res[0]);
      AnswersCarry(HandleOne(s, src, now, res[0]), src, now, res[1..]);
    }
  }

  lemma {:induction false} FillCarries(s: State, now: nat)
    requires CanFill(s)
    ensures Carries(s, FillInFlight(s, now))
    decreases s.inFlightMax - |s.inFlight|
  {
    hide CanFill;
    hide CreateInFlight;
    if s.channelsInput != [] && |s.inFlight| < s.inFlightMax {
      OneFilled(s, now);
      CreateCarries(s, now);
      FillCarries(CreateInFlight(s, now), now);
      CarriesOn(s, CreateInFlight(s, now), FillInFlight(s, now));
    }
  }

  lemma CreateCarries(s: State, now: nat)
    requires CanFill(s) && |s.inFlight| < s.inFlightMax
    ensures Carries(s, CreateInFlight(s, now)) && s.inFlight.Keys <= CreateInFlight(s, now).inFlight.Keys
  {
    hide Id;
    assert Id(s.nextBatch) !in s.inFlight;
  }

  lemma CarriesOn(s: State, t: State, u: State)
    requires Carries(s, t) && Carries(t, u) && s.inFlight.Keys <= t.inFlight.Keys
    ensures Carries(s, u)
  {
  }

  lemma CarriesLess(s: State, t: State, u: State)
    requires Carries(s, t) && u.tgts == t.tgts && u.buf1 == t.buf1 && u.sendAddr == t.sendAddr
    requires SameTgts(t.inFlight, u.inFlight)
    ensures Carries(s, u)
  {
  }

  /** The operation can make a datagram ready: a round that is not for yielding, when the buffer is
      empty or the socket takes what is in it. */
  predicate Sends(s: State, op: Op) {
    op.RoundOp? && s.outQueue == [] && (s.buf1 == [] || op.w.SendDone?)
  }

  /** What one operation does to the batches that are in flight after it. */
  ghost predicate SendStep(s: State, sends: bool, t: State) {
    && t.tgts == s.tgts
    && (!sends ==> Carries(s, t))
    && (sends && t.buf1 == [] ==>
          forall bid :: bid in t.inFlight ==>
            t.inFlight[bid].tgts == if bid in s.inFlight then s.inFlight[bid].tgts else AllTargets(|s.tgts|))
    && forall bid :: bid in t.inFlight ==>
         if bid !in s.inFlight then t.inFlight[bid].tgts == AllTargets(|s.tgts|)
         else t.inFlight[bid].tgts == s.inFlight[bid].tgts || (sends && Readied(s, t, bid))
  }

  lemma RoundSends(s: State, now: nat, w: WriteEnv, r: ReadEnv, sl: bool)
    requires Inv(s) && FreshRound(s) && Schedulable(s) && s.outQueue == []
    ensures SendStep(s, s.buf1 == [] || w.SendDone?, Round(s, now, w, r, sl).0)
  {
    hide Schedule;
    hide FillInFlight;
    hide HandleAll;
    hide Inv;
    hide Account;
    hide Carries;
    hide SendStep;
    hide TakesTurn;
    hide Exhausted;
    hide SameTgts;
    BeforeReading(s, now, w);
    SendThenFill(s, w);
    var s1 := Send(s, w).0;
    var s2 := Schedule(s1);
    var s3 := FillInFlight(s2, now);
    var t := Round(s, now, w, r, sl).0;
    FillCarries(s2, now);
    if r.Got? {
      AnswersCarry(s3, r.src, now, r.res);
    } else {
      SameTgtsSelf(s3.inFlight);
    }
    CarriesLess(s2, s3, t);
    ScheduleHead(s1);
    if s.buf1 == [] || w.SendDone? {
      ScheduleTakesTurn(s1);
      TurnThenCarry(s, s1, s2, t);
    } else {
      WaitThenCarry(s, s1, s2, t);
    }
  }

  lemma WaitThenCarry(s: State, s1: State, s2: State, t: State)
    requires s1 == s && s2 == s1 && Carries(s2, t)
    ensures SendStep(s, false, t)
  {
    hide AsksForBatch;
  }

  lemma TurnThenCarry(s: State, s1: State, s2: State, t: State)
    requires s1 == s.(buf1 := []) && Carries(s2, t)
    requires if forall bid :: bid in s1.batchSendQueue ==> Exhausted(s1, bid) then s2 == s1.(batchSendQueue := [])
             else exists n :: 0 <= n < |s1.batchSendQueue| && TakesTurn(s1, s2, n)
    ensures SendStep(s, true, t)
  {
    hide AsksForBatch;
    hide SearchDatagram.Conveys;
    if n :| 0 <= n < |s1.batchSendQueue| && TakesTurn(s1, s2, n) {
      var bid := s1.batchSendQueue[n];
      assert Readied(s1, s2, bid);
      forall k | k in t.inFlight
        ensures if k !in s.inFlight then t.inFlight[k].tgts == AllTargets(|s.tgts|)
                else t.inFlight[k].tgts == s.inFlight[k].tgts || Readied(s, t, k)
      {
        assert k in s2.inFlight <==> k in s.inFlight;
        if k == bid {
          assert AsksForBatch(s2.buf1, s1.inFlight[bid]);
        }
      }
      ReadiedSomething(s1, s2, bid);
    }
  }

  lemma ReadiedSomething(s: State, t: State, bid: BatchId)
    requires Readied(s, t, bid)
    ensures t.buf1 != []
  {
    hide SearchDatagram.Conveys;
  }

  lemma StepSends(s: State, op: Op)
    requires Inv(s) && Can(s, op)
    ensures SendStep(s, Sends(s, op), Apply(s, op))
  {
    hide Inv;
    hide Account;
    hide Work;
    hide ExpiredEntries;
    hide SearchDatagram.Conveys;
    assert Schedulable(s) by {
      PartsOfInv(s);
      ScheduleIsKnown(s);
    }
    if Sends(s, op) || (op.RoundOp? && s.outQueue == []) {
      RoundSends(s, op.now, op.w, op.r, op.sleeperReady);
    } else {
      CarriesFrom(s, Apply(s, op));
    }
  }

  lemma PartsOfInv(s: State)
    requires Inv(s)
    ensures AllSized(s) && ScheduleInv(s) && IndexInv(s)
  {
  }

  // ---- whole runs ----

  /** The addresses at which the datagram of the batch was made ready in the first n steps, since the
      batch is in flight: the address in the buffer after each step that took a target off it. */
  ghost function AskedAt(states: seq<State>, n: nat, bid: BatchId): seq<Addr>
    requires n < |states|
  {
    if n == 0 || bid !in states[n - 1].inFlight || bid !in states[n].inFlight then []
    else
      AskedAt(states, n - 1, bid)
      + if states[n].inFlight[bid].tgts == states[n - 1].inFlight[bid].tgts then [] else [states[n].sendAddr]
  }

  ghost predicate Known(tgts: seq<Addr>, ixs: seq<nat>) {
    forall k :: 0 <= k < |ixs| ==> ixs[k] < |tgts|
  }

  ghost function Targets(tgts: seq<Addr>, ixs: seq<nat>): seq<Addr>
    requires Known(tgts, ixs)
  {
    seq(|ixs|, k requires 0 <= k < |ixs| => tgts[ixs[k]])
  }

  lemma AllOfThem(tgts: seq<Addr>)
    ensures Known(tgts, AllTargets(|tgts|)) && Targets(tgts, AllTargets(|tgts|)) == tgts
  {
  }

  /** Over any run: the addresses at which a batch in flight was asked for, followed by those at
      which it is still to be asked for, are all targets of the stream, each once and in order. */
  lemma {:induction false} AsksEveryTarget(states: seq<State>, ops: seq<Op>, n: nat, bid: BatchId)
    requires IsRun(states, ops) && n <= |ops| && bid in states[n].inFlight
    ensures states[n].tgts == states[0].tgts
    ensures var s := states[n];
            && Known(s.tgts, s.inFlight[bid].tgts)
            && AskedAt(states, n, bid) + Targets(s.tgts, s.inFlight[bid].tgts) == s.tgts
  {
    hide IsNew;
    hide Apply;
    hide Inv;
    hide Targets;
    hide Known;
    hide SendStep;
    hide Sends;
    if n > 0 {
      var s, t := states[n - 1], states[n];
      RunSends(states, ops, n - 1);
      SameStreamTargets(states, ops, n);
      if bid in s.inFlight {
        AsksEveryTarget(states, ops, n - 1, bid);
        OneMoreAsked(s, Sends(s, ops[n - 1]), t, bid, AskedAt(states, n - 1, bid));
      } else {
        NewlyAsked(s, Sends(s, ops[n - 1]), t, bid);
      }
    } else {
      NothingInFlight(states[0]);
    }
  }

  lemma NothingInFlight(s: State)
    requires IsNew(s)
    ensures s.inFlight == map[]
  {
  }

  lemma {:induction false} SameStreamTargets(states: seq<State>, ops: seq<Op>, n: nat)
    requires IsRun(states, ops) && n <= |ops|
    ensures states[n].tgts == states[0].tgts
  {
    hide IsNew;
    hide Apply;
    hide Inv;
    if n > 0 {
      SameStreamTargets(states, ops, n - 1);
      RunSends(states, ops, n - 1);
    }
  }

  /** A step of a run. */
  lemma RunSends(states: seq<State>, ops: seq<Op>, n: nat)
    requires IsRun(states, ops) && n < |ops|
    ensures Inv(states[n]) && Can(states[n], ops[n]) && SendStep(states[n], Sends(states[n], ops[n]), states[n + 1])
  {
    hide IsNew;
    hide Apply;
    hide Inv;
    RunConserves(states, ops, n);
    assert Follows(states[n], ops[n], states[n + 1]);
    StepSends(states[n], ops[n]);
  }

  lemma NewlyAsked(s: State, sends: bool, t: State, bid: BatchId)
    requires SendStep(s, sends, t) && bid !in s.inFlight && bid in t.inFlight
    ensures Known(t.tgts, t.inFlight[bid].tgts) && Targets(t.tgts, t.inFlight[bid].tgts) == t.tgts
    ensures [] + Targets(t.tgts, t.inFlight[bid].tgts) == t.tgts
  {
    AllOfThem(s.tgts);
  }

  lemma OneMoreAsked(s: State, sends: bool, t: State, bid: BatchId, asked: seq<Addr>)
    requires SendStep(s, sends, t) && bid in s.inFlight && bid in t.inFlight
    requires Known(s.tgts, s.inFlight[bid].tgts)
    requires asked + Targets(s.tgts, s.inFlight[bid].tgts) == s.tgts
    ensures Known(t.tgts, t.inFlight[bid].tgts)
    ensures var more := if t.inFlight[bid].tgts == s.inFlight[bid].tgts then [] else [t.sendAddr];
            (asked + more) + Targets(t.tgts, t.inFlight[bid].tgts) == t.tgts
  {
    hide AsksForBatch;
    var a, b := s.inFlight[bid].tgts, t.inFlight[bid].tgts;
    if a == b {
      assert asked + [] == asked;
    } else {
      assert Readied(s, t, bid);
      assert Targets(s.tgts, a) == [s.tgts[a[0]]] + Targets(s.tgts, b);
      assert (asked + [t.sendAddr]) + Targets(t.tgts, b) == asked + ([t.sendAddr] + Targets(t.tgts, b));
    }
  }
}
