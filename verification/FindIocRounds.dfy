/**
 What a round of the search engine shows to its user, what a batch is made of, and what is noted about
 answers (netfetch/src/ca/findioc.rs).
 */
module FindIocRounds {
  import opened FindIocState
  import opened FindIocRuns

  // ---- what comes out ----

  /** The stream has nothing to do and nothing to wait for: the buffer is empty or cannot be sent,
      and no batch is queued for an empty buffer. */
  predicate Idle(s: State, w: WriteEnv) {
    && s.channelsInput == [] && s.inFlight == map[] && s.outQueue == []
    && if s.buf1 == [] then s.batchSendQueue == [] else w.SendFailed? || w.NotWritable?
  }

  /** Results are yielded as they are queued, all at once, before anything else. The stream ends
      exactly when nothing is left, nothing can be read, and it is to stop then; an error is yielded
      exactly when reading fails. */
  lemma RoundShows(s: State, now: nat, w: WriteEnv, r: ReadEnv, sl: bool)
    requires Inv(s) && FreshRound(s) && Schedulable(s)
    ensures var (t, c) := Round(s, now, w, r, sl);
            && (c.Yield? <==> s.outQueue != [])
            && (c.Yield? ==> c.items == s.outQueue && t == s.(outQueue := [], yielded := s.yielded + c.items))
            && (!c.Yield? ==> t.yielded == s.yielded)
            && (c.YieldError? <==> s.outQueue == [] && r.ReadFailed?)
            && (c.EndOfStream? <==> Idle(s, w) && r.NotReadable? && s.stopOnEmptyQueue)
  {
    hide *;
    RoundIs(s, now, w, r, sl);
    IdleIs(s, w);
    if s.outQueue == [] {
      WorkIs(s, now, w, r, sl);
      StuckIff(s, w, now);
      FilledShows(s, now, w);
      ReadShows(Filled(s, now, w), Busy(s, w), now, r, sl);
    }
  }

  lemma IdleIs(s: State, w: WriteEnv)
    ensures Idle(s, w) <==> Stuck(s, w) && s.channelsInput == [] && s.inFlight == map[] && s.outQueue == []
  {
  }

  lemma FilledShows(s: State, now: nat, w: WriteEnv)
    requires Schedulable(s) && FreshRound(s)
    ensures var t := Filled(s, now, w);
            t.yielded == s.yielded && t.outQueue == s.outQueue && t.stopOnEmptyQueue == s.stopOnEmptyQueue
  {
    hide Schedule;
    hide FillInFlight;
    hide FreshRound;
    hide AllSized;
    SendThenFill(s, w);
    ScheduleFrame(Send(s, w).0);
    FillShows(Schedule(Send(s, w).0), now);
  }

  lemma ReadShows(s: State, busy: bool, now: nat, r: ReadEnv, sl: bool)
    requires AllSized(s)
    ensures var (t, c) := ReadPart(s, busy, now, r, sl);
            var over := s.channelsInput == [] && s.inFlight == map[] && s.outQueue == [];
            && !c.Yield? && t.yielded == s.yielded && (c.YieldError? <==> r.ReadFailed?)
            && (c.EndOfStream? <==> r.NotReadable? && !busy && over && s.stopOnEmptyQueue)
  {
    hide HandleAll;
    if r.Got? {
      AnswersShow(s, r.src, now, r.res);
    }
  }

  /** The round can neither send nor make anything ready to send, nor make another batch. */
  predicate Stuck(s: State, w: WriteEnv) {
    && (s.buf1 == [] ==> s.batchSendQueue == []) && (s.buf1 != [] ==> w.SendFailed? || w.NotWritable?)
    && (s.channelsInput == [] || |s.inFlight| >= s.inFlightMax)
  }

  /** A round leaves it to the others exactly when there is nothing to yield, nothing to read and it is
      stuck, unless nothing at all is left and the stream is to end, or it is time for another look. It
      has changed nothing then. */
  lemma WaitsIff(s: State, now: nat, w: WriteEnv, r: ReadEnv, sl: bool)
    requires Inv(s) && FreshRound(s) && Schedulable(s)
    ensures var (t, c) := Round(s, now, w, r, sl);
            && (c.Wait? <==> s.outQueue == [] && r.NotReadable? && Stuck(s, w)
                             && !(s.channelsInput == [] && s.inFlight == map[] && (s.stopOnEmptyQueue || sl)))
            && (c.Wait? ==> t == s)
  {
    hide *;
    hide Idle;
    if s.outQueue == [] {
      WorkIs(s, now, w, r, sl);
      StuckIff(s, w, now);
      ReadWaits(Filled(s, now, w), Busy(s, w), now, r, sl);
    }
    RoundIs(s, now, w, r, sl);
  }

  /** The state that a round without results comes to before it reads. */
  function Filled(s: State, now: nat, w: WriteEnv): (t: State)
    requires Schedulable(s) && FreshRound(s)
    ensures AllSized(t)
  {
    SendThenFill(s, w);
    FillInFlight(Schedule(Send(s, w).0), now)
  }

  /** Such a round has done something. */
  predicate Busy(s: State, w: WriteEnv)
    requires Schedulable(s) && FreshRound(s)
  {
    SendThenFill(s, w);
    var (s1, sent) := Send(s, w);
    var s2 := Schedule(s1);
    sent || (s1.buf1 == [] && s1.batchSendQueue != []) || (s2.channelsInput != [] && |s2.inFlight| < s2.inFlightMax)
  }

  lemma RoundIs(s: State, now: nat, w: WriteEnv, r: ReadEnv, sl: bool)
    requires FreshRound(s) && Schedulable(s)
    ensures Round(s, now, w, r, sl)
         == if s.outQueue != [] then (s.(outQueue := [], yielded := s.yielded + s.outQueue), Yield(s.outQueue))
            else Work(s, now, w, r, sl)
  {
  }

  lemma WorkIs(s: State, now: nat, w: WriteEnv, r: ReadEnv, sl: bool)
    requires FreshRound(s) && Schedulable(s)
    ensures Work(s, now, w, r, sl) == ReadPart(Filled(s, now, w), Busy(s, w), now, r, sl)
  {
    hide Schedule;
    hide FillInFlight;
    hide ReadPart;
    hide FreshRound;
  }

  lemma ReadWaits(s: State, busy: bool, now: nat, r: ReadEnv, sl: bool)
    requires AllSized(s)
    ensures var (t, c) := ReadPart(s, busy, now, r, sl);
            var over := s.channelsInput == [] && s.inFlight == map[] && s.outQueue == [];
            && (c.Wait? <==> r.NotReadable? && !busy && !(over && (s.stopOnEmptyQueue || sl)))
            && (c.Wait? ==> t == s)
  {
    hide HandleResult;
  }

  lemma StuckIff(s: State, w: WriteEnv, now: nat)
    requires Schedulable(s) && FreshRound(s)
    ensures Busy(s, w) <==> !Stuck(s, w)
    ensures Stuck(s, w) ==> Filled(s, now, w) == s
  {
    hide Schedule;
    hide FillInFlight;
    hide FreshRound;
    hide AllSized;
    var s1 := Send(s, w).0;
    SendThenFill(s, w);
    ScheduleFrame(s1);
    NothingScheduled(s1);
    NothingFilled(Schedule(s1), now);
  }

  lemma NothingFilled(s: State, now: nat)
    requires CanFill(s)
    ensures s.channelsInput == [] || |s.inFlight| >= s.inFlightMax ==> FillInFlight(s, now) == s
  {
  }

  lemma NothingScheduled(s: State)
    requires Schedulable(s)
    ensures s.buf1 != [] || s.batchSendQueue == [] ==> Schedule(s) == s
  {
  }

  /** Filling up only makes batches: with no channel waiting it does nothing, and otherwise it leaves
      one in flight, if there is room. */
  lemma {:induction false} FillShows(s: State, now: nat)
    requires CanFill(s)
    ensures var t := FillInFlight(s, now);
            && t.yielded == s.yielded && t.outQueue == s.outQueue && t.stopOnEmptyQueue == s.stopOnEmptyQueue
            && (s.channelsInput == [] || |s.inFlight| >= s.inFlightMax ==> t == s)
            && (s.inFlight != map[] ==> t.inFlight != map[])
            && (s.channelsInput != [] && t.channelsInput == [] ==> t.inFlight != map[])
    decreases s.inFlightMax - |s.inFlight|
  {
    hide CanFill;
    hide CreateInFlight;
    if s.channelsInput != [] && |s.inFlight| < s.inFlightMax {
      OneFilled(s, now);
      CreateShows(s, now);
      FillShows(CreateInFlight(s, now), now);
    }
  }

  lemma CreateShows(s: State, now: nat)
    ensures var t := CreateInFlight(s, now);
            && t.yielded == s.yielded && t.outQueue == s.outQueue && t.stopOnEmptyQueue == s.stopOnEmptyQueue
            && t.inFlight != map[]
  {
    assert Id(s.nextBatch) in CreateInFlight(s, now).inFlight;
  }

  lemma {:induction false} AnswersShow(s: State, src: Addr, now: nat, res: seq<(SearchId, Addr)>)
    requires AllSized(s)
    ensures HandleAll(s, src, now, res).yielded == s.yielded
    decreases |res|
  {
    hide Answers;
    hide Mark;
    if res != [] {
      AnswersShow(HandleOne(s, src, now, res[0]), src, now, res[1..]);
    }
  }

  /** What a step yields to the user. */
  ghost function ShownBy(s: State, op: Op): seq<FindIocRes>
    requires Inv(s) && Can(s, op)
  {
    ScheduleIsKnown(s);
    match op
    case RoundOp(now, w, r, sl) =>
      var c := Round(s, now, w, r, sl).1;
      if c.Yield? then c.items else []
    case _ => []
  }

  /** What the rounds of a run have yielded to the user, in order. */
  ghost function Shown(states: seq<State>, ops: seq<Op>, n: nat): seq<FindIocRes>
    requires IsRun(states, ops) && n <= |ops|
  {
    if n == 0 then []
    else
      StepShows(states, ops, n - 1);
      Shown(states, ops, n - 1) + ShownBy(states[n - 1], ops[n - 1])
  }

  lemma StepShows(states: seq<State>, ops: seq<Op>, n: nat)
    requires IsRun(states, ops) && n < |ops|
    ensures Inv(states[n]) && Can(states[n], ops[n])
    ensures states[n + 1].yielded == states[n].yielded + ShownBy(states[n], ops[n])
  {
    hide IsNew;
    hide Inv;
    hide FreshRound;
    var s, op := states[n], ops[n];
    RunConserves(states, ops, n);
    assert Follows(s, op, states[n + 1]);
    OneShown(s, op);
  }

  lemma OneShown(s: State, op: Op)
    requires Inv(s) && Can(s, op)
    ensures Apply(s, op).yielded == s.yielded + ShownBy(s, op)
  {
    hide Inv;
    hide Round;
    hide FreshRound;
    hide Schedulable;
    hide Idle;
    assert s.yielded + [] == s.yielded;
    if op.RoundOp? {
      KnownSchedule(s);
      RoundShows(s, op.now, op.w, op.r, op.sleeperReady);
    }
  }

  /** Over any run: what counts as yielded is what the user was given. */
  lemma {:induction false} YieldedIsShown(states: seq<State>, ops: seq<Op>, n: nat)
    requires IsRun(states, ops) && n <= |ops|
    ensures states[n].yielded == Shown(states, ops, n)
  {
    hide IsNew;
    hide Follows;
    hide ShownBy;
    if n == 0 {
      NothingShown(states[0]);
    } else {
      YieldedIsShown(states, ops, n - 1);
      StepShows(states, ops, n - 1);
    }
  }

  lemma KnownSchedule(s: State)
    requires Inv(s)
    ensures Schedulable(s)
  {
    ScheduleIsKnown(s);
  }

  lemma NothingShown(s: State)
    requires IsNew(s)
    ensures s.yielded == []
  {
  }

  // ---- what a batch is made of ----

  /** A new batch: the channels that wait longest, as many as a batch may have, in order and none of
      them answered, with consecutive search ids that lead to it, at the time it is made, to be
      asked for at every target; and it is queued behind the others. */
  lemma NewBatchIs(s: State, now: nat)
    ensures var t, bid := CreateInFlight(s, now), s.nextBatch % 0x1_0000_0000;
            && bid in t.inFlight && t.inFlight == s.inFlight[bid := t.inFlight[bid]]
            && t.batchSendQueue == s.batchSendQueue + [bid]
            && var b := t.inFlight[bid];
               && b.tsBeg == now && b.channels + t.channelsInput == s.channelsInput
               && |b.channels| <= s.channelsPerBatch && (t.channelsInput != [] ==> |b.channels| == s.channelsPerBatch)
               && |b.sids| == |b.done| == |b.channels|
               && (forall i :: 0 <= i < |b.sids| ==>
                     && b.sids[i] == (s.nextSearch + i) % 0x1_0000_0000 && !b.done[i]
                     && b.sids[i] in t.bidBySid && t.bidBySid[b.sids[i]] == bid)
               && |b.tgts| == |s.tgts| && (forall i :: 0 <= i < |s.tgts| ==> b.tgts[i] == i)
  {
  }

  // ---- what is noted about answers ----

  /** An id that was answered is remembered; one that the index does not know is counted; a batch is
      remembered as done when its last entry is answered. */
  lemma AnswerIsNoted(s: State, src: Addr, now: nat, ans: (SearchId, Addr))
    requires AllSized(s)
    ensures var t := HandleOne(s, src, now, ans);
            && t.sidsDone == s.sidsDone + {ans.0}
            && t.resultForDoneSid == s.resultForDoneSid + (if ans.0 in s.bidBySid then 0 else 1)
            && t.bidsAllDone == s.bidsAllDone + set bid | bid in s.inFlight && bid !in t.inFlight
            && (forall bid :: bid in s.inFlight && bid !in t.inFlight ==>
                  ans.0 in s.bidBySid && s.bidBySid[ans.0] == bid
                  && forall j :: 0 <= j < |s.inFlight[bid].sids| ==>
                       s.inFlight[bid].done[j] || s.inFlight[bid].sids[j] == ans.0)
  {
    hide Answers;
    hide Mark;
    hide AllDone;
    if ans.0 in s.bidBySid && s.bidBySid[ans.0] in s.inFlight {
      LastAnswer(s.inFlight[s.bidBySid[ans.0]], ans.0);
    }
  }

  lemma LastAnswer(b: SearchBatch, sid: SearchId)
    requires Sized(b)
    ensures AllDone(Mark(b, sid)) <==> forall j :: 0 <= j < |b.sids| ==> b.done[j] || b.sids[j] == sid
  {
    assert forall j :: 0 <= j < |b.sids| ==> Mark(b, sid).done[j] == (b.done[j] || b.sids[j] == sid);
  }
}
