/**
 The object of netfetch/src/ca/findioc.rs. Every method is proved to take the fields where the
 functions of `FindIocState` take the same state; the socket and the clock are inputs.
 */
module FindIocStream {
  import opened Arithmetic
  import opened Wrappers
  import opened OrderedMaps
  import opened FindIocState
  import FindIocRuns
  import opened Bytes
  import SearchDatagram

  class FindIocStream {
    const tgts: seq<Addr>
    const inFlightMax: nat
    const channelsPerBatch: nat
    const batchRunMax: nat
    var stopOnEmptyQueue: bool
    var nextBatch: nat    // the process-wide counter behind the batch ids
    var nextSearch: nat   // and the one behind the search ids
    var channelsInput: seq<Name>
    var inFlight: map<BatchId, SearchBatch>
    var bidBySid: map<SearchId, BatchId>
    var batchSendQueue: seq<BatchId>
    var buf1: seq<byte>
    var sendAddr: Addr
    var outQueue: seq<FindIocRes>
    var bidsAllDone: set<BatchId>
    var bidsTimedOut: set<BatchId>
    var sidsDone: set<SearchId>
    var resultForDoneSid: nat
    ghost var pushed: seq<Name>
    ghost var yielded: seq<FindIocRes>
    ghost var sentTo: map<BatchId, seq<nat>>

    ghost function Abs(): State
      reads this
    {
      State(tgts, inFlightMax, channelsPerBatch, batchRunMax, stopOnEmptyQueue, nextBatch, nextSearch, channelsInput,
            inFlight, bidBySid, batchSendQueue, buf1, sendAddr, outQueue, bidsAllDone, bidsTimedOut, sidsDone,
            resultForDoneSid, pushed, yielded, sentTo)
    }

    constructor (tgts: seq<Addr>, batchRunMax: nat, inFlightMax: nat, batchSize: nat, nb: nat, ns: nat)
      ensures Abs() == FindIocRuns.New(tgts, batchRunMax, inFlightMax, batchSize, false, nb, ns)
    {
      this.tgts, this.inFlightMax, this.channelsPerBatch, this.batchRunMax := tgts, inFlightMax, batchSize, batchRunMax;
      nextBatch, nextSearch := nb, ns;
      channelsInput, inFlight, bidBySid, batchSendQueue := [], map[], map[], [];
      buf1 := seq(1024, _ => 0);
      sendAddr, outQueue := Addr(0, 5064), [];
      bidsAllDone, bidsTimedOut, sidsDone, resultForDoneSid := {}, {}, {}, 0;
      stopOnEmptyQueue := false;
      pushed, yielded, sentTo := [], [], map[];
    }

    method SetStopOnEmptyQueue()
      modifies this`stopOnEmptyQueue
      ensures Abs() == old(Abs()).(stopOnEmptyQueue := true)
    {
      stopOnEmptyQueue := true;
    }

    method PushChannel(x: Name)
      modifies this`channelsInput, this`pushed
      ensures Abs() == Push(old(Abs()), x)
    {
      channelsInput := channelsInput + [x];
      pushed := pushed + [x];
    }

    /** The loop of `create_in_flight`: takes waiting channels, gives each a search id and enters
        it into the index. */
    method TakeChannels(bid: BatchId) returns (sids: seq<SearchId>, chs: seq<Name>)
      modifies this`nextSearch, this`channelsInput, this`bidBySid
      ensures var n := Min(channelsPerBatch, |old(channelsInput)|);
              && chs == old(channelsInput)[..n] && sids == NewSids(old(nextSearch), n)
              && Abs() == TookChannels(old(Abs()), n, sids, bid)
    {
      hide Entries;
      hide Id;
      hide NewSids;
      sids, chs := [], [];
      NoEntries(bid, nextSearch);
      while |chs| < channelsPerBatch && |channelsInput| > 0
        invariant |chs| <= Min(channelsPerBatch, |old(channelsInput)|)
        invariant chs == old(channelsInput)[..|chs|] && channelsInput == old(channelsInput)[|chs|..]
        invariant sids == NewSids(old(nextSearch), |chs|) && nextSearch == old(nextSearch) + |chs|
        invariant bidBySid == old(bidBySid) + Entries(sids, bid)
        decreases |channelsInput|
      {
        var sid := Id(nextSearch);
        EntriesSnoc(sids, sid, bid);
        SidsSnoc(old(nextSearch), |chs|);
        nextSearch := nextSearch + 1;
        bidBySid := bidBySid[sid := bid];
        sids := sids + [sid];
        chs := chs + [channelsInput[0]];
        channelsInput := channelsInput[1..];
      }
    }

    method NextBatchId() returns (bid: BatchId)
      modifies this`nextBatch
      ensures bid == Id(old(nextBatch)) && Abs() == old(Abs()).(nextBatch := old(nextBatch) + 1)
    {
      bid := Id(nextBatch);
      nextBatch := nextBatch + 1;
    }

    method EnterBatch(bid: BatchId, batch: SearchBatch)
      modifies this`inFlight, this`batchSendQueue, this`sentTo
      ensures Abs() == Entered(old(Abs()), bid, batch)
    {
      inFlight := inFlight[bid := batch];
      batchSendQueue := batchSendQueue + [bid];
      sentTo := sentTo[bid := []];
    }

    method CreateBatch(now: nat)
      modifies this
      ensures Abs() == CreateInFlight(old(Abs()), now)
    {
      hide *;
      ghost var s := Abs();
      CreateIs(s, now);
      FieldsOf();
      var bid := NextBatchId();
      FieldsOf();
      var sids, chs := TakeChannels(bid);
      var batch := SearchBatch(now, AllTargets(|tgts|), chs, sids, NothingDone(|chs|));
      EnterBatch(bid, batch);
    }

    lemma FieldsOf()
      ensures var s := Abs();
              && s.tgts == tgts && s.channelsPerBatch == channelsPerBatch && s.nextBatch == nextBatch
              && s.nextSearch == nextSearch
              && s.channelsInput == channelsInput && s.bidBySid == bidBySid && s.inFlight == inFlight
              && s.batchRunMax == batchRunMax && s.outQueue == outQueue && s.yielded == yielded
              && s.bidsTimedOut == bidsTimedOut
              && s.sidsDone == sidsDone && s.resultForDoneSid == resultForDoneSid
              && s.batchSendQueue == batchSendQueue && s.buf1 == buf1 && s.inFlightMax == inFlightMax
    {
    }

    /** The scan of a batch for one answered id: sets the done flags and queues the results. */
    method MarkAnswered(b: SearchBatch, sid: SearchId, src: Addr, addr: Addr, now: nat) returns (m: SearchBatch)
      requires Sized(b)
      modifies this`outQueue
      ensures m == Mark(b, sid)
      ensures outQueue == old(outQueue) + Answers(b, sid, src, addr, now, 0)
    {
      var done := b.done;
      ghost var goal := outQueue + Answers(b, sid, src, addr, now, 0);
      for i := 0 to |b.sids|
        invariant |done| == |b.done|
        invariant forall j :: 0 <= j < |done| ==> done[j] == (b.done[j] || (j < i && b.sids[j] == sid))
        invariant outQueue + Answers(b, sid, src, addr, now, i) == goal
      {
        if b.sids[i] == sid {
          done := done[i := true];
          outQueue := outQueue + [FindIocRes(b.channels[i], Some(src), Some(addr), Age(b, now))];
        }
      }
      assert outQueue + [] == outQueue;
      m := b.(done := done);
    }

    /** Answers an id of a batch in flight, and removes the batch when that was its last. */
    method AnswerBatch(bid: BatchId, sid: SearchId, src: Addr, addr: Addr, now: nat)
      requires bid in inFlight && Sized(inFlight[bid])
      modifies this`outQueue, this`inFlight, this`bidsAllDone
      ensures Abs() == AnsweredIn(old(Abs()), bid, sid, src, addr, now)
    {
      hide Mark;
      hide Answers;
      var batch := MarkAnswered(inFlight[bid], sid, src, addr, now);
      inFlight := inFlight[bid := batch];
      if AllDone(batch) {
        bidsAllDone := bidsAllDone + {bid};
        inFlight := inFlight - {bid};
        assert inFlight == old(inFlight) - {bid};
      }
    }

    method NoteDone(sid: SearchId)
      modifies this`sidsDone
      ensures Abs() == old(Abs()).(sidsDone := old(sidsDone) + {sid})
    {
      sidsDone := sidsDone + {sid};
    }

    /** An answer for an id that is not indexed. The id was entered into the done ids just before,
        so it is always found there. */
    method NoteRepeated(sid: SearchId)
      requires sid in sidsDone
      modifies this`resultForDoneSid
      ensures Abs() == old(Abs()).(resultForDoneSid := old(resultForDoneSid) + 1)
    {
      if sid in sidsDone {
        resultForDoneSid := resultForDoneSid + 1;
      }
    }

    /** One answer of a datagram; tells whether its index entry is to be removed. */
    method HandleAnswer(src: Addr, now: nat, sid: SearchId, addr: Addr) returns (remove: bool)
      requires AllSized(Abs())
      modifies this`sidsDone, this`outQueue, this`inFlight, this`bidsAllDone, this`resultForDoneSid
      ensures Abs() == HandleOne(old(Abs()), src, now, (sid, addr))
      ensures remove == (sid in bidBySid)
    {
      hide *;
      HandleOneIs(Abs(), src, now, sid, addr);
      FieldsOf();
      NoteDone(sid);
      FieldsOf();
      if sid in bidBySid {
        var bid := bidBySid[sid];
        if bid in inFlight {
          AnswerBatch(bid, sid, src, addr, now);
        }
        return true;
      }
      NoteRepeated(sid);
      return false;
    }

    method RemoveSids(sids: seq<SearchId>)
      modifies this`bidBySid
      ensures Abs() == old(Abs()).(bidBySid := old(bidBySid) - Elements(sids))
    {
      for k := 0 to |sids|
        invariant bidBySid == old(bidBySid) - Elements(sids[..k])
      {
        assert Elements(sids[..k + 1]) == Elements(sids[..k]) + {sids[k]};
        bidBySid := bidBySid - {sids[k]};
      }
      assert sids[..|sids|] == sids;
    }

    method HandleDatagram(src: Addr, now: nat, res: seq<(SearchId, Addr)>)
      requires AllSized(Abs())
      modifies this`sidsDone, this`outQueue, this`inFlight, this`bidsAllDone, this`resultForDoneSid, this`bidBySid
      ensures Abs() == HandleResult(old(Abs()), src, now, res)
    {
      hide HandleOne;
      hide Elements;
      hide Answered;
      hide AllSized;
      ghost var s := Abs();
      var sidsRemove: seq<SearchId> := [];
      assert res[0..] == res;
      NothingAnswered(s, res);
      for i := 0 to |res|
        invariant AllSized(Abs()) && bidBySid == s.bidBySid
        invariant HandleAll(Abs(), src, now, res[i..]) == HandleAll(s, src, now, res)
        invariant Elements(sidsRemove) == Answered(s, res[..i])
      {
        var (sid, addr) := res[i];
        assert res[i..][0] == res[i] && res[i..][1..] == res[i + 1..];
        var remove := HandleAnswer(src, now, sid, addr);
        AnsweredStep(s, res, i);
        ElementsSnoc(sidsRemove, sid);
        if remove {
          sidsRemove := sidsRemove + [sid];
        }
      }
      assert res[..|res|] == res;
      RemoveSids(sidsRemove);
    }

    /** The inner scan of `clear_timed_out`: collects the unanswered entries of one batch. */
    method CollectUnanswered(b: SearchBatch, dt: nat, sids0: seq<SearchId>, chns0: seq<Name>, dts0: seq<nat>)
      returns (sids: seq<SearchId>, chns: seq<Name>, dts: seq<nat>)
      requires Sized(b) && |sids0| == |chns0| == |dts0|
      ensures |sids| == |chns| == |dts|
      ensures Zip(sids, chns, dts) == Zip(sids0, chns0, dts0) + Unanswered(b, dt, 0)
    {
      sids, chns, dts := sids0, chns0, dts0;
      ghost var goal := Zip(sids, chns, dts) + Unanswered(b, dt, 0);
      for i := 0 to |b.sids|
        invariant |sids| == |chns| == |dts|
        invariant Zip(sids, chns, dts) + Unanswered(b, dt, i) == goal
      {
        if !b.done[i] {
          ZipSnoc(sids, chns, dts, b.sids[i], b.channels[i], dt);
          sids, chns, dts := sids + [b.sids[i]], chns + [b.channels[i]], dts + [dt];
        }
      }
    }

    /** The first loop of `clear_timed_out`: the expired batches and their unanswered entries. */
    method CollectExpired(now: nat) returns (bids: seq<BatchId>, sids: seq<SearchId>, chns: seq<Name>, dts: seq<nat>)
      requires forall bid :: bid in inFlight ==> Sized(inFlight[bid])
      modifies this`bidsTimedOut
      ensures |sids| == |chns| == |dts|
      ensures bids == SortedKeys(Expired(inFlight, batchRunMax, now))
      ensures Zip(sids, chns, dts) == ExpiredEntries(inFlight, bids, now)
      ensures bidsTimedOut == old(bidsTimedOut) + Expired(inFlight, batchRunMax, now)
    {
      hide *;
      var fl := inFlight;
      var keys := SortedKeys(fl.Keys);
      bids, sids, chns, dts := [], [], [], [];
      NothingCollected(fl, batchRunMax, keys, now);
      for i := 0 to |keys|
        invariant |sids| == |chns| == |dts|
        invariant Collected(fl, batchRunMax, keys, i, bids, Zip(sids, chns, dts), now)
        invariant bidsTimedOut == old(bidsTimedOut) + Elements(bids)
      {
        var bid := keys[i];
        CollectOne(fl, batchRunMax, keys, i, bids, Zip(sids, chns, dts), now);
        var dt := Age(fl[bid], now);
        if dt > batchRunMax {
          OneMoreBid(old(bidsTimedOut), bids, bid);
          bidsTimedOut := bidsTimedOut + {bid};
          sids, chns, dts := CollectUnanswered(fl[bid], dt, sids, chns, dts);
          bids := bids + [bid];
        }
      }
      AllCollected(fl, batchRunMax, keys, bids, Zip(sids, chns, dts), now);
    }

    method CollectAndNote(now: nat) returns (bids: seq<BatchId>, sids: seq<SearchId>, chns: seq<Name>, dts: seq<nat>)
      requires forall bid :: bid in inFlight ==> Sized(inFlight[bid])
      modifies this`bidsTimedOut
      ensures |sids| == |chns| == |dts| && bids == SortedKeys(Expired(inFlight, batchRunMax, now))
      ensures Zip(sids, chns, dts) == ExpiredEntries(inFlight, bids, now)
      ensures Abs() == old(Abs()).(bidsTimedOut := old(bidsTimedOut) + Expired(inFlight, batchRunMax, now))
    {
      hide Expired;
      hide SortedKeys;
      hide ExpiredEntries;
      hide Zip;
      bids, sids, chns, dts := CollectExpired(now);
    }

    method ClearExpired(now: nat)
      requires AllSized(Abs())
      modifies this`bidsTimedOut, this`outQueue, this`bidBySid, this`inFlight
      ensures Abs() == ClearTimedOut(old(Abs()), now)
    {
      hide *;
      ghost var s := Abs();
      ClearIs(s, now);
      FieldsOf();
      var bids, sids, chns, dts := CollectAndNote(now);
      FieldsOf();
      RemoveEntries(sids, chns, dts);
      FieldsOf();
      RemoveBatches(bids);
    }

    method RemoveBatches(bids: seq<BatchId>)
      modifies this`inFlight
      ensures Abs() == old(Abs()).(inFlight := old(inFlight) - Elements(bids))
    {
      for k := 0 to |bids|
        invariant inFlight == old(inFlight) - Elements(bids[..k])
      {
        assert Elements(bids[..k + 1]) == Elements(bids[..k]) + {bids[k]};
        inFlight := inFlight - {bids[k]};
      }
      assert bids[..|bids|] == bids;
    }

    /** The second loop of `clear_timed_out`: yields the collected entries and drops them from the
        index. */
    method RemoveEntries(sids: seq<SearchId>, chns: seq<Name>, dts: seq<nat>)
      requires |sids| == |chns| == |dts|
      modifies this`outQueue, this`bidBySid
      ensures var e := Zip(sids, chns, dts);
              Abs() == old(Abs()).(outQueue := old(outQueue) + Seconds(e),
                                   bidBySid := old(bidBySid) - Elements(Firsts(e)))
    {
      ghost var e := Zip(sids, chns, dts);
      for k := 0 to |sids|
        invariant outQueue == old(outQueue) + Seconds(e[..k])
        invariant bidBySid == old(bidBySid) - Elements(Firsts(e[..k]))
      {
        assert Seconds(e[..k + 1]) == Seconds(e[..k]) + [e[k].1];
        assert Firsts(e[..k + 1]) == Firsts(e[..k]) + [e[k].0];
        outQueue := outQueue + [FindIocRes(chns[k], None, None, dts[k])];
        bidBySid := bidBySid - {sids[k]};
      }
      assert e[..|sids|] == e;
    }

    /** Serialises a batch for its next target and queues it again. The branch for a target index
        out of range is dead. */
    method SendBatch(bid: BatchId)
      requires buf1 == [] && bid in inFlight && inFlight[bid].tgts != []
      requires Schedulable(Abs())
      modifies this`batchSendQueue, this`inFlight, this`buf1, this`sendAddr, this`sentTo
      ensures Abs() == SendNext(old(Abs()).(batchSendQueue := [bid] + old(batchSendQueue)))
      ensures buf1 != []
    {
      hide SearchDatagram.Datagram;
      var batch := inFlight[bid];
      var tgtix := batch.tgts[0];
      inFlight := inFlight[bid := batch.(tgts := batch.tgts[1..])];
      buf1 := SearchDatagram.SerializeBatch(buf1, batch.sids, batch.channels);
      assert [] + SearchDatagram.Datagram(batch.sids, batch.channels)
          == SearchDatagram.Datagram(batch.sids, batch.channels);
      DatagramNotEmpty(batch.sids, batch.channels);
      if tgtix < |tgts| {
        sendAddr := tgts[tgtix];
        batchSendQueue := batchSendQueue + [bid];
        sentTo := sentTo[bid := sentTo[bid] + [tgtix]];
      } else {
        assert false;
      }
    }

    /** The sending loop: drops queued batches until one can be sent. */
    method ScheduleSend()
      requires Schedulable(Abs())
      modifies this`batchSendQueue, this`inFlight, this`buf1, this`sendAddr, this`sentTo
      ensures Abs() == Schedule(old(Abs()))
    {
      hide SendNext;
      ghost var goal := Schedule(Abs());
      while buf1 == [] && batchSendQueue != []
        invariant buf1 == [] && batchSendQueue != [] ==> Schedulable(Abs())
        invariant if buf1 == [] then Schedulable(Abs()) && Schedule(Abs()) == goal else Abs() == goal
        decreases buf1 == [], |batchSendQueue|
      {
        var bid := batchSendQueue[0];
        assert [bid] + batchSendQueue[1..] == batchSendQueue;
        batchSendQueue := batchSendQueue[1..];
        if bid in inFlight && inFlight[bid].tgts != [] {
          SendBatch(bid);
        }
      }
    }

    method FillBatches(now: nat)
      requires CanFill(Abs())
      modifies this
      ensures Abs() == FillInFlight(old(Abs()), now)
    {
      hide CreateInFlight;
      ghost var goal := FillInFlight(Abs(), now);
      while channelsInput != [] && |inFlight| < inFlightMax
        invariant CanFill(Abs())
        invariant FillInFlight(Abs(), now) == goal
        decreases inFlightMax - |inFlight|
      {
        ghost var s := Abs();
        StaysFresh(s, now, inFlightMax - |inFlight|);
        CreateKeepsSized(s, now);
        CreateBatch(now);
      }
    }

    /** The part of a round that tries to send the buffer. */
    method SendBuffer(w: WriteEnv) returns (loopAgain: bool)
      modifies this`buf1
      ensures (Abs(), loopAgain) == Send(old(Abs()), w)
    {
      loopAgain := false;
      if buf1 != [] {
        match w {
          case SendDone =>
            buf1 := [];
            loopAgain := true;
          case SendAgain =>
            loopAgain := true;
          case _ =>
        }
      }
    }

    method YieldQueue() returns (ret: seq<FindIocRes>)
      modifies this`outQueue, this`yielded
      ensures ret == old(outQueue)
      ensures Abs() == old(Abs()).(outQueue := [], yielded := old(yielded) + ret)
    {
      ret := outQueue;
      outQueue := [];
      yielded := yielded + ret;
    }

    /** One round of the loop in `poll_next`. */
    method PollRound(now: nat, w: WriteEnv, r: ReadEnv, sleeperReady: bool) returns (c: Control)
      requires FindIocRuns.Inv(Abs()) && FreshRound(Abs()) && Schedulable(Abs())
      modifies this
      ensures (Abs(), c) == Round(old(Abs()), now, w, r, sleeperReady)
      ensures FindIocRuns.Inv(Abs())
    {
      hide *;
      FindIocRuns.RoundKeeps(Abs(), now, w, r, sleeperReady);
      RoundIs(Abs(), now, w, r, sleeperReady);
      FieldsOf();
      if outQueue != [] {
        var ret := YieldQueue();
        return Yield(ret);
      }
      c := WorkRound(now, w, r, sleeperReady);
    }

    method WorkRound(now: nat, w: WriteEnv, r: ReadEnv, sleeperReady: bool) returns (c: Control)
      requires Schedulable(Abs()) && FreshRound(Abs())
      modifies this
      ensures (Abs(), c) == Work(old(Abs()), now, w, r, sleeperReady)
    {
      hide *;
      SendThenFill(Abs(), w);
      WorkIs(Abs(), now, w, r, sleeperReady);
      var again := SendBuffer(w);
      FieldsOf();
      again := again || (buf1 == [] && batchSendQueue != []);
      ScheduleSend();
      FieldsOf();
      again := again || (channelsInput != [] && |inFlight| < inFlightMax);
      FillBatches(now);
      c := ReadSocket(again, now, r, sleeperReady);
    }

    method ReadSocket(again: bool, now: nat, r: ReadEnv, sleeperReady: bool) returns (c: Control)
      requires AllSized(Abs())
      modifies this`sidsDone, this`outQueue, this`inFlight, this`bidsAllDone, this`resultForDoneSid, this`bidBySid
      ensures (Abs(), c) == ReadPart(old(Abs()), again, now, r, sleeperReady)
    {
      hide HandleResult;
      match r {
        case Got(src, res) =>
          HandleDatagram(src, now, res);
          return Continue;
        case ReadFailed =>
          return YieldError;
        case ReadAgain =>
          return Continue;
        case NotReadable =>
          if again {
            return Continue;
          }
          if channelsInput == [] && inFlight == map[] && outQueue == [] {
            return if stopOnEmptyQueue then EndOfStream else if sleeperReady then Continue else Wait;
          }
          return Wait;
      }
    }
  }

  function NothingDone(n: nat): seq<bool> {
    seq(n, _ => false)
  }

  function TookChannels(s: State, n: nat, sids: seq<SearchId>, bid: BatchId): State
    requires n <= |s.channelsInput|
  {
    s.(nextSearch := s.nextSearch + n, channelsInput := s.channelsInput[n..],
       bidBySid := s.bidBySid + Entries(sids, bid))
  }

  function Entered(s: State, bid: BatchId, batch: SearchBatch): State {
    s.(inFlight := s.inFlight[bid := batch], batchSendQueue := s.batchSendQueue + [bid], sentTo := s.sentTo[bid := []])
  }

  lemma CreateIs(s: State, now: nat)
    ensures var n, bid := Min(s.channelsPerBatch, |s.channelsInput|), Id(s.nextBatch);
            && n <= |s.channelsInput|
            && var sids := NewSids(s.nextSearch, n);
               var batch := SearchBatch(now, AllTargets(|s.tgts|), s.channelsInput[..n], sids, NothingDone(n));
               CreateInFlight(s, now)
                 == Entered(TookChannels(s.(nextBatch := s.nextBatch + 1), n, sids, bid), bid, batch)
  {
  }

  lemma ClearIs(s: State, now: nat)
    requires AllSized(s)
    ensures var bids := SortedKeys(Expired(s.inFlight, s.batchRunMax, now));
            && (forall bid :: bid in bids ==> bid in s.inFlight && Sized(s.inFlight[bid]))
            && (forall bid :: bid in s.inFlight ==> Sized(s.inFlight[bid]))
            && var e := ExpiredEntries(s.inFlight, bids, now);
               ClearTimedOut(s, now)
               == s.(bidsTimedOut := s.bidsTimedOut + Expired(s.inFlight, s.batchRunMax, now),
                     outQueue := s.outQueue + Seconds(e), bidBySid := s.bidBySid - Elements(Firsts(e)),
                     inFlight := s.inFlight - Elements(bids))
  {
    hide SortedKeys;
    hide ExpiredEntries;
    ElementsOfSorted(Expired(s.inFlight, s.batchRunMax, now));
  }

  lemma NoEntries(bid: BatchId, from: nat)
    ensures Entries([], bid) == map[] && NewSids(from, 0) == []
  {
  }

  lemma EntriesSnoc(sids: seq<SearchId>, sid: SearchId, bid: BatchId)
    ensures Entries(sids + [sid], bid) == Entries(sids, bid)[sid := bid]
  {
  }

  lemma SidsSnoc(from: nat, n: nat)
    ensures NewSids(from, n + 1) == NewSids(from, n) + [Id(from + n)]
  {
    hide Id;
  }

  lemma CreateKeepsSized(s: State, now: nat)
    requires AllSized(s)
    ensures AllSized(CreateInFlight(s, now))
  {
  }

  lemma DatagramNotEmpty(sids: seq<SearchId>, names: seq<Name>)
    requires |sids| == |names|
    ensures SearchDatagram.Datagram(sids, names) != []
  {
    assert |SearchDatagram.Datagram(sids, names)| >= 16;
  }

  function AnsweredIn(s: State, bid: BatchId, sid: SearchId, src: Addr, addr: Addr, now: nat): State
    requires bid in s.inFlight && Sized(s.inFlight[bid])
  {
    var b := Mark(s.inFlight[bid], sid);
    s.(outQueue := s.outQueue + Answers(s.inFlight[bid], sid, src, addr, now, 0),
       inFlight := if AllDone(b) then s.inFlight - {bid} else s.inFlight[bid := b],
       bidsAllDone := if AllDone(b) then s.bidsAllDone + {bid} else s.bidsAllDone)
  }

  lemma HandleOneIs(s: State, src: Addr, now: nat, sid: SearchId, addr: Addr)
    requires AllSized(s)
    ensures var t := s.(sidsDone := s.sidsDone + {sid});
            && sid in t.sidsDone
            && (forall bid :: bid in t.inFlight ==> Sized(t.inFlight[bid]))
            && HandleOne(s, src, now, (sid, addr))
               == if sid !in s.bidBySid then t.(resultForDoneSid := s.resultForDoneSid + 1)
                  else if s.bidBySid[sid] !in s.inFlight then t
                  else AnsweredIn(t, s.bidBySid[sid], sid, src, addr, now)
  {
    hide Mark;
    hide Answers;
    hide AllDone;
  }

  lemma RoundIs(s: State, now: nat, w: WriteEnv, r: ReadEnv, sleeperReady: bool)
    requires Schedulable(s) && FreshRound(s)
    ensures Round(s, now, w, r, sleeperReady)
         == if s.outQueue != [] then (s.(outQueue := [], yielded := s.yielded + s.outQueue), Yield(s.outQueue))
            else Work(s, now, w, r, sleeperReady)
  {
    hide Work;
  }

  lemma WorkIs(s: State, now: nat, w: WriteEnv, r: ReadEnv, sleeperReady: bool)
    requires Schedulable(s) && FreshRound(s)
    ensures var (s1, again1) := Send(s, w);
            && Schedulable(s1)
            && var s2 := Schedule(s1);
               && CanFill(s2)
               && var again := again1 || (s1.buf1 == [] && s1.batchSendQueue != [])
                    || (s2.channelsInput != [] && |s2.inFlight| < s2.inFlightMax);
                  Work(s, now, w, r, sleeperReady) == ReadPart(FillInFlight(s2, now), again, now, r, sleeperReady)
  {
    hide Send;
    hide Schedule;
    hide FillInFlight;
    hide ReadPart;
    hide CanFill;
    hide Schedulable;
    hide FreshRound;
    SendThenFill(s, w);
  }

  lemma NothingAnswered(s: State, res: seq<(SearchId, Addr)>)
    ensures Elements<SearchId>([]) == Answered(s, res[..0])
  {
  }

  lemma ElementsSnoc(sids: seq<SearchId>, sid: SearchId)
    ensures Elements(sids + [sid]) == Elements(sids) + {sid}
  {
  }

  lemma AnsweredStep(s: State, res: seq<(SearchId, Addr)>, i: nat)
    requires i < |res|
    ensures Answered(s, res[..i + 1]) == Answered(s, res[..i]) + if res[i].0 in s.bidBySid then {res[i].0} else {}
  {
    assert res[..i + 1] == res[..i] + [res[i]];
  }

  /** The expired batches among the first i keys. */
  ghost predicate CollectedUpTo(fl: map<BatchId, SearchBatch>, runMax: nat, keys: seq<BatchId>, i: nat,
                                bids: seq<BatchId>, now: nat)
    requires i <= |keys| && forall k :: k in keys ==> k in fl
  {
    && Ascending(keys) && Ascending(bids)
    && (forall bid :: bid in bids ==> bid in fl && bid in keys[..i] && TimedOut(fl[bid], runMax, now))
    && (forall bid :: bid in keys[..i] && TimedOut(fl[bid], runMax, now) ==> bid in bids)
  }

  /** Together with what they still waited for. */
  ghost predicate Collected(fl: map<BatchId, SearchBatch>, runMax: nat, keys: seq<BatchId>, i: nat,
                            bids: seq<BatchId>, entries: seq<(SearchId, FindIocRes)>, now: nat)
  {
    && i <= |keys| && (forall k :: k in keys ==> k in fl) && (forall bid :: bid in fl ==> Sized(fl[bid]))
    && CollectedUpTo(fl, runMax, keys, i, bids, now) && (forall bid :: bid in bids ==> bid in fl)
    && entries == ExpiredEntries(fl, bids, now)
  }

  lemma CollectOne(fl: map<BatchId, SearchBatch>, runMax: nat, keys: seq<BatchId>, i: nat, bids: seq<BatchId>,
                   entries: seq<(SearchId, FindIocRes)>, now: nat)
    requires i < |keys| && Collected(fl, runMax, keys, i, bids, entries, now)
    ensures keys[i] in fl && Sized(fl[keys[i]])
    ensures var k, dt := keys[i], Age(fl[keys[i]], now);
            if dt > runMax then Collected(fl, runMax, keys, i + 1, bids + [k], entries + Unanswered(fl[k], dt, 0), now)
            else Collected(fl, runMax, keys, i + 1, bids, entries, now)
  {
    hide ExpiredEntries;
    hide Unanswered;
    hide CollectedUpTo;
    CollectStep(fl, runMax, keys, i, bids, now);
    if Age(fl[keys[i]], now) > runMax {
      ExpiredSnoc(fl, bids, keys[i], now);
    }
  }

  lemma NothingCollected(fl: map<BatchId, SearchBatch>, runMax: nat, keys: seq<BatchId>, now: nat)
    requires (forall i, j :: 0 <= i < j < |keys| ==> keys[i] < keys[j]) && forall k :: k in keys ==> k in fl
    requires forall bid :: bid in fl ==> Sized(fl[bid])
    ensures Collected(fl, runMax, keys, 0, [], Zip([], [], []), now)
    ensures Elements<BatchId>([]) == {}
  {
  }

  lemma CollectStep(fl: map<BatchId, SearchBatch>, runMax: nat, keys: seq<BatchId>, i: nat, bids: seq<BatchId>,
                    now: nat)
    requires i < |keys| && (forall k :: k in keys ==> k in fl) && CollectedUpTo(fl, runMax, keys, i, bids, now)
    ensures CollectedUpTo(fl, runMax, keys, i + 1,
                          if TimedOut(fl[keys[i]], runMax, now) then bids + [keys[i]] else bids, now)
    ensures TimedOut(fl[keys[i]], runMax, now) <==> Age(fl[keys[i]], now) > runMax
  {
    assert keys[..i + 1] == keys[..i] + [keys[i]];
    forall j | 0 <= j < |bids|
      ensures bids[j] < keys[i]
    {
      assert bids[j] in keys[..i];
    }
  }

  lemma OneMoreBid(was: set<BatchId>, bids: seq<BatchId>, bid: BatchId)
    ensures was + Elements(bids) + {bid} == was + Elements(bids + [bid])
  {
  }

  lemma AllCollected(fl: map<BatchId, SearchBatch>, runMax: nat, keys: seq<BatchId>, bids: seq<BatchId>,
                     entries: seq<(SearchId, FindIocRes)>, now: nat)
    requires keys == SortedKeys(fl.Keys) && Collected(fl, runMax, keys, |keys|, bids, entries, now)
    ensures bids == SortedKeys(Expired(fl, runMax, now)) && Elements(bids) == Expired(fl, runMax, now)
    ensures (forall bid :: bid in bids ==> bid in fl) && entries == ExpiredEntries(fl, bids, now)
  {
    hide SortedKeys;
    hide ExpiredEntries;
    assert keys[..|keys|] == keys;
    AscendingUnique(bids, SortedKeys(Expired(fl, runMax, now)));
  }

  function Zip(sids: seq<SearchId>, chns: seq<Name>, dts: seq<nat>): seq<(SearchId, FindIocRes)>
    requires |sids| == |chns| == |dts|
  {
    seq(|sids|, k requires 0 <= k < |sids| => (sids[k], FindIocRes(chns[k], None, None, dts[k])))
  }

  lemma ZipSnoc(sids: seq<SearchId>, chns: seq<Name>, dts: seq<nat>, sid: SearchId, ch: Name, dt: nat)
    requires |sids| == |chns| == |dts|
    ensures Zip(sids + [sid], chns + [ch], dts + [dt]) == Zip(sids, chns, dts) + [(sid, FindIocRes(ch, None, None, dt))]
  {
  }

  lemma {:induction false} ExpiredSnoc(fl: map<BatchId, SearchBatch>, bids: seq<BatchId>, bid: BatchId, now: nat)
    requires (forall k :: k in bids ==> k in fl && Sized(fl[k])) && bid in fl && Sized(fl[bid])
    ensures ExpiredEntries(fl, bids + [bid], now)
         == ExpiredEntries(fl, bids, now) + Unanswered(fl[bid], Age(fl[bid], now), 0)
  {
    hide Unanswered;
    var u := Unanswered(fl[bid], Age(fl[bid], now), 0);
    if bids == [] {
      assert [] + [bid] == [bid] && [bid][1..] == [];
      assert u + [] == u && [] + u == u;
    } else {
      ExpiredSnoc(fl, bids[1..], bid, now);
      assert (bids + [bid])[0] == bids[0] && (bids + [bid])[1..] == bids[1..] + [bid];
      var first := Unanswered(fl[bids[0]], Age(fl[bids[0]], now), 0);
      assert first + (ExpiredEntries(fl, bids[1..], now) + u) == (first + ExpiredEntries(fl, bids[1..], now)) + u;
    }
  }
}
