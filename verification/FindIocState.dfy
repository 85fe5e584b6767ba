/**
 The search engine of netfetch/src/ca/findioc.rs on values: channels wait in a queue, are put
 into batches, are answered by search id or time out, and leave through an output queue.
 */
module FindIocState {
  import opened Bytes
  import opened Arithmetic
  import opened Wrappers
  import opened OrderedMaps
  import opened CaWire
  import SearchDatagram

  type Name = seq<byte>
  type BatchId = nat
  type SearchId = u32

  datatype Addr = Addr(ip: nat, port: nat)

  datatype SearchBatch = SearchBatch(tsBeg: nat, tgts: seq<nat>, channels: seq<Name>, sids: seq<SearchId>,
                                     done: seq<bool>)

  datatype FindIocRes = FindIocRes(channel: Name, responseAddr: Option<Addr>, addr: Option<Addr>, dt: nat)

  /** The fields of the stream. `pushed`, `yielded` and `sentTo` are its history: what came in,
      what went out, and the targets each batch was serialised for. */
  datatype State = State(
    tgts: seq<Addr>,
    inFlightMax: nat,
    channelsPerBatch: nat,
    batchRunMax: nat,
    stopOnEmptyQueue: bool,
    nextBatch: nat,
    nextSearch: nat,
    channelsInput: seq<Name>,
    inFlight: map<BatchId, SearchBatch>,
    bidBySid: map<SearchId, BatchId>,
    batchSendQueue: seq<BatchId>,
    buf1: seq<byte>,
    sendAddr: Addr,
    outQueue: seq<FindIocRes>,
    bidsAllDone: set<BatchId>,
    bidsTimedOut: set<BatchId>,
    sidsDone: set<SearchId>,
    resultForDoneSid: nat,
    pushed: seq<Name>,
    yielded: seq<FindIocRes>,
    sentTo: map<BatchId, seq<nat>>)

  /** The counters are wider than the ids that are made from them. */
  function Id(counter: nat): u32 {
    counter % 0x1_0000_0000
  }

  function Push(s: State, x: Name): State {
    s.(channelsInput := s.channelsInput + [x], pushed := s.pushed + [x])
  }

  // ---- batches ----

  function AllTargets(n: nat): (t: seq<nat>)
    ensures |t| == n && forall i :: 0 <= i < n ==> t[i] == i
  {
    seq(n, i => i)
  }

  function NewSids(from: nat, n: nat): (ids: seq<SearchId>)
    ensures |ids| == n && forall i :: 0 <= i < n ==> ids[i] == Id(from + i)
  {
    seq<SearchId>(n, i requires 0 <= i => Id(from + i))
  }

  /** The number of channels that the next batch takes. */
  function BatchSize(s: State): nat {
    Min(s.channelsPerBatch, |s.channelsInput|)
  }

  function NewBatch(s: State, now: nat): SearchBatch {
    var n := BatchSize(s);
    SearchBatch(now, AllTargets(|s.tgts|), s.channelsInput[..n], NewSids(s.nextSearch, n), seq(n, _ => false))
  }

  /** The index entries of a new batch. */
  function Entries(sids: seq<SearchId>, bid: BatchId): map<SearchId, BatchId> {
    map sid | sid in sids :: bid
  }

  function CreateInFlight(s: State, now: nat): State {
    var n := BatchSize(s);
    var bid := Id(s.nextBatch);
    var batch := NewBatch(s, now);
    s.(nextBatch := s.nextBatch + 1,
       nextSearch := s.nextSearch + n,
       channelsInput := s.channelsInput[n..],
       inFlight := s.inFlight[bid := batch],
       bidBySid := s.bidBySid + Entries(batch.sids, bid),
       batchSendQueue := s.batchSendQueue + [bid],
       sentTo := s.sentTo[bid := []])
  }

  /** The ids that the next k batches would take, for all waiting channels, are not in use: what
      holds as long as ids do not wrap around onto live ones. */
  ghost predicate FreshIds(s: State, k: nat) {
    && k <= 0x1_0000_0000 && |s.channelsInput| <= 0x1_0000_0000
    && (forall c :: s.nextBatch <= c < s.nextBatch + k ==> Id(c) !in s.inFlight && Id(c) !in s.batchSendQueue)
    && (forall c :: s.nextSearch <= c < s.nextSearch + |s.channelsInput| ==> Id(c) !in s.bidBySid)
  }

  // ---- answers ----

  function Mark(b: SearchBatch, sid: SearchId): (m: SearchBatch)
    requires |b.sids| == |b.done|
    ensures |m.done| == |b.done| && m == b.(done := m.done)
  {
    b.(done := seq(|b.done|, i requires 0 <= i < |b.done| => b.done[i] || b.sids[i] == sid))
  }

  /** One result for every entry of the batch that has this search id, from entry i on. */
  function Answers(b: SearchBatch, sid: SearchId, src: Addr, addr: Addr, now: nat, i: nat): seq<FindIocRes>
    requires i <= |b.sids| == |b.channels|
    decreases |b.sids| - i
  {
    if i == |b.sids| then []
    else
      (if b.sids[i] == sid then [FindIocRes(b.channels[i], Some(src), Some(addr), Age(b, now))] else [])
      + Answers(b, sid, src, addr, now, i + 1)
  }

  /** How long the batch has waited. A clock that is behind counts as no time. */
  function Age(b: SearchBatch, now: nat): (dt: nat)
    ensures if b.tsBeg <= now then b.tsBeg + dt == now else dt == 0
  {
    if b.tsBeg <= now then now - b.tsBeg else 0
  }

  predicate AllDone(b: SearchBatch) {
    forall i :: 0 <= i < |b.done| ==> b.done[i]
  }

  predicate Sized(b: SearchBatch) {
    |b.sids| == |b.channels| == |b.done|
  }

  ghost predicate AllSized(s: State) {
    forall bid :: bid in s.inFlight ==> Sized(s.inFlight[bid])
  }

  /** One answer. The index entry stays until the whole datagram is handled. */
  function HandleOne(s: State, src: Addr, now: nat, ans: (SearchId, Addr)): (t: State)
    requires AllSized(s)
    ensures AllSized(t)
  {
    var (sid, addr) := ans;
    var t := s.(sidsDone := s.sidsDone + {sid});
    if sid !in s.bidBySid then t.(resultForDoneSid := s.resultForDoneSid + 1)
    else
      var bid := s.bidBySid[sid];
      if bid !in s.inFlight then t
      else
        var b := Mark(s.inFlight[bid], sid);
        var u := t.(outQueue := s.outQueue + Answers(s.inFlight[bid], sid, src, addr, now, 0));
        if AllDone(b) then u.(bidsAllDone := s.bidsAllDone + {bid}, inFlight := s.inFlight - {bid})
        else u.(inFlight := s.inFlight[bid := b])
  }

  function HandleAll(s: State, src: Addr, now: nat, res: seq<(SearchId, Addr)>): (t: State)
    requires AllSized(s)
    ensures AllSized(t)
    decreases |res|
  {
    if res == [] then s else HandleAll(HandleOne(s, src, now, res[0]), src, now, res[1..])
  }

  /** The answered ids that the index knows: the keys removed after the datagram. */
  function Answered(s: State, res: seq<(SearchId, Addr)>): set<SearchId> {
    set r | r in res && r.0 in s.bidBySid :: r.0
  }

  function HandleResult(s: State, src: Addr, now: nat, res: seq<(SearchId, Addr)>): State
    requires AllSized(s)
  {
    var t := HandleAll(s, src, now, res);
    t.(bidBySid := s.bidBySid - Answered(s, res))
  }

  // ---- timeouts ----

  predicate TimedOut(b: SearchBatch, runMax: nat, now: nat) {
    Age(b, now) > runMax
  }

  function Expired(fl: map<BatchId, SearchBatch>, runMax: nat, now: nat): set<BatchId> {
    set bid | bid in fl && TimedOut(fl[bid], runMax, now)
  }

  /** The entries of a batch that nobody answered, from entry i on. */
  function Unanswered(b: SearchBatch, dt: nat, i: nat): seq<(SearchId, FindIocRes)>
    requires Sized(b) && i <= |b.sids|
    decreases |b.sids| - i
  {
    if i == |b.sids| then []
    else
      (if b.done[i] then [] else [(b.sids[i], FindIocRes(b.channels[i], None, None, dt))]) + Unanswered(b, dt, i + 1)
  }

  function ExpiredEntries(fl: map<BatchId, SearchBatch>, bids: seq<BatchId>, now: nat): seq<(SearchId, FindIocRes)>
    requires forall bid :: bid in bids ==> bid in fl && Sized(fl[bid])
  {
    if bids == [] then []
    else Unanswered(fl[bids[0]], Age(fl[bids[0]], now), 0) + ExpiredEntries(fl, bids[1..], now)
  }

  function Firsts<A, B>(s: seq<(A, B)>): seq<A> {
    seq(|s|, i requires 0 <= i < |s| => s[i].0)
  }

  function Seconds<A, B>(s: seq<(A, B)>): seq<B> {
    seq(|s|, i requires 0 <= i < |s| => s[i].1)
  }

  function ClearTimedOut(s: State, now: nat): State
    requires AllSized(s)
  {
    var bids := Expired(s.inFlight, s.batchRunMax, now);
    var entries := ExpiredEntries(s.inFlight, SortedKeys(bids), now);
    s.(bidsTimedOut := s.bidsTimedOut + bids,
       outQueue := s.outQueue + Seconds(entries),
       bidBySid := s.bidBySid - Elements(Firsts(entries)),
       inFlight := s.inFlight - bids)
  }

  // ---- what must hold ----

  /** The search ids of a batch that still wait for an answer. */
  function PendingSids(b: SearchBatch): set<SearchId>
    requires Sized(b)
  {
    set i | 0 <= i < |b.sids| && !b.done[i] :: b.sids[i]
  }

  /** No two entries of a batch share a search id. */
  ghost predicate DistinctSids(b: SearchBatch) {
    forall i, j :: 0 <= i < j < |b.sids| ==> b.sids[i] != b.sids[j]
  }

  ghost predicate AllDistinct(s: State) {
    forall bid :: bid in s.inFlight ==> DistinctSids(s.inFlight[bid])
  }

  /** The index maps precisely the search ids that wait for an answer to their batch. */
  ghost predicate ExactIndex(fl: map<BatchId, SearchBatch>, idx: map<SearchId, BatchId>)
    requires forall bid :: bid in fl ==> Sized(fl[bid])
  {
    && (forall sid :: sid in idx ==> idx[sid] in fl && sid in PendingSids(fl[idx[sid]]))
    && (forall bid, sid :: bid in fl && sid in PendingSids(fl[bid]) ==> sid in idx && idx[sid] == bid)
  }

  /** The channels of a batch that wait for an answer, from entry i on. */
  ghost function Waiting(b: SearchBatch, i: nat): multiset<Name>
    requires Sized(b) && i <= |b.sids|
    decreases |b.sids| - i
  {
    if i == |b.sids| then multiset{}
    else (if b.done[i] then multiset{} else multiset{b.channels[i]}) + Waiting(b, i + 1)
  }

  ghost function Pick(m: map<BatchId, SearchBatch>): BatchId
    requires m != map[]
    ensures Pick(m) in m
  {
    var k :| k in m;
    k
  }

  /** All channels that wait for an answer. */
  ghost function InFlight(fl: map<BatchId, SearchBatch>): multiset<Name>
    requires forall bid :: bid in fl ==> Sized(fl[bid])
    decreases |fl|
  {
    if fl == map[] then multiset{}
    else
      var k := Pick(fl);
      assert |fl - {k}| < |fl| by {
        assert (fl - {k}).Keys == fl.Keys - {k};
        assert |fl.Keys - {k}| < |fl.Keys|;
      }
      Waiting(fl[k], 0) + InFlight(fl - {k})
  }

  function Channels(rs: seq<FindIocRes>): (cs: seq<Name>)
    ensures |cs| == |rs|
  {
    seq(|rs|, i requires 0 <= i < |rs| => rs[i].channel)
  }

  /** Everywhere a pushed channel can be. */
  ghost function Account(s: State): multiset<Name>
    requires AllSized(s)
  {
    multiset(s.channelsInput) + InFlight(s.inFlight) + multiset(Channels(s.outQueue)) + multiset(Channels(s.yielded))
  }

  // ---- sending ----

  /** The targets a batch is still to be sent to exist. */
  ghost predicate TargetsKnown(s: State) {
    forall bid, i :: bid in s.inFlight && 0 <= i < |s.inFlight[bid].tgts| ==> s.inFlight[bid].tgts[i] < |s.tgts|
  }

  /** Serialises the batch at the front of the queue for its next target, and puts it at the back. */
  function SendNext(s: State): State
    requires s.batchSendQueue != [] && s.batchSendQueue[0] in s.inFlight && s.batchSendQueue[0] in s.sentTo
    requires var b := s.inFlight[s.batchSendQueue[0]]; Sized(b) && b.tgts != [] && b.tgts[0] < |s.tgts|
  {
    var bid := s.batchSendQueue[0];
    var b := s.inFlight[bid];
    s.(inFlight := s.inFlight[bid := b.(tgts := b.tgts[1..])],
       buf1 := SearchDatagram.Datagram(b.sids, b.channels),
       sendAddr := s.tgts[b.tgts[0]],
       batchSendQueue := s.batchSendQueue[1..] + [bid],
       sentTo := s.sentTo[bid := s.sentTo[bid] + [b.tgts[0]]])
  }

  ghost predicate Schedulable(s: State) {
    AllSized(s) && TargetsKnown(s) && forall bid :: bid in s.inFlight ==> bid in s.sentTo
  }

  /** Fills the send buffer if it is empty: drops queued batches that are gone or exhausted until
      one can be sent. */
  function Schedule(s: State): State
    requires Schedulable(s)
    decreases |s.batchSendQueue|
  {
    if s.buf1 != [] || s.batchSendQueue == [] then s
    else
      var bid := s.batchSendQueue[0];
      if bid in s.inFlight && s.inFlight[bid].tgts != [] then SendNext(s)
      else Schedule(s.(batchSendQueue := s.batchSendQueue[1..]))
  }

  /** There are enough unused ids for all batches that there is room for. */
  ghost predicate CanFill(s: State) {
    AllSized(s) && FreshIds(s, if |s.inFlight| < s.inFlightMax then s.inFlightMax - |s.inFlight| else 0)
  }

  /** New batches while channels wait and there is room in flight. */
  function FillInFlight(s: State, now: nat): (t: State)
    requires CanFill(s)
    ensures AllSized(t)
    decreases s.inFlightMax - |s.inFlight|
  {
    if s.channelsInput == [] || |s.inFlight| >= s.inFlightMax then s
    else
      OneFilled(s, now);
      FillInFlight(CreateInFlight(s, now), now)
  }

  lemma OneFilled(s: State, now: nat)
    requires CanFill(s) && |s.inFlight| < s.inFlightMax
    ensures var t := CreateInFlight(s, now);
            CanFill(t) && t.inFlightMax == s.inFlightMax && |t.inFlight| == |s.inFlight| + 1
  {
    hide FreshIds;
    hide NewSids;
    hide Id;
    StaysFresh(s, now, s.inFlightMax - |s.inFlight|);
  }

  lemma IdsDiffer(a: nat, b: nat)
    requires a < b < a + 0x1_0000_0000
    ensures Id(a) != Id(b)
  {
  }

  /** Creating a batch uses up one batch id and the search ids of its channels. */
  lemma StaysFresh(s: State, now: nat, k: nat)
    requires FreshIds(s, k) && k > 0
    ensures FreshIds(CreateInFlight(s, now), k - 1)
    ensures |CreateInFlight(s, now).inFlight| == |s.inFlight| + 1
  {
    hide Id;
    hide NewSids;
    var t, n := CreateInFlight(s, now), BatchSize(s);
    assert Id(s.nextBatch) !in s.inFlight;
    forall c | t.nextBatch <= c < t.nextBatch + (k - 1)
      ensures Id(c) !in t.inFlight && Id(c) !in t.batchSendQueue
    {
      IdsDiffer(s.nextBatch, c);
    }
    forall c | t.nextSearch <= c < t.nextSearch + |t.channelsInput|
      ensures Id(c) !in t.bidBySid
    {
      LaterSids(s.nextSearch, n, c);
    }
  }

  lemma LaterSids(from: nat, n: nat, c: nat)
    requires from + n <= c < from + 0x1_0000_0000
    ensures Id(c) !in NewSids(from, n)
  {
    hide Id;
    forall i | 0 <= i < n
      ensures NewSids(from, n)[i] != Id(c)
    {
      IdsDiffer(from + i, c);
    }
  }

  // ---- one round of the poll loop ----

  /** What the socket does when there is something to send, and when asked for a datagram. */
  datatype WriteEnv = SendDone | SendFailed | SendAgain | NotWritable
  datatype ReadEnv = Got(src: Addr, res: seq<(SearchId, Addr)>) | ReadFailed | ReadAgain | NotReadable

  datatype Control = Yield(items: seq<FindIocRes>) | YieldError | Continue | EndOfStream | Wait

  function Send(s: State, w: WriteEnv): (State, bool) {
    if s.buf1 == [] then (s, false)
    else
      match w
      case SendDone => (s.(buf1 := []), true)
      case SendAgain => (s, true)
      case _ => (s, false)
  }

  /** Enough unused ids for all that one round can create. */
  ghost predicate FreshRound(s: State) {
    FreshIds(s, s.inFlightMax)
  }

  /** One round of the loop in `poll_next`. */
  function Round(s: State, now: nat, w: WriteEnv, r: ReadEnv, sleeperReady: bool): (State, Control)
    requires Schedulable(s) && FreshRound(s)
  {
    if s.outQueue != [] then (s.(outQueue := [], yielded := s.yielded + s.outQueue), Yield(s.outQueue))
    else Work(s, now, w, r, sleeperReady)
  }

  /** A round in which there is nothing to yield. */
  function Work(s: State, now: nat, w: WriteEnv, r: ReadEnv, sleeperReady: bool): (State, Control)
    requires Schedulable(s) && FreshRound(s)
  {
    SendThenFill(s, w);
    var (s1, again1) := Send(s, w);
    var s2 := Schedule(s1);
    var s3 := FillInFlight(s2, now);
    var again := again1 || (s1.buf1 == [] && s1.batchSendQueue != [])
      || (s2.channelsInput != [] && |s2.inFlight| < s2.inFlightMax);
    ReadPart(s3, again, now, r, sleeperReady)
  }

  lemma SendThenFill(s: State, w: WriteEnv)
    requires Schedulable(s) && FreshRound(s)
    ensures var s1 := Send(s, w).0;
            && Schedulable(s1) && FreshRound(s1) && CanFill(Schedule(s1))
            && Schedule(s1).inFlightMax == s1.inFlightMax
  {
    hide Schedule;
    hide Id;
    ScheduleFrame(Send(s, w).0);
  }

  /** The end of a round: read a datagram, or find out that there is nothing left to do. */
  function ReadPart(s: State, again: bool, now: nat, r: ReadEnv, sleeperReady: bool): (State, Control)
    requires AllSized(s)
  {
    match r
    case Got(src, res) => (HandleResult(s, src, now, res), Continue)
    case ReadFailed => (s, YieldError)
    case ReadAgain => (s, Continue)
    case NotReadable =>
      if again then (s, Continue)
      else if s.channelsInput == [] && s.inFlight == map[] && s.outQueue == [] then
        (s, if s.stopOnEmptyQueue then EndOfStream else if sleeperReady then Continue else Wait)
      else (s, Wait)
  }

  /** What scheduling leaves alone. */
  lemma {:induction false} ScheduleFrame(s: State)
    requires Schedulable(s)
    ensures var t := Schedule(s);
            && t.inFlight.Keys == s.inFlight.Keys && |t.inFlight| == |s.inFlight|
            && (forall bid :: bid in t.batchSendQueue ==> bid in s.batchSendQueue)
            && t == s.(inFlight := t.inFlight, buf1 := t.buf1, sendAddr := t.sendAddr,
                       batchSendQueue := t.batchSendQueue, sentTo := t.sentTo)
            && AllSized(t)
    decreases |s.batchSendQueue|
  {
    hide SearchDatagram.Datagram;
    if s.buf1 == [] && s.batchSendQueue != [] {
      var bid := s.batchSendQueue[0];
      if bid in s.inFlight && s.inFlight[bid].tgts != [] {
        var t := SendNext(s);
        assert t.inFlight.Keys == s.inFlight.Keys;
        assert |t.inFlight.Keys| == |t.inFlight| && |s.inFlight.Keys| == |s.inFlight|;
      } else {
        ScheduleFrame(s.(batchSendQueue := s.batchSendQueue[1..]));
      }
    }
  }
}
