/**
 What connections achieve over runs: a channel that is up has been subscribed, and with a server that
 answers, a channel that is added comes up and its events are asked for.
 */
module ConnProgress {
  import opened Wrappers
  import opened OrderedMaps
  import opened ConnLifecycle
  import opened ConnInvariants
  import opened ConnRuns
  import opened ConnSteps

  // ---- every channel that is up is subscribed ----

  ghost predicate Subscribes(c: Conn, cid: Cid, j: nat) {
    && j < |c.log| && c.log[j].EventAdd? && c.log[j].subid in c.cidBySubid && c.cidBySubid[c.log[j].subid] == cid
  }

  ghost predicate IsSubscribed(c: Conn, cid: Cid) {
    exists j :: Subscribes(c, cid, j)
  }

  ghost predicate UpIsSubscribed(c: Conn) {
    forall cid :: cid in c.channels && c.channels[cid].Created? ==> IsSubscribed(c, cid)
  }

  /** Requests and subscription ids are never taken back, and no channel comes up. */
  ghost predicate NothingNewUp(c: Conn, d: Conn) {
    && c.log <= d.log
    && (forall x :: x in c.cidBySubid ==> x in d.cidBySubid && d.cidBySubid[x] == c.cidBySubid[x])
    && forall cid :: cid in d.channels && d.channels[cid].Created? ==> cid in c.channels && c.channels[cid].Created?
  }

  lemma StaysSubscribed(c: Conn, d: Conn, cid: Cid)
    requires c.log <= d.log
    requires forall x :: x in c.cidBySubid ==> x in d.cidBySubid && d.cidBySubid[x] == c.cidBySubid[x]
    requires IsSubscribed(c, cid)
    ensures IsSubscribed(d, cid)
  {
    var j :| Subscribes(c, cid, j);
    assert Subscribes(d, cid, j);
  }

  lemma NothingNewKeeps(c: Conn, d: Conn)
    requires UpIsSubscribed(c) && NothingNewUp(c, d)
    ensures UpIsSubscribed(d)
  {
    forall cid | cid in d.channels && d.channels[cid].Created?
      ensures IsSubscribed(d, cid)
    {
      StaysSubscribed(c, d, cid);
    }
  }

  lemma LookupKeepsSubscribed(c: Conn, res: Option<(Name, Series)>)
    requires Inv(c) && Defined(c) && UpIsSubscribed(c)
    ensures UpIsSubscribed(SeriesLookup(c, res))
  {
    InvParts(c);
    ReadyForLookup(c);
    LookupSubscribes(c, if res.Some? then res.value.0 else [], if res.Some? then res.value.1 else 0);
    hide Inv;
    hide Defined;
    hide LookupReady;
    hide SeriesLookup;
    hide IsSubscribed;
    var d := SeriesLookup(c, res);
    if res.Some? && Fetches(c, res.value.0) {
      SubscribedNow(c, d, c.cidByName[res.value.0]);
    } else {
      NothingNewKeeps(c, d);
    }
  }

  lemma ReadyForLookup(c: Conn)
    requires Defined(c)
    ensures LookupReady(c)
  {
  }

  lemma SubscribedNow(c: Conn, d: Conn, cid: Cid)
    requires UpIsSubscribed(c) && |d.log| == |c.log| + 1 && c.log <= d.log
    requires d.log[|c.log|].EventAdd? && d.log[|c.log|].subid == d.subidNext && d.subidNext !in c.cidBySubid
    requires d.cidBySubid == c.cidBySubid[d.subidNext := cid]
    requires cid in d.channels && d.channels == c.channels[cid := d.channels[cid]]
    ensures UpIsSubscribed(d)
  {
    forall x | x in d.channels && d.channels[x].Created?
      ensures IsSubscribed(d, x)
    {
      if x == cid {
        assert Subscribes(d, cid, |c.log|);
      } else {
        StaysSubscribed(c, d, x);
      }
    }
  }

  lemma PeerNothingNew(c: Conn, inp: Input)
    requires inp.CreateChanRes? ==> inp.newCid in c.channels && inp.newCid in c.nameByCid
    requires inp.EventAddRes? ==> inp.evSubid in c.cidBySubid && c.cidBySubid[inp.evSubid] in c.channels
    ensures NothingNewUp(c, PeerInput(c, inp))
  {
    hide SortedKeys;
  }

  lemma PollNothingNew(c: Conn, conn: Connect, timer: bool, inp: Input)
    requires Inv(c) && Ready(c) && Answerable(c, inp)
    ensures NothingNewUp(c, ConnStep(c, conn, timer, inp))
  {
    InvParts(c);
    hide *;
    StepIs(c, conn, timer, inp);
    if c.state == PeerReady {
      InitIsRequested(c);
      RequestsSameCreated(c);
      StillAnswerable(c, RequestChannels(c), inp);
      PeerNothingNew(RequestChannels(c), inp);
      RequestsNothingNew(c);
      NothingNewTwice(c, RequestChannels(c), PeerInput(RequestChannels(c), inp));
    } else {
      ComingUp(c, conn, timer, inp);
      ComingUpNothingNew(c, conn, timer, inp);
    }
  }

  lemma RequestsNothingNew(c: Conn)
    requires c.proto.Some? && (forall cid :: cid in InitCids(c.channels) ==> cid in c.nameByCid)
    requires |InitCids(c.channels)| <= c.initStateCount
    ensures NothingNewUp(c, RequestChannels(c))
  {
    hide SortedKeys;
    hide InitCids;
    hide CreateRequests;
  }

  lemma ComingUpNothingNew(c: Conn, conn: Connect, timer: bool, inp: Input)
    requires Ready(c) && Answerable(c, inp) && c.state != PeerReady
    ensures NothingNewUp(c, ConnStep(c, conn, timer, inp))
  {
    hide InitCids;
  }

  lemma NothingNewTwice(c: Conn, d: Conn, e: Conn)
    requires NothingNewUp(c, d) && NothingNewUp(d, e)
    ensures NothingNewUp(c, e)
  {
  }

  lemma StepKeepsSubscribed(c: Conn, s: Step)
    requires Inv(c) && Defined(c) && Can(c, s) && UpIsSubscribed(c)
    ensures UpIsSubscribed(Apply(c, s))
  {
    hide *;
    ApplyIs(c, s);
    match s {
      case Lookup(res) => LookupKeepsSubscribed(c, res);
      case Poll(conn, timer, inp) =>
        PollNothingNew(c, conn, timer, inp);
        NothingNewKeeps(c, Apply(c, s));
      case _ =>
        OtherNothingNew(c, s);
        NothingNewKeeps(c, Apply(c, s));
    }
  }

  lemma OtherNothingNew(c: Conn, s: Step)
    requires Defined(c) && Can(c, s) && !s.Poll? && !s.Lookup?
    ensures NothingNewUp(c, Apply(c, s))
  {
    hide *;
    ApplyIs(c, s);
    match s {
      case Add(name, cssid) => AddNothingNew(c, name, cssid);
      case Remove(name) => RemoveNothingNew(c, name);
      case Health(due, overdue) => HealthNothingNew(c, due, overdue);
      case ShutDown(reason) => EndNothingNew(c, reason);
      case _ => SmallNothingNew(c);
    }
  }

  lemma AddNothingNew(c: Conn, name: Name, cssid: nat)
    ensures NothingNewUp(c, ChannelAdd(c, name, cssid))
  {
  }

  lemma RemoveNothingNew(c: Conn, name: Name)
    ensures NothingNewUp(c, ChannelRemove(c, name))
  {
    hide ChannelRemove;
    RemoveShape(c, name);
  }

  lemma EndNothingNew(c: Conn, reason: Reason)
    ensures NothingNewUp(c, TriggerShutdown(c, reason))
  {
    hide SortedKeys;
  }

  lemma HealthNothingNew(c: Conn, due: bool, overdue: bool)
    ensures NothingNewUp(c, CheckHealth(c, due, overdue))
  {
    hide TriggerShutdown;
    EndNothingNew(c, IocTimeout);
    EndNothingNew(c.(pinging := true), NoProtocol);
  }

  lemma SmallNothingNew(c: Conn)
    ensures c.infoQueue != [] ==> NothingNewUp(c, c.(infoQueue := c.infoQueue[1..]))
    ensures NothingNewUp(c, c.(state := EndOfStream))
  {
  }

  /** Over any run: every channel that is up has its request for events in what was sent, with a
      subscription id that belongs to it. */
  lemma {:induction false} EveryChannelSubscribed(conns: seq<Conn>, steps: seq<Step>, n: nat, cid: Cid)
    requires IsRun(conns, steps) && n <= |steps|
    requires cid in conns[n].channels && conns[n].channels[cid].Created?
    ensures var c := conns[n];
            exists j :: 0 <= j < |c.log| && c.log[j].EventAdd?
                        && c.log[j].subid in c.cidBySubid && c.cidBySubid[c.log[j].subid] == cid
  {
    hide *;
    AllSubscribed(conns, steps, n);
    SubscribedIs(conns[n], cid);
  }

  lemma SubscribedIs(c: Conn, cid: Cid)
    requires UpIsSubscribed(c) && cid in c.channels && c.channels[cid].Created?
    ensures exists j :: 0 <= j < |c.log| && c.log[j].EventAdd?
                        && c.log[j].subid in c.cidBySubid && c.cidBySubid[c.log[j].subid] == cid
  {
    assert IsSubscribed(c, cid);
    var j :| Subscribes(c, cid, j);
  }

  lemma {:induction false} AllSubscribed(conns: seq<Conn>, steps: seq<Step>, n: nat)
    requires IsRun(conns, steps) && n <= |steps|
    ensures n < |conns| && UpIsSubscribed(conns[n])
  {
    hide *;
    RunSize(conns, steps);
    if n == 0 {
      NothingUp(conns, steps);
    } else {
      AllSubscribed(conns, steps, n - 1);
      RunKeepsInv(conns, steps, n - 1);
      StepKeepsSubscribed(conns[n - 1], steps[n - 1]);
    }
  }

  lemma NothingUp(conns: seq<Conn>, steps: seq<Step>)
    requires IsRun(conns, steps)
    ensures UpIsSubscribed(conns[0])
  {
  }

  // ---- a channel comes up ----

  /** A channel and what a server and the database have for it. */
  datatype Offer = Offer(name: Name, cssid: nat, sid: nat, dataType: nat, dataCount: nat, series: Series)

  /** The steps from adding a channel to its first event, with a server that speaks version 13 and
      answers everything, and a database that knows the series. */
  function Cooperative(o: Offer): seq<Step> {
    [Add(o.name, o.cssid),
     Poll(Undecided, false, NothingYet),
     Poll(Connected, false, NothingYet),
     Poll(Undecided, false, NothingYet),
     Poll(Undecided, false, VersionRes(13)),
     Poll(Undecided, false, NothingYet),
     Poll(Undecided, false, CreateChanRes(1, o.sid, o.dataType, o.dataCount, true)),
     Lookup(Some((o.name, o.series))),
     Poll(Undecided, false, EventAddRes(1))]
  }

  /** A connection with this one channel, which got cid 1. */
  function OneChannel(name: Name, state: ConnState, proto: Option<seq<Request>>, ch: ChannelState): Conn {
    ConnLifecycle.New().(cidNext := 1, cidByName := map[name := 1], nameByCid := map[1 := name],
                         state := state, proto := proto, log := if proto.Some? then proto.value else [],
                         channels := map[1 := ch], initStateCount := if ch.Init? then 1 else 0)
  }

  const INTRODUCTION: seq<Request> := [ConnLifecycle.Version, ClientName, HostName]

  /** The states that the connection then goes through. */
  function Path(o: Offer): seq<Conn> {
    var asked := INTRODUCTION + [CreateChan(1, o.name)];
    var all := asked + [EventAdd(o.sid, o.dataType + 14, o.dataCount, 1)];
    var up := [Connection(true)];
    var st := CreatedState(o.cssid, 1, o.sid, o.dataType, o.dataCount, FetchSeriesId);
    var granted := map[1 := Granted(o.sid, o.dataType, o.dataCount)];
    [ConnLifecycle.New(),
     OneChannel(o.name, Unconnected, None, Init(o.cssid)),
     OneChannel(o.name, Connecting, None, Init(o.cssid)),
     OneChannel(o.name, ConnInit, Some([]), Init(o.cssid)).(queue := up),
     OneChannel(o.name, Listen, Some(INTRODUCTION), Init(o.cssid)).(queue := up),
     OneChannel(o.name, PeerReady, Some(INTRODUCTION), Init(o.cssid)).(queue := up),
     OneChannel(o.name, PeerReady, Some(asked), Creating(o.cssid, 1)).(queue := up),
     OneChannel(o.name, PeerReady, Some(asked), FetchingSeriesId(st))
       .(queue := up, infoQueue := [o.name], granted := granted),
     OneChannel(o.name, PeerReady, Some(all), Created(o.series, st.(state := AddingEvent(o.series))))
       .(queue := up + [Opened(o.series)], infoQueue := [o.name], granted := granted,
         subidNext := 1, cidBySubid := map[1 := 1]),
     OneChannel(o.name, PeerReady, Some(all), Created(o.series, st.(state := Evented(o.series))))
       .(queue := up + [Opened(o.series)], infoQueue := [o.name], granted := granted,
         subidNext := 1, cidBySubid := map[1 := 1])]
  }

  /** With a server that answers, a channel that is added comes up, whatever its name, its ids, type, count
      and series: the connection introduces itself, asks for the channel, asks for its series, and once
      the series is known for its events in the time-stamped form, reports it opened, and takes the
      first event. Nothing else is sent. */
  lemma ChannelComesUp(o: Offer)
    ensures IsRun(Path(o), Cooperative(o))
  {
    hide Follows;
    Adds(o);
    Begins(o);
    Connects(o);
    Introduces(o);
    Agrees(o);
    Requested(o);
    Answered(o);
    Opens(o);
    Monitors(o);
  }

  /** Step i of the cooperative run leads from its state to the next one. */
  ghost predicate Goes(o: Offer, i: nat)
    requires i < 9
  {
    Follows(Path(o)[i], Cooperative(o)[i], Path(o)[i + 1])
  }

  lemma Adds(o: Offer)
    ensures Goes(o, 0)
  {
    hide SortedKeys;
    hide ConnStep;
  }

  lemma Begins(o: Offer)
    ensures Goes(o, 1)
  {
    hide SortedKeys;
    hide RequestChannels;
    hide PeerInput;
  }

  lemma Connects(o: Offer)
    ensures Goes(o, 2)
  {
    hide SortedKeys;
    hide RequestChannels;
    hide PeerInput;
    assert [] + [Connection(true)] == [Connection(true)];
  }

  lemma Introduces(o: Offer)
    ensures Goes(o, 3)
  {
    hide SortedKeys;
    hide RequestChannels;
    hide PeerInput;
    assert [] + INTRODUCTION == INTRODUCTION;
  }

  lemma Agrees(o: Offer)
    ensures Goes(o, 4)
  {
    hide SortedKeys;
    hide RequestChannels;
    hide PeerInput;
  }

  lemma Requested(o: Offer)
    ensures Goes(o, 5)
  {
    var c, d := Path(o)[5], Path(o)[6];
    RequestsOne(c, o.name, o.cssid);
    hide Follows;
    hide RequestChannels;
    hide InitCids;
    OnlyRequests(c, d);
  }

  lemma OnlyRequests(c: Conn, d: Conn)
    requires c.state == PeerReady && c.proto.Some? && c.cidNext == 1 && c.subidNext == 0
    requires (forall cid :: cid in InitCids(c.channels) ==> cid in c.nameByCid)
    requires |InitCids(c.channels)| <= c.initStateCount && d == RequestChannels(c)
    ensures Follows(c, Poll(Undecided, false, NothingYet), d)
  {
    hide InitCids;
    hide RequestChannels;
  }

  lemma RequestsOne(c: Conn, name: Name, cssid: nat)
    requires c.proto.Some? && c.channels == map[1 := Init(cssid)] && c.initStateCount == 1
    requires c.nameByCid == map[1 := name]
    ensures InitCids(c.channels) == {1}
    ensures RequestChannels(c) == PushOut(c.(channels := map[1 := Creating(cssid, 1)], initStateCount := 0),
                                          [CreateChan(1, name)])
  {
    OneInit(c.channels, 1);
    hide SortedKeys;
    hide InitCids;
    assert CreateRequests([1], c.nameByCid) == [CreateChan(1, name)];
    assert AllCreating(c.channels) == map[1 := Creating(cssid, 1)];
  }

  lemma Answered(o: Offer)
    ensures Goes(o, 6)
  {
    var c := Path(o)[6];
    NoneInit(c, 1);
    hide RequestChannels;
    hide SeriesLookup;
    hide ChannelAdd;
    hide ChannelRemove;
    hide TriggerShutdown;
    hide CheckHealth;
    assert [] + [o.name] == [o.name];
  }

  lemma Opens(o: Offer)
    ensures Goes(o, 7)
  {
    hide ConnStep;
    hide ChannelAdd;
    hide ChannelRemove;
    hide TriggerShutdown;
    hide CheckHealth;
    hide InitCids;
    assert Path(o)[7].cidByName[o.name] == 1;
  }

  lemma Monitors(o: Offer)
    ensures Goes(o, 8)
  {
    var c := Path(o)[8];
    NoneInit(c, 1);
    hide RequestChannels;
    hide SeriesLookup;
    hide ChannelAdd;
    hide ChannelRemove;
    hide TriggerShutdown;
    hide CheckHealth;
  }

  lemma OneInit(channels: map<Cid, ChannelState>, cid: Cid)
    requires channels.Keys == {cid} && channels[cid].Init?
    ensures InitCids(channels) == {cid} && SortedKeys(InitCids(channels)) == [cid]
  {
    hide SortedKeys;
    assert InitCids(channels) == {cid};
    var keys := SortedKeys({cid});
    assert |keys| == 1 && keys[0] in keys;
  }

  /** Without a channel in Init, requesting does nothing. */
  lemma NoneInit(c: Conn, cid: Cid)
    requires c.proto.Some? && c.channels.Keys == {cid} && !c.channels[cid].Init? && c.initStateCount == 0
    ensures InitCids(c.channels) == {} && RequestChannels(c) == c
  {
    assert InitCids(c.channels) == {};
    SortedNothing();
    hide SortedKeys;
    assert CreateRequests([], c.nameByCid) == [];
    assert AllCreating(c.channels) == c.channels;
    assert c.proto.value + [] == c.proto.value && c.log + [] == c.log;
  }
}
