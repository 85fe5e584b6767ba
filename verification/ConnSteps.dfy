/**
 What each step of a connection brings about (netfetch/src/ca/conn.rs), seen from outside: the state, the
 channels, what is sent and what is reported. The invariants say what never happens; this is what does.
 */
module ConnSteps {
  import opened Wrappers
  import opened OrderedMaps
  import opened ConnLifecycle
  import opened ConnInvariants

  // ---- a series lookup subscribes ----

  /** The name belongs to a channel that waits for its series. */
  predicate Fetches(c: Conn, name: Name) {
    name in c.cidByName && c.cidByName[name] in c.channels && c.channels[c.cidByName[name]].FetchingSeriesId?
  }

  /** For a channel that waits for its series, the answer reports it opened, creates it with the series,
      and sends one request for its events: with the server id and the count that the server gave,
      14 above the type it gave, and a new subscription id that belongs to the channel. For any other
      name it is only reported. */
  lemma LookupSubscribes(c: Conn, name: Name, series: Series)
    requires Inv(c) && Defined(c)
    ensures var d := SeriesLookup(c, Some((name, series)));
            && d.queue == c.queue + [Opened(series)]
            && (!Fetches(c, name) ==> d == c.(queue := d.queue))
            && (Fetches(c, name) ==>
                  var cid, subid := c.cidByName[name], d.subidNext;
                  var st := c.channels[cid].st;
                  var add := EventAdd(st.sid, st.dataType + 14, st.dataCount, subid);
                  && d.channels == c.channels[cid := d.channels[cid]]
                  && d.channels[cid] == Created(series, st.(state := AddingEvent(series)))
                  && c.proto.Some? && d.proto == Some(c.proto.value + [add]) && d.log == c.log + [add]
                  && subid !in c.cidBySubid && subid == c.subidNext + 1
                  && d.cidBySubid == c.cidBySubid[subid := cid]
                  && d.state == c.state && d.infoQueue == c.infoQueue)
    ensures SeriesLookup(c, None) == c
  {
    hide Inverse;
    hide InitCids;
    if Fetches(c, name) {
      var cid := c.cidByName[name];
      assert ChannelOk(cid, c.channels[cid], c.state);
    }
  }

  // ---- answers to channel requests, and events ----

  /** A channel that was requested waits for its series now, with what the server said about it, and its
      series is asked for under its name, once. Any other channel is left alone. */
  lemma CreationAsksForSeries(c: Conn, cid: Cid, sid: nat, dataType: nat, dataCount: nat)
    requires cid in c.channels && cid in c.nameByCid
    ensures var d := ChannelCreated(c, cid, sid, dataType, dataCount);
            if c.channels[cid].Creating? then
              && d.channels.Keys == c.channels.Keys
              && (forall x :: x in c.channels && x != cid ==> d.channels[x] == c.channels[x])
              && d.channels[cid].FetchingSeriesId?
              && d.channels[cid].st == CreatedState(c.channels[cid].cssid, cid, sid, dataType, dataCount, FetchSeriesId)
              && d.infoQueue == c.infoQueue + [c.nameByCid[cid]]
              && d.log == c.log && d.queue == c.queue && d.state == c.state
            else d == c
  {
  }

  /** The first event of a channel ends its waiting; later events change nothing. */
  lemma EventStartsMonitoring(c: Conn, subid: nat)
    requires Inv(c) && subid in c.cidBySubid && c.cidBySubid[subid] in c.channels
    ensures var cid, (d, fails) := c.cidBySubid[subid], EventArrived(c, subid);
            && !fails && d == c.(channels := c.channels[cid := d.channels[cid]])
            && (c.channels[cid].Created? ==>
                  && d.channels[cid].Created? && d.channels[cid].series == c.channels[cid].series
                  && d.channels[cid].st == c.channels[cid].st.(state := Evented(c.channels[cid].series)))
            && (!c.channels[cid].Created? ==> d == c)
  {
    hide Inverse;
    hide InitCids;
    hide CreatesOk;
    hide EventsOk;
    var cid := c.cidBySubid[subid];
    assert ChannelOk(cid, c.channels[cid], c.state);
    assert c.channels[cid := c.channels[cid]] == c.channels;
  }

  // ---- requests ----

  /** One request for every channel in Init and for no other, under its name and in the order of the cids. */
  ghost predicate RequestInit(c: Conn, rs: seq<Request>) {
    && (forall k :: 0 <= k < |rs| ==>
          && rs[k].CreateChan? && rs[k].cid in c.channels && c.channels[rs[k].cid].Init?
          && rs[k].cid in c.nameByCid && rs[k].channel == c.nameByCid[rs[k].cid])
    && (forall j, k :: 0 <= j < k < |rs| ==> rs[j].cid < rs[k].cid)
    && (forall cid :: cid in c.channels && c.channels[cid].Init? ==> exists k :: 0 <= k < |rs| && rs[k].cid == cid)
  }

  /** Every channel in Init is requested, and waits for the answer. The others are left alone. */
  lemma InitIsRequested(c: Conn)
    requires Inv(c) && c.state == PeerReady
    ensures c.proto.Some? && Ready(c)
    ensures var d := RequestChannels(c);
            && d.channels.Keys == c.channels.Keys
            && (forall cid :: cid in c.channels ==>
                  d.channels[cid] == if c.channels[cid].Init? then Creating(c.channels[cid].cssid, cid)
                                     else c.channels[cid])
            && c.log <= d.log
            && var rs := d.log[|c.log|..];
               && d.proto == Some(c.proto.value + rs) && RequestInit(c, rs)
               && d.initStateCount == c.initStateCount - |rs|
  {
    InvParts(c);
    AllAreNamed(c);
    hide Inv;
    hide SortedKeys;
    hide InitCids;
    hide CreateRequests;
    hide RequestInit;
    hide RequestChannels;
    RequestsAre(c, SortedKeys(InitCids(c.channels)));
    var rs := CreateRequests(SortedKeys(InitCids(c.channels)), c.nameByCid);
    RequestChannelsIs(c, rs);
    assert (c.log + rs)[|c.log|..] == rs;
  }

  lemma RequestChannelsIs(c: Conn, rs: seq<Request>)
    requires Ready(c) && c.state == PeerReady && c.proto.Some?
    requires (forall cid :: cid in InitCids(c.channels) ==> cid in c.nameByCid)
    requires rs == CreateRequests(SortedKeys(InitCids(c.channels)), c.nameByCid)
    ensures |InitCids(c.channels)| <= c.initStateCount
    ensures var d := RequestChannels(c);
            && d.channels == AllCreating(c.channels) && d.log == c.log + rs && d.proto == Some(c.proto.value + rs)
            && d.initStateCount == c.initStateCount - |rs|
  {
    hide SortedKeys;
    hide InitCids;
  }

  lemma AllAreNamed(c: Conn)
    requires NamesOk(c)
    ensures forall cid :: cid in InitCids(c.channels) ==> cid in c.nameByCid
  {
    hide Inverse;
  }

  lemma RequestsAre(c: Conn, cids: seq<Cid>)
    requires cids == SortedKeys(InitCids(c.channels))
    requires forall cid :: cid in InitCids(c.channels) ==> cid in c.nameByCid
    ensures RequestInit(c, CreateRequests(cids, c.nameByCid))
  {
    hide SortedKeys;
    var rs := CreateRequests(cids, c.nameByCid);
    assert forall k :: 0 <= k < |cids| ==> cids[k] in cids;
    forall cid | cid in c.channels && c.channels[cid].Init?
      ensures exists k :: 0 <= k < |rs| && rs[k].cid == cid
    {
      assert cid in cids;
      var k :| 0 <= k < |cids| && cids[k] == cid;
      assert rs[k].cid == cid;
    }
  }

  // ---- the state of the connection ----

  /** The state after a step of the state machine. */
  lemma StateAfter(c: Conn, conn: Connect, timer: bool, inp: Input)
    requires Ready(c) && Answerable(c, inp) && Inv(c)
    ensures var d := ConnStep(c, conn, timer, inp);
            match c.state
            case Unconnected => d.state == Connecting
            case Connecting =>
              d.state == if conn.Connected? then ConnInit else if conn.Failed? then Waiting else Connecting
            case ConnInit => d.state == Listen
            case Listen =>
              d.state == if inp == VersionRes(12) || inp == VersionRes(13) then PeerReady
                         else if inp.ProtoDone? then Waiting else Listen
            case PeerReady => d.state == if inp.ProtoError? || inp.ProtoDone? then Shutdown else PeerReady
            case Waiting => d.state == if timer then Unconnected else Waiting
            case Shutdown => d == c
            case EndOfStream => d == c
  {
    InvParts(c);
    hide *;
    StepIs(c, conn, timer, inp);
    if c.state == PeerReady {
      RequestsShape(c);
      PeerState(RequestChannels(c), inp);
    } else {
      OtherState(c, conn, timer, inp);
    }
  }

  lemma PeerState(c: Conn, inp: Input)
    requires inp.CreateChanRes? ==> inp.newCid in c.channels && inp.newCid in c.nameByCid
    requires inp.EventAddRes? ==> inp.evSubid in c.cidBySubid && c.cidBySubid[inp.evSubid] in c.channels
    ensures PeerInput(c, inp).state == if inp.ProtoError? || inp.ProtoDone? then Shutdown else c.state
  {
    hide SortedKeys;
  }

  lemma OtherState(c: Conn, conn: Connect, timer: bool, inp: Input)
    requires Ready(c) && Answerable(c, inp) && c.state != PeerReady
    ensures var d := ConnStep(c, conn, timer, inp);
            match c.state
            case Unconnected => d.state == Connecting
            case Connecting =>
              d.state == if conn.Connected? then ConnInit else if conn.Failed? then Waiting else Connecting
            case ConnInit => d.state == Listen
            case Listen =>
              d.state == if inp == VersionRes(12) || inp == VersionRes(13) then PeerReady
                         else if inp.ProtoDone? then Waiting else Listen
            case Waiting => d.state == if timer then Unconnected else Waiting
            case _ => d == c
  {
    hide InitCids;
  }

  /** What a step of the state machine sends and reports while the connection comes up or waits. */
  lemma ComingUp(c: Conn, conn: Connect, timer: bool, inp: Input)
    requires Ready(c) && Answerable(c, inp) && ProtoOk(c) && c.state != PeerReady
    ensures var d := ConnStep(c, conn, timer, inp);
            && d.channels == c.channels && d.infoQueue == c.infoQueue && d.pinging == c.pinging
            && d.log == c.log + (if c.state == ConnInit then [ConnLifecycle.Version, ClientName, HostName] else [])
            && d.queue == c.queue + (if c.state == Connecting && conn.Connected? then [Connection(true)]
                                     else if c.state == Connecting && conn.Failed? then [Connection(false)] else [])
            && (c.state == Connecting && conn.Connected? ==> d.proto == Some([]))
            && (c.state == ConnInit ==>
                  c.proto.Some? && d.proto == Some(c.proto.value + [ConnLifecycle.Version, ClientName, HostName]))
  {
    assert c.log + [] == c.log && c.queue + [] == c.queue;
  }

  /** An echo ends the wait for it; an error and the end of the protocol end the connection. */
  lemma PeerReacts(c: Conn, inp: Input)
    requires inp.EchoReply? || inp.ProtoError? || inp.ProtoDone? || inp.OtherMsg? || inp.NothingYet? || inp.VersionRes?
    ensures var d := PeerInput(c, inp);
            && (inp.EchoReply? ==> d == c.(pinging := false))
            && (inp.ProtoError? ==> Ends(c, d, ProtocolError))
            && (inp.ProtoDone? ==> Ends(c, d, ProtocolDone))
            && (inp.OtherMsg? || inp.NothingYet? || inp.VersionRes? ==> d == c)
  {
    hide TriggerShutdown;
    ShutdownEnds(c, ProtocolError);
    ShutdownEnds(c, ProtocolDone);
  }

  // ---- the end ----

  /** From c to d the connection ends: no protocol object, all channels ended, and for every channel that
      was up, in the order of the cids, a Closed status with its series and the reason. */
  ghost predicate Ends(c: Conn, d: Conn, reason: Reason) {
    && d.state == Shutdown && d.proto.None?
    && d.channels.Keys == c.channels.Keys && (forall cid :: cid in d.channels ==> d.channels[cid] == Ended)
    && d == c.(state := d.state, proto := d.proto, channels := d.channels, queue := d.queue)
    && c.queue <= d.queue
    && exists cids: seq<Cid> :: ClosedInOrder(c, d, reason, cids)
  }

  ghost predicate ClosedInOrder(c: Conn, d: Conn, reason: Reason, cids: seq<Cid>) {
    && |c.queue| + |cids| == |d.queue| && (forall i, j :: 0 <= i < j < |cids| ==> cids[i] < cids[j])
    && (forall cid :: cid in cids <==> cid in c.channels && c.channels[cid].Created?)
    && forall i :: 0 <= i < |cids| ==> d.queue[|c.queue| + i] == Closed(c.channels[cids[i]].series, reason)
  }

  lemma ShutdownEnds(c: Conn, reason: Reason)
    ensures Ends(c, TriggerShutdown(c, reason), reason)
  {
    hide SortedKeys;
    hide ClosedInOrder;
    ClosedAre(c, reason, SortedKeys(CreatedCids(c.channels)));
  }

  lemma ClosedAre(c: Conn, reason: Reason, cids: seq<Cid>)
    requires cids == SortedKeys(CreatedCids(c.channels))
    ensures ClosedInOrder(c, TriggerShutdown(c, reason), reason, cids)
  {
    hide SortedKeys;
    assert forall cid :: cid in cids <==> cid in CreatedCids(c.channels);
  }

  /** A ping that is due is sent once; the connection is given up exactly if a ping that is due was sent
      already and its answer is overdue, or there is no protocol object to send it with. */
  lemma HealthGivesUp(c: Conn, due: bool, overdue: bool)
    ensures var d := CheckHealth(c, due, overdue);
            && (due && c.pinging && overdue ==> Ends(c, d, IocTimeout))
            && (due && !c.pinging && c.proto.None? ==> Ends(c.(pinging := true), d, NoProtocol))
            && (due && !c.pinging && c.proto.Some? ==>
                  d == c.(pinging := true, proto := Some(c.proto.value + [Echo]), log := c.log + [Echo]))
            && (!due || (c.pinging && !overdue) ==> d == c)
  {
    hide TriggerShutdown;
    ShutdownEnds(c, IocTimeout);
    ShutdownEnds(c.(pinging := true), NoProtocol);
  }

  // ---- removing ----

  /** A channel that is removed is gone with its name; the others are left alone. A name that is not there
      costs a cid. */
  lemma RemovesOne(c: Conn, name: Name)
    requires Inv(c)
    ensures var d := ChannelRemove(c, name);
            if name in c.cidByName then
              var cid := c.cidByName[name];
              && cid in c.channels
              && d == c.(cidByName := c.cidByName - {name}, channels := c.channels - {cid},
                         nameByCid := c.nameByCid - {cid})
            else d == c.(cidNext := c.cidNext + 1)
  {
    InvParts(c);
    hide Inv;
    hide Defined;
    hide Ready;
    hide ChannelsOk;
    hide CountOk;
    hide CreatesOk;
    hide SubidsOk;
    hide EventsOk;
    hide ProtoOk;
    if name in c.cidByName {
      OnlyName(c.cidByName, c.nameByCid, name);
      RemovesKnown(c, name);
    } else {
      NoName(c.cidByName, c.nameByCid, name, c.cidNext + 1);
      RemovesNothing(c, name);
    }
  }

  lemma RemovesKnown(c: Conn, name: Name)
    requires name in c.cidByName && c.cidByName[name] in c.channels
    requires var byName, cid := c.cidByName, c.cidByName[name];
             (map n | n in byName && byName[n] != cid :: byName[n]) == byName - {name}
    ensures var cid := c.cidByName[name];
            ChannelRemove(c, name)
            == c.(cidByName := c.cidByName - {name}, channels := c.channels - {cid}, nameByCid := c.nameByCid - {cid})
  {
  }

  lemma RemovesNothing(c: Conn, name: Name)
    requires name !in c.cidByName && c.cidNext + 1 !in c.channels
    requires var byName, cid := c.cidByName[name := c.cidNext + 1], c.cidNext + 1;
             (map n | n in byName && byName[n] != cid :: byName[n]) == c.cidByName
    requires c.nameByCid[c.cidNext + 1 := name] - {c.cidNext + 1} == c.nameByCid
    ensures ChannelRemove(c, name) == c.(cidNext := c.cidNext + 1)
  {
    assert c.channels - {c.cidNext + 1} == c.channels;
  }

  lemma OnlyName(cidByName: map<Name, Cid>, nameByCid: map<Cid, Name>, name: Name)
    requires Inverse(cidByName, nameByCid) && name in cidByName
    ensures (map n | n in cidByName && cidByName[n] != cidByName[name] :: cidByName[n]) == cidByName - {name}
  {
  }

  lemma NoName(cidByName: map<Name, Cid>, nameByCid: map<Cid, Name>, name: Name, cid: Cid)
    requires Inverse(cidByName, nameByCid) && name !in cidByName && cid !in nameByCid
    ensures var more := cidByName[name := cid]; (map n | n in more && more[n] != cid :: more[n]) == cidByName
    ensures nameByCid[cid := name] - {cid} == nameByCid
  {
  }
}
