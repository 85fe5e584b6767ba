/**
 What every step of a connection keeps, and what follows for whole runs.
 */
module ConnInvariants {
  import opened Wrappers
  import opened OrderedMaps
  import opened ConnLifecycle

  // ---- the coupled lifecycle ----

  /** The state of a channel that is stored under cid, while the connection is in state st. */
  ghost predicate ChannelOk(cid: Cid, ch: ChannelState, st: ConnState) {
    match ch
    case Init(_) => true
    case Creating(_, c) => c == cid && st == PeerReady
    case FetchingSeriesId(x) => x.cid == cid && x.state == FetchSeriesId && st == PeerReady
    case Created(series, x) => x.cid == cid && (x.state == AddingEvent(series) || x.state == Evented(series))
      && st == PeerReady
    case Error => false
    case Ended => st == Shutdown || st == EndOfStream
  }

  ghost predicate ChannelsOk(channels: map<Cid, ChannelState>, st: ConnState) {
    forall cid :: cid in channels ==> ChannelOk(cid, channels[cid], st)
  }

  /** There is a protocol object exactly while the connection is up. */
  ghost predicate ProtoOk(c: Conn) {
    c.proto.Some? <==> c.state.ConnInit? || c.state.Listen? || c.state.PeerReady?
  }

  // ---- the id maps ----

  ghost predicate Inverse(cidByName: map<Name, Cid>, nameByCid: map<Cid, Name>) {
    && (forall n :: n in cidByName ==> cidByName[n] in nameByCid && nameByCid[cidByName[n]] == n)
    && (forall cid :: cid in nameByCid ==> nameByCid[cid] in cidByName && cidByName[nameByCid[cid]] == cid)
  }

  ghost predicate NamesOk(c: Conn) {
    && c.channels.Keys == c.nameByCid.Keys
    && Inverse(c.cidByName, c.nameByCid)
    && forall cid :: cid in c.nameByCid ==> cid <= c.cidNext
  }

  ghost predicate CountOk(c: Conn) {
    |InitCids(c.channels)| <= c.initStateCount
  }

  // ---- what was sent ----

  ghost predicate WasRequested(log: seq<Request>, cid: Cid, before: nat)
    requires before <= |log|
  {
    exists k :: 0 <= k < before && log[k].CreateChan? && log[k].cid == cid
  }

  /** Each cid is requested at most once, under its name, and never while its channel is in Init. */
  ghost predicate CreatesOk(c: Conn) {
    && (forall i, j :: 0 <= i < j < |c.log| && c.log[i].CreateChan? && c.log[j].CreateChan? ==>
          c.log[i].cid != c.log[j].cid)
    && (forall i :: 0 <= i < |c.log| && c.log[i].CreateChan? ==>
          c.log[i].cid <= c.cidNext && (c.log[i].cid in c.channels ==> !c.channels[c.log[i].cid].Init?)
          && (c.log[i].cid in c.nameByCid ==> c.nameByCid[c.log[i].cid] == c.log[i].channel))
    && (forall cid :: cid in c.channels && (c.channels[cid].Creating? || c.channels[cid].FetchingSeriesId?) ==>
          WasRequested(c.log, cid, |c.log|))
  }

  /** Subscription ids belong to one channel each, which is past its series lookup. */
  ghost predicate SubidsOk(c: Conn) {
    && (forall s :: s in c.cidBySubid ==> s <= c.subidNext && c.cidBySubid[s] <= c.cidNext)
    && (forall s, t :: s in c.cidBySubid && t in c.cidBySubid && s != t ==> c.cidBySubid[s] != c.cidBySubid[t])
    && (forall s :: s in c.cidBySubid && c.cidBySubid[s] in c.channels ==>
          c.channels[c.cidBySubid[s]].Created? || c.channels[c.cidBySubid[s]].Ended?)
  }

  /** A request for the events of a channel as the server knows it: in the time-stamped form of
      its type. */
  predicate AsksFor(r: Request, g: Granted) {
    r.EventAdd? && r.sid == g.sid && r.dataType == g.dataType + 14 && r.dataCount == g.dataCount
  }

  function GrantOf(st: CreatedState): Granted {
    Granted(st.sid, st.dataType, st.dataCount)
  }

  /** The request for the events of the channel that owns its subscription id: after the request
      for the channel itself, and with the server id that came back for it. */
  ghost predicate EventAddOk(c: Conn, i: nat)
    requires i < |c.log| && c.log[i].EventAdd?
  {
    && c.log[i].subid in c.cidBySubid
    && var cid := c.cidBySubid[c.log[i].subid];
       cid in c.granted && AsksFor(c.log[i], c.granted[cid]) && WasRequested(c.log, cid, i)
  }

  ghost predicate EventsOk(c: Conn) {
    && (forall i :: 0 <= i < |c.log| && c.log[i].EventAdd? ==> EventAddOk(c, i))
    && (forall i, j :: 0 <= i < j < |c.log| && c.log[i].EventAdd? && c.log[j].EventAdd? ==>
          c.log[i].subid != c.log[j].subid)
    && (forall cid :: cid in c.channels && c.channels[cid].FetchingSeriesId? ==>
          cid in c.granted && c.granted[cid] == GrantOf(c.channels[cid].st))
  }

  ghost predicate Inv(c: Conn) {
    && ChannelsOk(c.channels, c.state) && ProtoOk(c)
    && NamesOk(c) && CountOk(c)
    && CreatesOk(c) && SubidsOk(c) && EventsOk(c)
  }

  lemma InvIsDefined(c: Conn)
    requires Inv(c)
    ensures Defined(c)
  {
  }

  lemma NewIsGood()
    ensures Inv(ConnLifecycle.New())
  {
  }

  // ---- adding and removing ----

  lemma InitCidsPut(channels: map<Cid, ChannelState>, cid: Cid, ch: ChannelState)
    ensures InitCids(channels[cid := ch]) == (InitCids(channels) - {cid}) + if ch.Init? then {cid} else {}
  {
  }

  lemma CountPut(channels: map<Cid, ChannelState>, cid: Cid, ch: ChannelState)
    ensures |InitCids(channels[cid := ch])| <= |InitCids(channels)| + if ch.Init? then 1 else 0
  {
    InitCidsPut(channels, cid, ch);
    var rest := InitCids(channels) - {cid};
    FewerOrEqual(rest, InitCids(channels));
    if ch.Init? {
      assert |rest + {cid}| == |rest| + 1;
    } else {
      assert rest + {} == rest;
    }
  }

  /** A channel whose past stays what it was. */
  ghost predicate SamePast(c: Conn, d: Conn, cid: Cid)
    requires cid in d.channels
  {
    if cid in c.channels then
      var x, y := c.channels[cid], d.channels[cid];
      x == y || y.Ended? || (x.Created? && y.Created?)
    else d.channels[cid].Init? && c.cidNext < cid
  }

  ghost predicate SameHistory(c: Conn, d: Conn) {
    && d.log == c.log && d.cidBySubid == c.cidBySubid && d.granted == c.granted
    && c.cidNext <= d.cidNext && c.subidNext <= d.subidNext
    && (forall cid :: cid in d.nameByCid ==>
          c.cidNext < cid || (cid in c.nameByCid && d.nameByCid[cid] == c.nameByCid[cid]))
    && forall cid :: cid in d.channels ==> SamePast(c, d, cid)
  }

  ghost predicate PastOk(c: Conn) {
    CreatesOk(c) && SubidsOk(c) && EventsOk(c)
  }

  lemma HistoryFrame(c: Conn, d: Conn)
    requires PastOk(c) && SameHistory(c, d)
    ensures PastOk(d)
  {
    hide WasRequested;
    forall i | 0 <= i < |d.log| && d.log[i].EventAdd?
      ensures EventAddOk(d, i)
    {
      assert EventAddOk(c, i);
    }
  }

  /** A name that is there is left alone; another one takes the next cid, and its channel is in Init. */
  lemma AddShape(c: Conn, name: Name, cssid: nat)
    requires NamesOk(c)
    ensures var d, cid := ChannelAdd(c, name, cssid), c.cidNext + 1;
            if name in c.cidByName then d == c
            else
              && cid !in c.channels && cid !in c.nameByCid
              && d == c.(cidNext := cid, cidByName := c.cidByName[name := cid], nameByCid := c.nameByCid[cid := name],
                         channels := c.channels[cid := Init(cssid)], initStateCount := c.initStateCount + 1)
  {
  }

  lemma AddKeepsNames(c: Conn, name: Name, cssid: nat)
    requires NamesOk(c)
    ensures NamesOk(ChannelAdd(c, name, cssid))
  {
  }

  lemma AddKeeps(c: Conn, name: Name, cssid: nat)
    requires Inv(c)
    ensures Inv(ChannelAdd(c, name, cssid))
  {
    hide ChannelAdd;
    hide CreatesOk;
    hide SubidsOk;
    hide EventsOk;
    hide NamesOk;
    AddKeepsNames(c, name, cssid);
    AddShape(c, name, cssid);
    if name !in c.cidByName {
      CountPut(c.channels, c.cidNext + 1, Init(cssid));
      HistoryFrame(c, ChannelAdd(c, name, cssid));
    }
  }

  lemma RemoveKeepsNames(c: Conn, name: Name)
    requires NamesOk(c)
    ensures NamesOk(ChannelRemove(c, name))
  {
    var d, cid := ChannelRemove(c, name), CidFor(c, name).1;
    if name in c.cidByName {
      assert d.cidByName == c.cidByName - {name};
    } else {
      assert d.cidByName == c.cidByName && d.nameByCid == c.nameByCid && d.channels == c.channels;
    }
  }

  /** Besides the names, removing a channel changes little. */
  lemma RemoveShape(c: Conn, name: Name)
    ensures var (d, cid) := (ChannelRemove(c, name), CidFor(c, name).1);
            && d == c.(cidNext := d.cidNext, cidByName := d.cidByName, nameByCid := d.nameByCid,
                       channels := c.channels - {cid})
            && c.cidNext <= d.cidNext
            && forall x :: x in d.nameByCid ==> x in c.nameByCid && d.nameByCid[x] == c.nameByCid[x]
  {
  }

  lemma RemoveKeeps(c: Conn, name: Name)
    requires Inv(c)
    ensures Inv(ChannelRemove(c, name))
  {
    hide ChannelRemove;
    hide CidFor;
    hide NamesOk;
    hide CreatesOk;
    hide SubidsOk;
    hide EventsOk;
    RemoveKeepsNames(c, name);
    RemoveShape(c, name);
    var d, cid := ChannelRemove(c, name), CidFor(c, name).1;
    assert InitCids(d.channels) == InitCids(c.channels) - {cid};
    FewerOrEqual(InitCids(d.channels), InitCids(c.channels));
    HistoryFrame(c, d);
  }

  // ---- shutdown ----

  lemma ShutdownKeeps(c: Conn, reason: Reason)
    requires ChannelsOk(c.channels, c.state) && NamesOk(c) && CountOk(c) && PastOk(c)
    ensures Inv(TriggerShutdown(c, reason))
  {
    hide CreatesOk;
    hide SubidsOk;
    hide EventsOk;
    hide Inverse;
    hide SortedKeys;
    var d := TriggerShutdown(c, reason);
    assert InitCids(d.channels) == {};
    HistoryFrame(c, d);
    assert d.channels.Keys == c.channels.Keys;
  }

  lemma PingKeeps(c: Conn, rs: seq<Request>)
    requires Inv(c) && c.proto.Some? && forall i :: 0 <= i < |rs| ==> !rs[i].CreateChan? && !rs[i].EventAdd?
    ensures Inv(PushOut(c, rs))
  {
    hide Inverse;
    PlainRequests(c, PushOut(c, rs), rs);
  }

  lemma LaterRequested(log: seq<Request>, more: seq<Request>, cid: Cid, n: nat)
    requires n <= |log| && WasRequested(log, cid, n)
    ensures forall m :: n <= m <= |log + more| ==> WasRequested(log + more, cid, m)
  {
    var k :| 0 <= k < n && log[k].CreateChan? && log[k].cid == cid;
    assert (log + more)[k] == log[k];
  }

  lemma PlainRequests(c: Conn, d: Conn, rs: seq<Request>)
    requires PastOk(c) && forall i :: 0 <= i < |rs| ==> !rs[i].CreateChan? && !rs[i].EventAdd?
    requires d == c.(log := c.log + rs, proto := d.proto)
    ensures PastOk(d)
  {
    hide WasRequested;
    forall cid | WasRequested(c.log, cid, |c.log|)
      ensures WasRequested(d.log, cid, |d.log|)
    {
      LaterRequested(c.log, rs, cid, |c.log|);
    }
    forall i | 0 <= i < |d.log| && d.log[i].EventAdd?
      ensures EventAddOk(d, i)
    {
      assert EventAddOk(c, i);
      LaterRequested(c.log, rs, c.cidBySubid[c.log[i].subid], i);
    }
  }

  lemma HealthKeeps(c: Conn, due: bool, overdue: bool)
    requires Inv(c)
    ensures Inv(CheckHealth(c, due, overdue))
  {
    hide CreatesOk;
    hide SubidsOk;
    hide EventsOk;
    hide Inverse;
    var d := c.(pinging := true);
    HistoryFrame(c, d);
    if due {
      if c.pinging && overdue {
        ShutdownKeeps(c, IocTimeout);
      } else if !c.pinging && c.proto.Some? {
        PingKeeps(d, [Echo]);
      } else if !c.pinging {
        ShutdownKeeps(d, NoProtocol);
      }
    }
  }

  // ---- channels coming up ----

  lemma {:induction false} RequestedIn(log: seq<Request>, cids: seq<Cid>, names: map<Cid, Name>, cid: Cid)
    requires (forall x :: x in cids ==> x in names) && cid in cids
    ensures var all := log + CreateRequests(cids, names); WasRequested(all, cid, |all|)
  {
    var i :| 0 <= i < |cids| && cids[i] == cid;
    assert (log + CreateRequests(cids, names))[|log| + i] == CreateChan(cid, names[cid]);
  }

  lemma RequestsKeepCreates(c: Conn)
    requires Inv(c) && c.proto.Some?
    ensures CreatesOk(RequestChannels(c))
  {
    hide SortedKeys;
    hide WasRequested;
    hide EventsOk;
    hide SubidsOk;
    hide Inverse;
    var cids := SortedKeys(InitCids(c.channels));
    var rs := CreateRequests(cids, c.nameByCid);
    var d := RequestChannels(c);
    forall cid | cid in d.channels && (d.channels[cid].Creating? || d.channels[cid].FetchingSeriesId?)
      ensures WasRequested(d.log, cid, |d.log|)
    {
      if cid in InitCids(c.channels) {
        RequestedIn(c.log, cids, c.nameByCid, cid);
      } else {
        LaterRequested(c.log, rs, cid, |c.log|);
      }
    }
    forall i | 0 <= i < |d.log| && d.log[i].CreateChan?
      ensures d.log[i].cid <= d.cidNext && (d.log[i].cid in d.channels ==> !d.channels[d.log[i].cid].Init?)
      ensures i >= |c.log| ==> d.log[i].cid == cids[i - |c.log|] && d.log[i].cid in InitCids(c.channels)
    {
      if i >= |c.log| {
        assert d.log[i] == rs[i - |c.log|];
        assert cids[i - |c.log|] in cids;
      }
    }
  }

  lemma RequestsKeepEvents(c: Conn)
    requires Inv(c) && c.proto.Some?
    ensures EventsOk(RequestChannels(c))
  {
    hide SortedKeys;
    hide WasRequested;
    hide CreatesOk;
    hide SubidsOk;
    hide Inverse;
    var rs := CreateRequests(SortedKeys(InitCids(c.channels)), c.nameByCid);
    var d := RequestChannels(c);
    forall i | |c.log| <= i < |d.log|
      ensures d.log[i].CreateChan?
    {
      assert d.log[i] == rs[i - |c.log|];
    }
    forall i | 0 <= i < |c.log| && d.log[i].EventAdd?
      ensures EventAddOk(d, i)
    {
      assert EventAddOk(c, i);
      LaterRequested(c.log, rs, c.cidBySubid[c.log[i].subid], i);
    }
  }

  /** Asking for the channels in Init leaves none of them in Init, and the count never underflows. */
  lemma RequestsKeep(c: Conn)
    requires Inv(c) && c.state == PeerReady
    ensures Inv(RequestChannels(c)) && InitCids(RequestChannels(c).channels) == {}
    ensures RequestChannels(c).channels.Keys == c.channels.Keys
    ensures RequestChannels(c).cidBySubid == c.cidBySubid && RequestChannels(c).state == PeerReady
  {
    hide *;
    InvParts(c);
    RequestsShape(c);
    RequestsKeepCreates(c);
    RequestsKeepEvents(c);
    RequestsKeepRest(c, RequestChannels(c));
    InvFrom(RequestChannels(c));
  }

  lemma InvParts(c: Conn)
    requires Inv(c)
    ensures ChannelsOk(c.channels, c.state) && ProtoOk(c) && NamesOk(c) && CountOk(c)
    ensures CreatesOk(c) && SubidsOk(c) && EventsOk(c) && Ready(c) && Defined(c)
  {
    InvIsDefined(c);
  }

  lemma InvFrom(c: Conn)
    requires ChannelsOk(c.channels, c.state) && ProtoOk(c) && NamesOk(c) && CountOk(c)
    requires CreatesOk(c) && SubidsOk(c) && EventsOk(c)
    ensures Inv(c)
  {
  }

  lemma RequestsShape(c: Conn)
    requires Ready(c) && c.state == PeerReady
    ensures c.proto.Some? && (forall cid :: cid in InitCids(c.channels) ==> cid in c.nameByCid)
            && |InitCids(c.channels)| <= c.initStateCount
    ensures var d := RequestChannels(c);
            && d.proto.Some?
            && d == c.(channels := AllCreating(c.channels),
                       initStateCount := c.initStateCount - |InitCids(c.channels)|, proto := d.proto, log := d.log)
  {
    hide SortedKeys;
  }

  lemma RequestsKeepRest(c: Conn, d: Conn)
    requires ChannelsOk(c.channels, c.state) && NamesOk(c) && SubidsOk(c) && c.state == PeerReady
    requires d.proto.Some?
             && d == c.(channels := AllCreating(c.channels), initStateCount := d.initStateCount, proto := d.proto,
                        log := d.log)
    ensures ChannelsOk(d.channels, d.state) && ProtoOk(d) && NamesOk(d) && CountOk(d) && SubidsOk(d)
    ensures d.channels.Keys == c.channels.Keys && InitCids(d.channels) == {}
  {
    hide Inverse;
    assert d.channels.Keys == c.channels.Keys;
    assert InitCids(d.channels) == {};
  }

  lemma CreatedKeeps(c: Conn, cid: Cid, sid: nat, dataType: nat, dataCount: nat)
    requires Inv(c) && c.state == PeerReady && cid in c.channels && cid in c.nameByCid
    ensures Inv(ChannelCreated(c, cid, sid, dataType, dataCount))
    ensures ChannelCreated(c, cid, sid, dataType, dataCount).channels.Keys == c.channels.Keys
  {
    hide CreatesOk;
    hide SubidsOk;
    hide EventsOk;
    hide Inverse;
    if c.channels[cid].Creating? {
      var d := ChannelCreated(c, cid, sid, dataType, dataCount);
      CountPut(c.channels, cid, d.channels[cid]);
      CreatedKeepsPast(c, cid, sid, dataType, dataCount);
      assert d.channels.Keys == c.channels.Keys;
    }
  }

  lemma CreatedKeepsPast(c: Conn, cid: Cid, sid: nat, dataType: nat, dataCount: nat)
    requires CreatesOk(c) && SubidsOk(c) && EventsOk(c)
    requires cid in c.channels && cid in c.nameByCid && c.channels[cid].Creating?
    ensures PastOk(ChannelCreated(c, cid, sid, dataType, dataCount))
  {
    hide WasRequested;
    hide ChannelCreated;
    var d := ChannelCreated(c, cid, sid, dataType, dataCount);
    CreatedShape(c, cid, sid, dataType, dataCount);
    forall i | 0 <= i < |d.log| && d.log[i].EventAdd?
      ensures EventAddOk(d, i)
    {
      assert EventAddOk(c, i);
      var owner := c.cidBySubid[c.log[i].subid];
      assert owner != cid;
    }
  }

  lemma CreatedShape(c: Conn, cid: Cid, sid: nat, dataType: nat, dataCount: nat)
    requires cid in c.channels && cid in c.nameByCid && c.channels[cid].Creating?
    ensures var d := ChannelCreated(c, cid, sid, dataType, dataCount);
            && d.log == c.log && d.cidBySubid == c.cidBySubid && d.cidNext == c.cidNext && d.subidNext == c.subidNext
            && d.nameByCid == c.nameByCid
            && d.granted == c.granted[cid := Granted(sid, dataType, dataCount)]
            && cid in d.channels && d.channels[cid].FetchingSeriesId?
            && GrantOf(d.channels[cid].st) == Granted(sid, dataType, dataCount)
            && d.channels == c.channels[cid := d.channels[cid]]
  {
  }

  lemma EventedKeepsPast(c: Conn, st: CreatedState, series: Series)
    requires Inv(c) && c.state == PeerReady && st.cid in c.channels && c.channels[st.cid] == FetchingSeriesId(st)
    ensures PastOk(ChannelToEvented(c, st, series))
  {
    hide *;
    InvParts(c);
    UpHasProtoToo(c);
    IsNamed(c, st.cid);
    var d := ChannelToEvented(c, st, series);
    EventedShape(c, st, series);
    EventedKeepsCreates(c, d, st.cid);
    EventedKeepsSubids(c, d, st.cid);
    EventedKeepsEvents(c, d, st);
    PastFrom(d);
  }

  lemma IsNamed(c: Conn, cid: Cid)
    requires NamesOk(c) && cid in c.channels
    ensures cid in c.nameByCid
  {
  }

  lemma PastFrom(c: Conn)
    requires CreatesOk(c) && SubidsOk(c) && EventsOk(c)
    ensures PastOk(c)
  {
  }

  lemma UpHasProtoToo(c: Conn)
    requires ProtoOk(c) && c.state == PeerReady
    ensures c.proto.Some?
  {
  }

  /** One more request, with a new subscription id, for a channel that is created by now. */
  ghost predicate Subscribed(c: Conn, d: Conn, cid: Cid) {
    && |d.log| == |c.log| + 1 && d.log[..|c.log|] == c.log && d.log[|c.log|].EventAdd?
    && d.log[|c.log|].subid == d.subidNext == c.subidNext + 1
    && d.cidBySubid == c.cidBySubid[d.subidNext := cid] && d.granted == c.granted && d.cidNext == c.cidNext
    && d.nameByCid == c.nameByCid
    && cid in c.channels && cid in d.channels && d.channels[cid].Created?
    && d.channels == c.channels[cid := d.channels[cid]]
  }

  lemma EventedShape(c: Conn, st: CreatedState, series: Series)
    requires c.proto.Some? && st.cid in c.channels && st.cid in c.nameByCid
             && c.channels[st.cid] == FetchingSeriesId(st)
    ensures var d := ChannelToEvented(c, st, series); Subscribed(c, d, st.cid) && AsksFor(d.log[|c.log|], GrantOf(st))
  {
  }

  lemma EventedKeepsCreates(c: Conn, d: Conn, cid: Cid)
    requires CreatesOk(c) && Subscribed(c, d, cid)
    ensures CreatesOk(d)
  {
    hide WasRequested;
    var n := |c.log|;
    assert d.log == c.log + [d.log[n]];
    forall x | WasRequested(c.log, x, n)
      ensures WasRequested(d.log, x, n + 1)
    {
      LaterRequested(c.log, [d.log[n]], x, n);
    }
    assert forall i :: 0 <= i < n ==> d.log[i] == c.log[i];
  }

  lemma EventedKeepsSubids(c: Conn, d: Conn, cid: Cid)
    requires SubidsOk(c) && Subscribed(c, d, cid) && c.channels[cid].FetchingSeriesId? && cid <= c.cidNext
    ensures SubidsOk(d)
  {
    forall s | s in c.cidBySubid
      ensures c.cidBySubid[s] != cid && s != d.subidNext
    {
    }
  }

  lemma EventedKeepsEvents(c: Conn, d: Conn, st: CreatedState)
    requires SubidsOk(c) && CreatesOk(c) && EventsOk(c) && Subscribed(c, d, st.cid)
    requires c.channels[st.cid] == FetchingSeriesId(st) && AsksFor(d.log[|c.log|], GrantOf(st))
    ensures EventsOk(d)
  {
    hide WasRequested;
    var n := |c.log|;
    assert d.log == c.log + [d.log[n]];
    forall i | 0 <= i < |d.log| && d.log[i].EventAdd?
      ensures EventAddOk(d, i)
      ensures i < n ==> d.log[i] == c.log[i] && d.log[i].subid in c.cidBySubid
    {
      if i < n {
        assert EventAddOk(c, i);
        LaterRequested(c.log, [d.log[n]], c.cidBySubid[c.log[i].subid], i);
      } else {
        LaterRequested(c.log, [d.log[n]], st.cid, n);
      }
    }
  }

  lemma EventedKeeps(c: Conn, st: CreatedState, series: Series)
    requires Inv(c) && c.state == PeerReady && st.cid in c.channels && c.channels[st.cid] == FetchingSeriesId(st)
    ensures Inv(ChannelToEvented(c, st, series))
  {
    hide CreatesOk;
    hide SubidsOk;
    hide EventsOk;
    hide Inverse;
    hide InitCids;
    EventedKeepsPast(c, st, series);
    var d := ChannelToEvented(c, st, series);
    CountPut(c.channels, st.cid, d.channels[st.cid]);
    assert d.channels.Keys == c.channels.Keys;
  }

  lemma LookupKeeps(c: Conn, res: Option<(Name, Series)>)
    requires Inv(c) && Defined(c)
    ensures Inv(SeriesLookup(c, res))
  {
    hide CreatesOk;
    hide SubidsOk;
    hide EventsOk;
    hide Inverse;
    hide ChannelToEvented;
    if res.Some? {
      var (name, series) := res.value;
      var d := c.(queue := c.queue + [Opened(series)]);
      HistoryFrame(c, d);
      if name in c.cidByName && c.cidByName[name] in c.channels && c.channels[c.cidByName[name]].FetchingSeriesId? {
        var cid := c.cidByName[name];
        assert ChannelOk(cid, c.channels[cid], c.state);
        EventedKeeps(d, c.channels[cid].st, series);
      }
    }
  }

  /** An event never finds a created channel without a series. */
  lemma EventKeeps(c: Conn, subid: nat)
    requires Inv(c) && subid in c.cidBySubid && c.cidBySubid[subid] in c.channels
    ensures Inv(EventArrived(c, subid).0) && !EventArrived(c, subid).1
  {
    hide CreatesOk;
    hide SubidsOk;
    hide EventsOk;
    hide Inverse;
    hide InitCids;
    var cid := c.cidBySubid[subid];
    assert ChannelOk(cid, c.channels[cid], c.state);
    var d := EventArrived(c, subid).0;
    HistoryFrame(c, d);
    if c.channels[cid].Created? {
      CountPut(c.channels, cid, d.channels[cid]);
      assert d.channels.Keys == c.channels.Keys;
    }
  }

  lemma PeerKeeps(c: Conn, inp: Input)
    requires Inv(c) && c.state == PeerReady && Answerable(c, inp)
    ensures Inv(PeerInput(RequestChannels(c), inp))
  {
    RequestsKeep(c);
    hide RequestChannels;
    hide CreatesOk;
    hide SubidsOk;
    hide EventsOk;
    hide Inverse;
    var d := RequestChannels(c);
    match inp {
      case CreateChanRes(cid, sid, dataType, dataCount, known) =>
        CreatedKeeps(d, cid, sid, dataType, dataCount);
      case EventAddRes(subid) =>
        EventKeeps(d, subid);
      case EchoReply =>
        Pinging(d, false);
      case ProtoError =>
        ShutdownKeeps(d, ProtocolError);
      case ProtoDone =>
        ShutdownKeeps(d, ProtocolDone);
      case _ =>
    }
  }

  lemma Pinging(c: Conn, p: bool)
    requires Inv(c)
    ensures Inv(c.(pinging := p))
  {
    hide Inverse;
    HistoryFrame(c, c.(pinging := p));
  }

  /** Channels that are not up survive any change of the connection state that is not the end. */
  lemma StateKeeps(c: Conn, d: Conn)
    requires Inv(c) && ProtoOk(d) && d == c.(state := d.state, proto := d.proto, queue := d.queue)
    requires c.state != PeerReady && c.state != Shutdown && c.state != EndOfStream
    ensures Inv(d)
  {
    hide Inverse;
    HistoryFrame(c, d);
  }

  /** A step that only changes the connection state and reports on the connection attempt. */
  ghost predicate Quiet(c: Conn, d: Conn, items: seq<Item>) {
    && ProtoOk(d) && d.state != Shutdown && d.state != EndOfStream
    && d == c.(state := d.state, proto := d.proto, queue := d.queue) && d.queue == c.queue + items
  }

  function Connections(c: Conn, conn: Connect): seq<Item> {
    if c.state.Connecting? && !conn.Undecided? then [Connection(conn.Connected?)] else []
  }

  lemma AttemptIsQuiet(c: Conn, conn: Connect)
    requires ProtoOk(c) && c.state == Connecting
    ensures Quiet(c, Attempted(c, conn), Connections(c, conn))
  {
    assert c.queue + [] == c.queue;
  }

  lemma ListeningIsQuiet(c: Conn, inp: Input)
    requires ProtoOk(c) && c.state == Listen
    ensures Quiet(c, Listened(c, inp), [])
  {
    assert c.queue + [] == c.queue;
  }

  lemma WaitingIsQuiet(c: Conn, timer: bool)
    requires ProtoOk(c) && c.state == Waiting
    ensures Quiet(c, Waited(c, timer), [])
  {
    assert c.queue + [] == c.queue;
  }

  lemma BeginningIsQuiet(c: Conn)
    requires ProtoOk(c) && c.state == Unconnected
    ensures Quiet(c, c.(state := Connecting), [])
  {
    assert c.queue + [] == c.queue;
  }

  lemma StepIs(c: Conn, conn: Connect, timer: bool, inp: Input)
    requires Ready(c) && ProtoOk(c) && Answerable(c, inp)
    ensures c.state == ConnInit ==> c.proto.Some?
    ensures var d := ConnStep(c, conn, timer, inp);
            match c.state
            case PeerReady => d == PeerInput(RequestChannels(c), inp)
            case ConnInit => d == Introduced(c)
            case Shutdown => d == c
            case EndOfStream => d == c
            case _ => Quiet(c, d, Connections(c, conn))
  {
    hide PeerInput;
    hide RequestChannels;
    hide InitCids;
    hide Attempted;
    hide Listened;
    hide Waited;
    hide Quiet;
    match c.state
    case Unconnected => BeginningIsQuiet(c);
    case Connecting => AttemptIsQuiet(c, conn);
    case Listen => ListeningIsQuiet(c, inp);
    case Waiting => WaitingIsQuiet(c, timer);
    case _ =>
  }

  lemma StepKeeps(c: Conn, conn: Connect, timer: bool, inp: Input)
    requires Inv(c) && Defined(c) && Answerable(c, inp)
    ensures Inv(ConnStep(c, conn, timer, inp))
  {
    hide *;
    InvParts(c);
    StepIs(c, conn, timer, inp);
    match c.state {
      case PeerReady =>
        PeerKeeps(c, inp);
      case ConnInit =>
        IntroducedKeeps(c);
      case Shutdown =>
      case EndOfStream =>
      case _ =>
        QuietKeeps(c, ConnStep(c, conn, timer, inp), Connections(c, conn));
    }
  }

  lemma QuietKeeps(c: Conn, d: Conn, items: seq<Item>)
    requires Inv(c) && Quiet(c, d, items)
    requires c.state != PeerReady && c.state != Shutdown && c.state != EndOfStream
    ensures Inv(d)
  {
    hide Inv;
    StateKeeps(c, d);
  }

  lemma IntroducedKeeps(c: Conn)
    requires Inv(c) && c.state == ConnInit && c.proto.Some?
    ensures Inv(Introduced(c))
  {
    hide Inv;
    var rs := [ConnLifecycle.Version, ClientName, HostName];
    PingKeeps(c, rs);
    PushShape(c, rs);
    StateKeeps(PushOut(c, rs), PushOut(c, rs).(state := Listen));
  }

  lemma PushShape(c: Conn, rs: seq<Request>)
    requires c.proto.Some? && c.state == ConnInit
    ensures var d := PushOut(c, rs); d.state == c.state && ProtoOk(d.(state := Listen))
  {
  }

  lemma FinishKeeps(c: Conn)
    requires Inv(c) && c.state == Shutdown
    ensures Inv(c.(state := EndOfStream))
  {
    hide Inverse;
    HistoryFrame(c, c.(state := EndOfStream));
  }

  lemma FlushKeeps(c: Conn)
    requires Inv(c) && c.infoQueue != []
    ensures Inv(c.(infoQueue := c.infoQueue[1..]))
  {
    hide Inverse;
    HistoryFrame(c, c.(infoQueue := c.infoQueue[1..]));
  }

  lemma ApplyIs(c: Conn, s: Step)
    requires Defined(c) && Can(c, s)
    ensures Ready(c) && LookupReady(c)
    ensures s.Poll? ==> Answerable(c, s.inp)
    ensures s.FlushQuery? ==> c.infoQueue != []
    ensures s.Finish? ==> c.state == Shutdown
    ensures match s
            case Add(name, cssid) => Apply(c, s) == ChannelAdd(c, name, cssid)
            case Remove(name) => Apply(c, s) == ChannelRemove(c, name)
            case Health(due, overdue) => Apply(c, s) == CheckHealth(c, due, overdue)
            case ShutDown(reason) => Apply(c, s) == TriggerShutdown(c, reason)
            case Lookup(res) => Apply(c, s) == SeriesLookup(c, res)
            case Poll(conn, timer, inp) => Apply(c, s) == ConnStep(c, conn, timer, inp)
            case FlushQuery => Apply(c, s) == c.(infoQueue := c.infoQueue[1..])
            case Finish => Apply(c, s) == c.(state := EndOfStream)
  {
    hide ChannelAdd;
    hide ChannelRemove;
    hide CheckHealth;
    hide TriggerShutdown;
    hide SeriesLookup;
    hide ConnStep;
  }

  lemma ApplyKeeps(c: Conn, s: Step)
    requires Inv(c) && Defined(c) && Can(c, s)
    ensures Inv(Apply(c, s))
    ensures (c.state.Shutdown? || c.state.EndOfStream?) ==>
              (Apply(c, s).state == c.state || Apply(c, s).state.EndOfStream?)
  {
    hide *;
    ApplyIs(c, s);
    StaysOver(c, s);
    match s {
      case Add(name, cssid) => AddKeeps(c, name, cssid);
      case Remove(name) => RemoveKeeps(c, name);
      case Health(due, overdue) => HealthKeeps(c, due, overdue);
      case ShutDown(reason) =>
        ShutdownParts(c);
        ShutdownKeeps(c, reason);
      case Lookup(res) => LookupKeeps(c, res);
      case Poll(conn, timer, inp) => StepKeeps(c, conn, timer, inp);
      case FlushQuery => FlushKeeps(c);
      case Finish => FinishKeeps(c);
    }
  }

  lemma ShutdownParts(c: Conn)
    requires Inv(c)
    ensures ChannelsOk(c.channels, c.state) && NamesOk(c) && CountOk(c) && PastOk(c)
  {
    InvParts(c);
    PastFrom(c);
  }

  /** The end of a connection is not left, except from Shutdown to the end of the stream. */
  lemma StaysOver(c: Conn, s: Step)
    requires Defined(c) && Can(c, s)
    ensures (c.state.Shutdown? || c.state.EndOfStream?) ==>
              (Apply(c, s).state == c.state || Apply(c, s).state.EndOfStream?)
  {
    hide SortedKeys;
    hide InitCids;
    hide CreatedCids;
    hide PeerInput;
    hide RequestChannels;
  }
}
