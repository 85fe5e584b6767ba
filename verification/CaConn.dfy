/**
 The connection as an object whose fields the handlers update step by step
 (netfetch/src/ca/conn.rs). Every handler is proved to do what `ConnLifecycle` says.
 */
module CaConnection {
  import opened Wrappers
  import opened OrderedMaps
  import opened ConnLifecycle

  class CaConn {
    var state: ConnState
    var proto: Option<seq<Request>>
    var cidNext: nat
    var subidNext: nat
    var channels: map<Cid, ChannelState>
    var initStateCount: nat
    var cidByName: map<Name, Cid>
    var cidBySubid: map<nat, Cid>
    var nameByCid: map<Cid, Name>
    var queue: seq<Item>
    var infoQueue: seq<Name>
    var pinging: bool
    ghost var log: seq<Request>
    ghost var granted: map<Cid, Granted>

    ghost function Abs(): Conn
      reads this
    {
      Conn(state, proto, cidNext, subidNext, channels, initStateCount, cidByName, cidBySubid, nameByCid,
           queue, infoQueue, pinging, log, granted)
    }

    constructor ()
      ensures Abs() == ConnLifecycle.New()
    {
      state, proto := Unconnected, None;
      cidNext, subidNext, initStateCount := 0, 0, 0;
      channels, cidByName, cidBySubid, nameByCid := map[], map[], map[], map[];
      queue, infoQueue, pinging := [], [], false;
      log, granted := [], map[];
    }

    // ---- commands ----

    method CidByName(name: Name) returns (cid: Cid)
      modifies this`cidNext, this`cidByName, this`nameByCid
      ensures (Abs(), cid) == CidFor(old(Abs()), name)
    {
      if name in cidByName {
        cid := cidByName[name];
      } else {
        cidNext := cidNext + 1;
        cid := cidNext;
        cidByName := cidByName[name := cid];
        nameByCid := nameByCid[cid := name];
      }
    }

    method ChannelAdd(name: Name, cssid: nat)
      modifies this
      ensures Abs() == ConnLifecycle.ChannelAdd(old(Abs()), name, cssid)
    {
      if name in cidByName {
        return;
      }
      var cid := CidByName(name);
      if cid !in channels {
        channels := channels[cid := Init(cssid)];
        initStateCount := initStateCount + 1;
      }
    }

    method RemoveNames(cid: Cid)
      modifies this`cidByName
      ensures cidByName == map n | n in old(cidByName) && old(cidByName)[n] != cid :: old(cidByName)[n]
    {
      ghost var was := cidByName;
      var names := set n | n in cidByName && cidByName[n] == cid;
      while names != {}
        invariant forall n :: n in names ==> n in was && was[n] == cid
        invariant cidByName == map n | n in was && (was[n] != cid || n in names) :: was[n]
      {
        var n :| n in names;
        cidByName := cidByName - {n};
        names := names - {n};
      }
    }

    method ChannelRemove(name: Name)
      modifies this
      ensures Abs() == ConnLifecycle.ChannelRemove(old(Abs()), name)
    {
      var cid := CidByName(name);
      RemoveNames(cid);
      channels := channels - {cid};
      nameByCid := nameByCid - {cid};
      assert cidByName == ConnLifecycle.ChannelRemove(old(Abs()), name).cidByName;
    }

    // ---- shutdown ----

    method ChannelStateOnShutdown(reason: Reason)
      modifies this`channels, this`queue
      ensures channels == AllEnded(old(channels))
      ensures queue == old(queue) + ClosedItems(old(channels), SortedKeys(CreatedCids(old(channels))), reason)
    {
      hide *;
      ghost var chs := channels;
      var keys := SortedKeys(channels.Keys);
      EndNone(chs, keys, reason);
      for i := 0 to |keys|
        invariant channels == EndedUpTo(chs, keys[..i])
        invariant queue == old(queue) + ClosedUpTo(chs, keys[..i], reason)
      {
        EndStep(chs, keys, i);
        CloseStep(chs, keys, i, reason);
        var cid := keys[i];
        match channels[cid] {
          case Created(series, _) =>
            queue := queue + [Closed(series, reason)];
            channels := channels[cid := Ended];
          case Ended =>
          case _ =>
            channels := channels[cid := Ended];
        }
      }
      EndAll(chs, keys, reason);
    }

    method TriggerShutdown(reason: Reason)
      modifies this
      ensures Abs() == ConnLifecycle.TriggerShutdown(old(Abs()), reason)
    {
      hide SortedKeys;
      state := Shutdown;
      proto := None;
      ChannelStateOnShutdown(reason);
    }

    // ---- pushing to the protocol ----

    method PushOut(r: Request)
      requires proto.Some?
      modifies this`proto, this`log
      ensures proto.Some? && Abs() == ConnLifecycle.PushOut(old(Abs()), [r])
    {
      proto := Some(proto.value + [r]);
      log := log + [r];
    }

    method CheckChannelsAlive(pingDue: bool, pongOverdue: bool)
      modifies this
      ensures Abs() == CheckHealth(old(Abs()), pingDue, pongOverdue)
    {
      hide ConnLifecycle.TriggerShutdown;
      if pingDue {
        if pinging {
          if pongOverdue {
            TriggerShutdown(IocTimeout);
          }
        } else {
          pinging := true;
          if proto.Some? {
            PushOut(Echo);
          } else {
            TriggerShutdown(NoProtocol);
          }
        }
      }
    }

    // ---- channels ----

    /** Collects a request for every channel that is in Init. No work is needed when the count of
        such channels is zero, which is right because it is never below their number. */
    method CheckChannelsStateInit() returns (msgs: seq<Request>)
      requires forall cid :: cid in InitCids(channels) ==> cid in nameByCid
      requires |InitCids(channels)| <= initStateCount
      modifies this`channels, this`initStateCount
      ensures channels == AllCreating(old(channels))
      ensures initStateCount == old(initStateCount) - |InitCids(old(channels))|
      ensures msgs == CreateRequests(SortedKeys(InitCids(old(channels))), nameByCid)
    {
      hide *;
      ghost var chs, names := channels, nameByCid;
      msgs := [];
      if initStateCount == 0 {
        NoneInInit(chs, names);
        return;
      }
      var keys := SortedKeys(channels.Keys);
      CreateNone(chs, keys, names);
      for i := 0 to |keys|
        invariant channels == CreatingUpTo(chs, keys[..i])
        invariant initStateCount == old(initStateCount) - |Picked(keys[..i], InitCids(chs))|
        invariant msgs == RequestsUpTo(chs, keys[..i], names)
      {
        CreateStep(chs, keys, i);
        CountStep(chs, keys, i);
        RequestStep(chs, keys, i, names);
        var cid := keys[i];
        match channels[cid] {
          case Init(cssid) =>
            msgs := msgs + [CreateChan(cid, nameByCid[cid])];
            channels := channels[cid := Creating(cssid, cid)];
            initStateCount := initStateCount - 1;
          case _ =>
        }
      }
      CreateAll(chs, keys, names);
    }

    method RequestChannels()
      requires proto.Some?
      requires forall cid :: cid in InitCids(channels) ==> cid in nameByCid
      requires |InitCids(channels)| <= initStateCount
      modifies this
      ensures Abs() == ConnLifecycle.RequestChannels(old(Abs()))
    {
      hide SortedKeys;
      hide AllCreating;
      hide CreateRequests;
      var msgs := CheckChannelsStateInit();
      ghost var c := Abs();
      PushNothing(c);
      assert msgs[..0] == [];
      for i := 0 to |msgs|
        invariant proto.Some?
        invariant Abs() == ConnLifecycle.PushOut(c, msgs[..i])
      {
        assert msgs[..i + 1] == msgs[..i] + [msgs[i]];
        PushTwice(c, msgs[..i], [msgs[i]]);
        PushOut(msgs[i]);
      }
      assert msgs[..|msgs|] == msgs;
    }

    /** `CreateChanRes` for a channel: its series must be looked up now. */
    method HandleCreateChanRes(cid: Cid, sid: nat, dataType: nat, dataCount: nat)
      requires cid in channels && cid in nameByCid
      modifies this
      ensures Abs() == ChannelCreated(old(Abs()), cid, sid, dataType, dataCount)
    {
      match channels[cid] {
        case Creating(cssid, _) =>
          channels := channels[cid :=
              FetchingSeriesId(CreatedState(cssid, cid, sid, dataType, dataCount, FetchSeriesId))];
          granted := granted[cid := Granted(sid, dataType, dataCount)];
          infoQueue := infoQueue + [nameByCid[cid]];
        case _ =>
      }
    }

    method ChannelToEvented(st: CreatedState, series: Series)
      requires proto.Some? && st.cid in channels && st.cid in nameByCid
      modifies this
      ensures Abs() == ConnLifecycle.ChannelToEvented(old(Abs()), st, series)
    {
      subidNext := subidNext + 1;
      cidBySubid := cidBySubid[subidNext := st.cid];
      PushOut(EventAdd(st.sid, st.dataType + 14, st.dataCount, subidNext));
      match channels[st.cid] {
        case FetchingSeriesId(st2) =>
          var created := CreatedState(st2.cssid, st.cid, st.sid, st.dataType, st.dataCount, AddingEvent(series));
          channels := channels[st.cid := Created(series, created)];
        case _ =>
      }
    }

    /** `handle_series_lookup_result`. The lifecycle invariant makes the unwraps safe. */
    method HandleSeriesLookupResult(res: Option<(Name, Series)>)
      requires Defined(Abs())
      modifies this
      ensures Abs() == SeriesLookup(old(Abs()), res)
    {
      hide ConnLifecycle.ChannelToEvented;
      if res.Some? {
        var (name, series) := res.value;
        queue := queue + [Opened(series)];
        if name in cidByName && cidByName[name] in channels {
          match channels[cidByName[name]] {
            case FetchingSeriesId(st2) => ChannelToEvented(st2, series);
            case _ =>
          }
        }
      }
    }

    /** The state part of `handle_event_add_res`; `fails` is its error "no series id on insert". */
    method HandleEventAddRes(subid: nat) returns (fails: bool)
      requires subid in cidBySubid && cidBySubid[subid] in channels
      modifies this`channels
      ensures (Abs(), fails) == EventArrived(old(Abs()), subid)
    {
      var cid := cidBySubid[subid];
      fails := false;
      match channels[cid] {
        case Created(series, st) =>
          match st.state {
            case AddingEvent(s) => channels := channels[cid := Created(series, st.(state := Evented(s)))];
            case Evented(s) => assert channels == channels[cid := Created(series, st)];
            case FetchSeriesId => fails := true;
          }
        case _ =>
      }
    }

    // ---- the connection state machine ----

    method HandlePeerInput(inp: Input)
      requires inp.CreateChanRes? ==> inp.newCid in channels && inp.newCid in nameByCid
      requires inp.EventAddRes? ==> inp.evSubid in cidBySubid && cidBySubid[inp.evSubid] in channels
      modifies this
      ensures Abs() == PeerInput(old(Abs()), inp)
    {
      hide ConnLifecycle.TriggerShutdown;
      hide ChannelCreated;
      hide EventArrived;
      match inp {
        case CreateChanRes(cid, sid, dataType, dataCount, known) =>
          if known {
            HandleCreateChanRes(cid, sid, dataType, dataCount);
          }
        case EventAddRes(subid) => var _ := HandleEventAddRes(subid);
        case EchoReply => pinging := false;
        case ProtoError => TriggerShutdown(ProtocolError);
        case ProtoDone => TriggerShutdown(ProtocolDone);
        case _ =>
      }
    }

    method HandleConnListen(inp: Input)
      modifies this`state, this`proto
      ensures Abs() == Listened(old(Abs()), inp)
    {
      match inp {
        case VersionRes(n) =>
          if 12 <= n <= 13 {
            state := PeerReady;
          }
        case ProtoDone =>
          state := Waiting;
          proto := None;
        case _ =>
      }
    }

    /** The attempt to connect. */
    method HandleConnecting(conn: Connect)
      modifies this`state, this`proto, this`queue
      ensures Abs() == Attempted(old(Abs()), conn)
    {
      match conn {
        case Connected =>
          queue := queue + [Connection(true)];
          state := ConnInit;
          proto := Some([]);
        case Failed =>
          queue := queue + [Connection(false)];
          state := Waiting;
          proto := None;
        case Undecided =>
      }
    }

    method Introduce()
      requires proto.Some?
      modifies this
      ensures Abs() == Introduced(old(Abs()))
    {
      hide ConnLifecycle.PushOut;
      ghost var c := Abs();
      PushOut(Version);
      PushTwice(c, [Version], [ClientName]);
      PushOut(ClientName);
      PushTwice(c, [Version] + [ClientName], [HostName]);
      PushOut(HostName);
      assert [Version] + [ClientName] + [HostName] == [Version, ClientName, HostName];
      state := Listen;
    }

    method HandleConnState(conn: Connect, timer: bool, inp: Input)
      requires Ready(Abs()) && Answerable(Abs(), inp)
      modifies this
      ensures Abs() == ConnStep(old(Abs()), conn, timer, inp)
    {
      hide Introduced;
      hide Attempted;
      hide Listened;
      hide ConnLifecycle.RequestChannels;
      hide PeerInput;
      hide InitCids;
      match state {
        case Unconnected => state := Connecting;
        case Connecting => HandleConnecting(conn);
        case ConnInit => Introduce();
        case Listen => HandleConnListen(inp);
        case PeerReady =>
          RequestsKeepKeys(Abs());
          RequestChannels();
          HandlePeerInput(inp);
        case Waiting =>
          if timer {
            state := Unconnected;
            proto := None;
          }
        case Shutdown =>
        case EndOfStream =>
      }
    }

    /** Any step at all. */
    method Take(s: Step)
      requires Defined(Abs()) && Can(Abs(), s)
      modifies this
      ensures Abs() == Apply(old(Abs()), s)
    {
      match s {
        case Add(name, cssid) => ChannelAdd(name, cssid);
        case Remove(name) => ChannelRemove(name);
        case Health(due, overdue) => CheckChannelsAlive(due, overdue);
        case ShutDown(reason) => TriggerShutdown(reason);
        case Lookup(res) => HandleSeriesLookupResult(res);
        case Poll(conn, timer, inp) => HandleConnState(conn, timer, inp);
        case FlushQuery => infoQueue := infoQueue[1..];
        case Finish => state := EndOfStream;
      }
    }
  }

  lemma RequestsKeepKeys(c: Conn)
    requires Ready(c) && c.state == PeerReady
    ensures c.proto.Some? && (forall cid :: cid in InitCids(c.channels) ==> cid in c.nameByCid)
            && |InitCids(c.channels)| <= c.initStateCount
    ensures var d := ConnLifecycle.RequestChannels(c);
            d.channels.Keys == c.channels.Keys && d.nameByCid == c.nameByCid && d.cidBySubid == c.cidBySubid
  {
    hide SortedKeys;
  }

  lemma PushNothing(c: Conn)
    requires c.proto.Some?
    ensures ConnLifecycle.PushOut(c, []) == c
  {
    assert c.proto.value + [] == c.proto.value && c.log + [] == c.log;
  }

  lemma PushTwice(c: Conn, rs: seq<Request>, ts: seq<Request>)
    requires c.proto.Some?
    ensures ConnLifecycle.PushOut(ConnLifecycle.PushOut(c, rs), ts) == ConnLifecycle.PushOut(c, rs + ts)
  {
    assert (c.proto.value + rs) + ts == c.proto.value + (rs + ts) && (c.log + rs) + ts == c.log + (rs + ts);
  }

  // ---- the loops over all channels: what is done after some of the keys ----

  function EndedUpTo(channels: map<Cid, ChannelState>, done: seq<Cid>): map<Cid, ChannelState> {
    map cid | cid in channels :: if cid in done then Ended else channels[cid]
  }

  function ClosedUpTo(channels: map<Cid, ChannelState>, done: seq<Cid>, reason: Reason): seq<Item> {
    ClosedItems(channels, Picked(done, CreatedCids(channels)), reason)
  }

  lemma EndNone(channels: map<Cid, ChannelState>, keys: seq<Cid>, reason: Reason)
    ensures EndedUpTo(channels, keys[..0]) == channels
    ensures ClosedUpTo(channels, keys[..0], reason) == [] && Picked(keys[..0], CreatedCids(channels)) == []
  {
  }

  lemma EndStep(channels: map<Cid, ChannelState>, keys: seq<Cid>, i: nat)
    requires keys == SortedKeys(channels.Keys) && i < |keys|
    ensures keys[i] in EndedUpTo(channels, keys[..i]) && EndedUpTo(channels, keys[..i])[keys[i]] == channels[keys[i]]
    ensures EndedUpTo(channels, keys[..i + 1]) == EndedUpTo(channels, keys[..i])[keys[i] := Ended]
    ensures channels[keys[i]].Ended? ==> EndedUpTo(channels, keys[..i + 1]) == EndedUpTo(channels, keys[..i])
  {
    hide SortedKeys;
    hide EndedUpTo;
    assert keys[i] !in keys[..i];
    forall cid | cid in channels
      ensures cid in keys[..i + 1] <==> cid in keys[..i] || cid == keys[i]
    {
      assert keys[..i + 1] == keys[..i] + [keys[i]];
    }
    EndedPut(channels, keys[..i], keys[i], keys[..i + 1]);
  }

  lemma EndedPut(channels: map<Cid, ChannelState>, done: seq<Cid>, cid: Cid, more: seq<Cid>)
    requires cid in channels && cid !in done
    requires forall c :: c in channels ==> (c in more <==> c in done || c == cid)
    ensures cid in EndedUpTo(channels, done) && EndedUpTo(channels, done)[cid] == channels[cid]
    ensures EndedUpTo(channels, more) == EndedUpTo(channels, done)[cid := Ended]
    ensures channels[cid].Ended? ==> EndedUpTo(channels, more) == EndedUpTo(channels, done)
  {
  }

  lemma CloseStep(channels: map<Cid, ChannelState>, keys: seq<Cid>, i: nat, reason: Reason)
    requires i < |keys| && keys[i] in channels
    ensures Picked(keys[..i + 1], CreatedCids(channels))
         == Picked(keys[..i], CreatedCids(channels)) + if channels[keys[i]].Created? then [keys[i]] else []
    ensures ClosedUpTo(channels, keys[..i + 1], reason)
         == ClosedUpTo(channels, keys[..i], reason)
             + if channels[keys[i]].Created? then [Closed(channels[keys[i]].series, reason)] else []
  {
    hide Picked;
    PickedSnoc(keys, i, CreatedCids(channels));
  }

  lemma EndAll(channels: map<Cid, ChannelState>, keys: seq<Cid>, reason: Reason)
    requires keys == SortedKeys(channels.Keys)
    ensures EndedUpTo(channels, keys[..|keys|]) == AllEnded(channels)
    ensures Picked(keys[..|keys|], CreatedCids(channels)) == SortedKeys(CreatedCids(channels))
    ensures ClosedUpTo(channels, keys[..|keys|], reason)
         == ClosedItems(channels, SortedKeys(CreatedCids(channels)), reason)
  {
    hide SortedKeys;
    hide Picked;
    assert keys[..|keys|] == keys;
    PickedIsSorted(channels.Keys, CreatedCids(channels));
  }

  function CreatingUpTo(channels: map<Cid, ChannelState>, done: seq<Cid>): map<Cid, ChannelState> {
    map cid | cid in channels ::
      if cid in done && channels[cid].Init? then Creating(channels[cid].cssid, cid) else channels[cid]
  }

  function RequestsUpTo(channels: map<Cid, ChannelState>, done: seq<Cid>, names: map<Cid, Name>): seq<Request>
    requires forall cid :: cid in InitCids(channels) ==> cid in names
  {
    CreateRequests(Picked(done, InitCids(channels)), names)
  }

  lemma CreateNone(channels: map<Cid, ChannelState>, keys: seq<Cid>, names: map<Cid, Name>)
    requires forall cid :: cid in InitCids(channels) ==> cid in names
    ensures CreatingUpTo(channels, keys[..0]) == channels
    ensures RequestsUpTo(channels, keys[..0], names) == [] && Picked(keys[..0], InitCids(channels)) == []
  {
  }

  lemma CreateStep(channels: map<Cid, ChannelState>, keys: seq<Cid>, i: nat)
    requires keys == SortedKeys(channels.Keys) && i < |keys|
    ensures keys[i] in CreatingUpTo(channels, keys[..i])
            && CreatingUpTo(channels, keys[..i])[keys[i]] == channels[keys[i]]
    ensures CreatingUpTo(channels, keys[..i + 1])
         == if channels[keys[i]].Init? then
             CreatingUpTo(channels, keys[..i])[keys[i] := Creating(channels[keys[i]].cssid, keys[i])]
            else CreatingUpTo(channels, keys[..i])
  {
    hide SortedKeys;
    hide CreatingUpTo;
    assert keys[i] !in keys[..i];
    forall cid | cid in channels
      ensures cid in keys[..i + 1] <==> cid in keys[..i] || cid == keys[i]
    {
      assert keys[..i + 1] == keys[..i] + [keys[i]];
    }
    CreatingPut(channels, keys[..i], keys[i], keys[..i + 1]);
  }

  lemma CreatingPut(channels: map<Cid, ChannelState>, done: seq<Cid>, cid: Cid, more: seq<Cid>)
    requires cid in channels && cid !in done
    requires forall c :: c in channels ==> (c in more <==> c in done || c == cid)
    ensures cid in CreatingUpTo(channels, done) && CreatingUpTo(channels, done)[cid] == channels[cid]
    ensures CreatingUpTo(channels, more)
         == if channels[cid].Init? then CreatingUpTo(channels, done)[cid := Creating(channels[cid].cssid, cid)]
            else CreatingUpTo(channels, done)
  {
  }

  lemma CountStep(channels: map<Cid, ChannelState>, keys: seq<Cid>, i: nat)
    requires keys == SortedKeys(channels.Keys) && i < |keys|
    ensures Picked(keys[..i + 1], InitCids(channels))
         == Picked(keys[..i], InitCids(channels)) + if channels[keys[i]].Init? then [keys[i]] else []
    ensures |Picked(keys[..i + 1], InitCids(channels))| <= |InitCids(channels)|
  {
    hide SortedKeys;
    hide Picked;
    PickedSnoc(keys, i, InitCids(channels));
    PickedIsFewer(keys, i + 1, InitCids(channels));
    PickedIsSorted(channels.Keys, InitCids(channels));
  }

  lemma RequestStep(channels: map<Cid, ChannelState>, keys: seq<Cid>, i: nat, names: map<Cid, Name>)
    requires i < |keys| && keys[i] in channels
    requires forall cid :: cid in InitCids(channels) ==> cid in names
    ensures channels[keys[i]].Init? ==> keys[i] in names
    ensures RequestsUpTo(channels, keys[..i + 1], names)
         == RequestsUpTo(channels, keys[..i], names)
             + if channels[keys[i]].Init? then [CreateChan(keys[i], names[keys[i]])] else []
  {
    hide Picked;
    PickedSnoc(keys, i, InitCids(channels));
  }

  lemma CreateAll(channels: map<Cid, ChannelState>, keys: seq<Cid>, names: map<Cid, Name>)
    requires keys == SortedKeys(channels.Keys)
    requires forall cid :: cid in InitCids(channels) ==> cid in names
    ensures CreatingUpTo(channels, keys[..|keys|]) == AllCreating(channels)
    ensures |Picked(keys[..|keys|], InitCids(channels))| == |InitCids(channels)|
    ensures RequestsUpTo(channels, keys[..|keys|], names) == CreateRequests(SortedKeys(InitCids(channels)), names)
  {
    hide SortedKeys;
    hide Picked;
    hide CreateRequests;
    assert keys[..|keys|] == keys;
    PickedIsSorted(channels.Keys, InitCids(channels));
    hide InitCids;
    AllCreated(channels, keys);
  }

  lemma AllCreated(channels: map<Cid, ChannelState>, keys: seq<Cid>)
    requires forall cid :: cid in channels ==> cid in keys
    ensures CreatingUpTo(channels, keys) == AllCreating(channels)
  {
  }

  lemma {:induction false} PickedIsFewer(keys: seq<nat>, i: nat, sel: set<nat>)
    requires i <= |keys|
    ensures |Picked(keys[..i], sel)| <= |Picked(keys, sel)|
    decreases |keys| - i
  {
    hide Picked;
    if i == |keys| {
      assert keys[..i] == keys;
    } else {
      PickedSnoc(keys, i, sel);
      PickedIsFewer(keys, i + 1, sel);
    }
  }

  /** The shortcut for a count of zero. */
  lemma NoneInInit(channels: map<Cid, ChannelState>, names: map<Cid, Name>)
    requires |InitCids(channels)| == 0
    ensures AllCreating(channels) == channels && SortedKeys(InitCids(channels)) == [] && CreateRequests([], names) == []
  {
    assert InitCids(channels) == {};
    assert forall cid :: cid in channels && channels[cid].Init? ==> cid in InitCids(channels);
  }
}
