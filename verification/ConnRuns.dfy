/** Whole runs of a connection, from its creation, under any steps in any order. */
module ConnRuns {
  import opened Wrappers
  import opened OrderedMaps
  import opened ConnLifecycle
  import opened ConnInvariants

  /** The step is possible, and where it is defined (which is always, as `RunKeepsInv` shows) its
      result is the next state. */
  ghost predicate Follows(c: Conn, s: Step, d: Conn) {
    Can(c, s) && (Defined(c) ==> d == Apply(c, s))
  }

  ghost predicate IsRun(conns: seq<Conn>, steps: seq<Step>) {
    && |conns| == |steps| + 1 && conns[0] == ConnLifecycle.New()
    && forall i :: 0 <= i < |steps| ==> Follows(conns[i], steps[i], conns[i + 1])
  }

  /** In every reachable state the connection state, the channels, the id maps and what was sent
      fit together, and every look-up that the source unwraps succeeds. */
  lemma {:induction false} RunKeepsInv(conns: seq<Conn>, steps: seq<Step>, n: nat)
    requires IsRun(conns, steps) && n <= |steps|
    ensures Inv(conns[n]) && Defined(conns[n])
    ensures n < |steps| ==> Can(conns[n], steps[n]) && conns[n + 1] == Apply(conns[n], steps[n])
  {
    hide Apply;
    hide Can;
    if n == 0 {
      NewIsGood();
    } else {
      RunKeepsInv(conns, steps, n - 1);
      ApplyKeeps(conns[n - 1], steps[n - 1]);
    }
    InvIsDefined(conns[n]);
    if n < |steps| {
      assert Follows(conns[n], steps[n], conns[n + 1]);
    }
  }

  lemma RunSize(conns: seq<Conn>, steps: seq<Step>)
    requires IsRun(conns, steps)
    ensures |conns| == |steps| + 1
  {
  }

  predicate IsOver(c: Conn) {
    c.state.Shutdown? || c.state.EndOfStream?
  }

  /** Shutdown is left only for the end of the stream, and the end of the stream never. */
  lemma {:induction false} ShutdownIsFinal(conns: seq<Conn>, steps: seq<Step>, i: nat, j: nat)
    requires IsRun(conns, steps) && i <= j <= |steps| && IsOver(conns[i])
    ensures IsOver(conns[j]) && conns[j].proto.None?
    ensures conns[i].state.EndOfStream? ==> conns[j].state.EndOfStream?
    ensures forall cid :: cid in conns[j].channels ==> conns[j].channels[cid].Ended? || conns[j].channels[cid].Init?
  {
    hide *;
    RunSize(conns, steps);
    RunKeepsInv(conns, steps, j);
    if j > i {
      ShutdownIsFinal(conns, steps, i, j - 1);
      RunKeepsInv(conns, steps, j - 1);
      OverStays(conns[j - 1], steps[j - 1]);
    }
    OverShape(conns[j]);
  }

  lemma OverStays(c: Conn, s: Step)
    requires Inv(c) && Defined(c) && Can(c, s) && IsOver(c)
    ensures IsOver(Apply(c, s)) && (c.state.EndOfStream? ==> Apply(c, s).state.EndOfStream?)
  {
    hide Apply;
    hide Inv;
    hide Can;
    hide Defined;
    ApplyKeeps(c, s);
    if c.state.EndOfStream? {
      OverStaysOver(c, s);
    }
  }

  lemma OverShape(c: Conn)
    requires Inv(c) && IsOver(c)
    ensures c.proto.None? && forall cid :: cid in c.channels ==> c.channels[cid].Ended? || c.channels[cid].Init?
  {
    hide Inverse;
    assert forall cid :: cid in c.channels ==> ChannelOk(cid, c.channels[cid], c.state);
  }

  lemma OverStaysOver(c: Conn, s: Step)
    requires Inv(c) && Defined(c) && Can(c, s) && c.state.EndOfStream?
    ensures Apply(c, s).state.EndOfStream?
  {
  }

  /** The cid that a request is about. */
  ghost function About(c: Conn, r: Request): Option<Cid> {
    match r
    case CreateChan(cid, _) => Some(cid)
    case EventAdd(_, _, _, subid) => if subid in c.cidBySubid then Some(c.cidBySubid[subid]) else None
    case _ => None
  }

  /** In this step the server says that it created the channel. */
  predicate GrantedBy(s: Step, cid: Cid, g: Granted) {
    s.Poll? && s.inp == CreateChanRes(cid, g.sid, g.dataType, g.dataCount, true)
  }

  /** In this step the server says that it created the channel, with the server id and the count of
      the request, and in the plain form of its type. */
  predicate Answers(s: Step, cid: Cid, r: Request) {
    r.EventAdd? && r.dataType >= 14 && GrantedBy(s, cid, Granted(r.sid, r.dataType - 14, r.dataCount))
  }

  /** Over any run, each channel is requested at most once, under its name, and its events at most
      once: after the channel, and with the server id, the type and the count that came back. */
  lemma RequestedOnce(conns: seq<Conn>, steps: seq<Step>, n: nat, cid: Cid)
    requires IsRun(conns, steps) && n <= |steps|
    ensures var c := conns[n];
            && (forall i, j | 0 <= i < |c.log| && 0 <= j < |c.log| && i != j ::
                  About(c, c.log[i]) == Some(cid) == About(c, c.log[j]) ==> c.log[i].EventAdd? != c.log[j].EventAdd?)
            && (forall i :: 0 <= i < |c.log| && c.log[i].CreateChan? && c.log[i].cid == cid && cid in c.nameByCid ==>
                  c.log[i].channel == c.nameByCid[cid])
            && (forall j :: 0 <= j < |c.log| && c.log[j].EventAdd? && About(c, c.log[j]) == Some(cid) ==>
                  && (exists k :: 0 <= k < n && Answers(steps[k], cid, c.log[j]))
                  && exists i :: 0 <= i < j && c.log[i].CreateChan? && About(c, c.log[i]) == Some(cid))
  {
    RunKeepsInv(conns, steps, n);
    var c := conns[n];
    InvParts(c);
    hide Inv;
    hide IsRun;
    hide Defined;
    OnceInLog(c, cid);
    hide CreatesOk;
    hide SubidsOk;
    hide EventsOk;
    forall j | 0 <= j < |c.log| && c.log[j].EventAdd? && About(c, c.log[j]) == Some(cid)
      ensures exists k :: 0 <= k < n && Answers(steps[k], cid, c.log[j])
    {
      var k := GrantedByStep(conns, steps, n, cid);
      assert Answers(steps[k], cid, c.log[j]);
    }
  }

  /** The same about the requests of one state. */
  lemma OnceInLog(c: Conn, cid: Cid)
    requires CreatesOk(c) && SubidsOk(c) && EventsOk(c)
    ensures forall i, j | 0 <= i < |c.log| && 0 <= j < |c.log| && i != j ::
              About(c, c.log[i]) == Some(cid) == About(c, c.log[j]) ==> c.log[i].EventAdd? != c.log[j].EventAdd?
    ensures forall i :: 0 <= i < |c.log| && c.log[i].CreateChan? && c.log[i].cid == cid && cid in c.nameByCid ==>
              c.log[i].channel == c.nameByCid[cid]
    ensures forall j :: 0 <= j < |c.log| && c.log[j].EventAdd? && About(c, c.log[j]) == Some(cid) ==>
              && cid in c.granted && AsksFor(c.log[j], c.granted[cid])
              && exists i :: 0 <= i < j && c.log[i].CreateChan? && About(c, c.log[i]) == Some(cid)
  {
    forall j | 0 <= j < |c.log| && c.log[j].EventAdd? && About(c, c.log[j]) == Some(cid)
      ensures cid in c.granted && AsksFor(c.log[j], c.granted[cid])
      ensures exists i :: 0 <= i < j && c.log[i].CreateChan? && About(c, c.log[i]) == Some(cid)
    {
      assert EventAddOk(c, j);
      var i :| 0 <= i < j && c.log[i].CreateChan? && c.log[i].cid == cid;
      assert About(c, c.log[i]) == Some(cid);
    }
  }

  lemma NothingGranted(conns: seq<Conn>, steps: seq<Step>)
    requires IsRun(conns, steps)
    ensures conns[0].granted == map[]
  {
  }

  lemma PollGrants(c: Conn, conn: Connect, timer: bool, inp: Input, cid: Cid)
    requires Inv(c) && Ready(c) && Answerable(c, inp)
    requires cid in ConnStep(c, conn, timer, inp).granted
    ensures var g := ConnStep(c, conn, timer, inp).granted[cid];
            inp == CreateChanRes(cid, g.sid, g.dataType, g.dataCount, true) || (cid in c.granted && g == c.granted[cid])
  {
    hide *;
    InvParts(c);
    StepIs(c, conn, timer, inp);
    var d := ConnStep(c, conn, timer, inp);
    match c.state {
      case PeerReady =>
        RequestsSameCreated(c);
        StillAnswerable(c, RequestChannels(c), inp);
        PeerGrants(RequestChannels(c), inp, cid);
      case ConnInit => IntroducedGrants(c);
      case Shutdown =>
      case EndOfStream =>
      case _ => QuietGrants(c, d, Connections(c, conn));
    }
  }

  lemma IntroducedGrants(c: Conn)
    requires c.proto.Some?
    ensures Introduced(c).granted == c.granted
  {
  }

  lemma QuietGrants(c: Conn, d: Conn, items: seq<Item>)
    requires Quiet(c, d, items)
    ensures d.granted == c.granted
  {
  }

  lemma PeerGrants(c: Conn, inp: Input, cid: Cid)
    requires inp.CreateChanRes? ==> inp.newCid in c.channels && inp.newCid in c.nameByCid
    requires inp.EventAddRes? ==> inp.evSubid in c.cidBySubid && c.cidBySubid[inp.evSubid] in c.channels
    requires cid in PeerInput(c, inp).granted
    ensures var g := PeerInput(c, inp).granted[cid];
            inp == CreateChanRes(cid, g.sid, g.dataType, g.dataCount, true) || (cid in c.granted && g == c.granted[cid])
  {
    hide SortedKeys;
  }

  lemma OtherGrants(c: Conn, s: Step)
    requires Defined(c) && Can(c, s) && !s.Poll?
    ensures Apply(c, s).granted == c.granted
  {
    hide ConnStep;
    hide SeriesLookup;
    hide CheckHealth;
    hide ChannelAdd;
    hide ChannelRemove;
    hide TriggerShutdown;
    match s {
      case Add(name, cssid) => AddGrants(c, name, cssid);
      case Remove(name) => RemoveShape(c, name);
      case Health(due, overdue) => HealthGrants(c, due, overdue);
      case ShutDown(reason) => ShutdownGrants(c, reason);
      case Lookup(res) => LookupGrants(c, res);
      case _ =>
    }
  }

  lemma AddGrants(c: Conn, name: Name, cssid: nat)
    ensures ChannelAdd(c, name, cssid).granted == c.granted
  {
  }

  lemma ShutdownGrants(c: Conn, reason: Reason)
    ensures TriggerShutdown(c, reason).granted == c.granted
  {
    hide SortedKeys;
  }

  lemma HealthGrants(c: Conn, due: bool, overdue: bool)
    ensures CheckHealth(c, due, overdue).granted == c.granted
  {
    hide SortedKeys;
  }

  lemma LookupGrants(c: Conn, res: Option<(Name, Series)>)
    requires LookupReady(c)
    ensures SeriesLookup(c, res).granted == c.granted
  {
  }

  /** What the server is known to have granted, it said in an answer. */
  lemma {:induction false} GrantedByStep(conns: seq<Conn>, steps: seq<Step>, n: nat, cid: Cid) returns (k: nat)
    requires IsRun(conns, steps) && n <= |steps| && cid in conns[n].granted
    ensures k < n && GrantedBy(steps[k], cid, conns[n].granted[cid])
  {
    hide *;
    RunSize(conns, steps);
    if n == 0 {
      NothingGranted(conns, steps);
      assert false;
    } else {
      RunKeepsInv(conns, steps, n - 1);
      StepGrants(conns[n - 1], steps[n - 1], cid);
      if GrantedBy(steps[n - 1], cid, conns[n].granted[cid]) {
        k := n - 1;
      } else {
        k := GrantedByStep(conns, steps, n - 1, cid);
      }
    }
  }

  lemma StepGrants(c: Conn, s: Step, cid: Cid)
    requires Inv(c) && Defined(c) && Can(c, s)
    requires cid in Apply(c, s).granted
    ensures GrantedBy(s, cid, Apply(c, s).granted[cid])
            || (cid in c.granted && Apply(c, s).granted[cid] == c.granted[cid])
  {
    hide Apply;
    hide Inv;
    hide Can;
    hide Defined;
    match s {
      case Poll(conn, timer, inp) =>
        PollApplies(c, conn, timer, inp);
        PollGrants(c, conn, timer, inp, cid);
      case _ => OtherGrants(c, s);
    }
  }

  lemma PollApplies(c: Conn, conn: Connect, timer: bool, inp: Input)
    requires Defined(c) && Can(c, Poll(conn, timer, inp))
    ensures Ready(c) && Answerable(c, inp)
    ensures Apply(c, Poll(conn, timer, inp)) == ConnStep(c, conn, timer, inp)
  {
    hide ConnStep;
  }

  /** Every event request of a run belongs to a channel. */
  lemma EventsBelong(conns: seq<Conn>, steps: seq<Step>, n: nat)
    requires IsRun(conns, steps) && n <= |steps|
    ensures var c := conns[n];
            && (forall j :: 0 <= j < |c.log| && c.log[j].EventAdd? ==> About(c, c.log[j]).Some?)
            && (forall s, t :: s in c.cidBySubid && t in c.cidBySubid && s != t ==> c.cidBySubid[s] != c.cidBySubid[t])
  {
    RunKeepsInv(conns, steps, n);
    var c := conns[n];
    assert SubidsOk(c);
    forall j | 0 <= j < |c.log| && c.log[j].EventAdd?
      ensures About(c, c.log[j]).Some?
    {
      assert EventAddOk(c, j);
    }
  }

  // ---- closed statuses ----

  /** The series that the Closed statuses are about, in order. */
  function ClosedIn(q: seq<Item>): seq<Series> {
    if q == [] then [] else (if q[0].Closed? then [q[0].series] else []) + ClosedIn(q[1..])
  }

  lemma {:induction false} ClosedInAppend(a: seq<Item>, b: seq<Item>)
    ensures ClosedIn(a + b) == ClosedIn(a) + ClosedIn(b)
  {
    if a == [] {
      assert a + b == b;
    } else {
      assert (a + b)[0] == a[0] && (a + b)[1..] == a[1..] + b;
      ClosedInAppend(a[1..], b);
    }
  }

  /** The series of the channels that are up, in the order of their cids. */
  function SeriesUp(channels: map<Cid, ChannelState>): seq<Series> {
    SeriesOf(channels, SortedKeys(CreatedCids(channels)))
  }

  function SeriesOf(channels: map<Cid, ChannelState>, cids: seq<Cid>): seq<Series>
    requires forall cid :: cid in cids ==> cid in channels && channels[cid].Created?
  {
    seq(|cids|, i requires 0 <= i < |cids| => channels[cids[i]].series)
  }

  lemma {:induction false} ClosedInAll(q: seq<Item>, series: seq<Series>)
    requires |q| == |series| && forall i :: 0 <= i < |q| ==> q[i].Closed? && q[i].series == series[i]
    ensures ClosedIn(q) == series
  {
    if q != [] {
      ClosedInAll(q[1..], series[1..]);
    }
  }

  /** What a step adds to the Closed statuses. */
  ghost predicate Grows(c: Conn, d: Conn, more: seq<Series>) {
    ClosedIn(d.queue) == ClosedIn(c.queue) + more
  }

  lemma ShutdownGrows(c: Conn, reason: Reason)
    ensures Grows(c, TriggerShutdown(c, reason), SeriesUp(c.channels))
  {
    hide SortedKeys;
    var cids := SortedKeys(CreatedCids(c.channels));
    var items := ClosedItems(c.channels, cids, reason);
    ClosedInAppend(c.queue, items);
    ClosedInAll(items, SeriesUp(c.channels));
  }

  lemma OtherGrows(c: Conn, d: Conn, items: seq<Item>)
    requires d.queue == c.queue + items && forall i :: 0 <= i < |items| ==> !items[i].Closed?
    ensures Grows(c, d, [])
  {
    ClosedInAppend(c.queue, items);
    NoneClosed(items);
    assert ClosedIn(c.queue) + [] == ClosedIn(c.queue);
  }

  lemma {:induction false} NoneClosed(q: seq<Item>)
    requires forall i :: 0 <= i < |q| ==> !q[i].Closed?
    ensures ClosedIn(q) == []
  {
    if q != [] {
      NoneClosed(q[1..]);
    }
  }

  /** The series that get a Closed status in a step: those of the channels that are up when the
      connection leaves for Shutdown. */
  function ClosedBy(c: Conn, d: Conn): seq<Series> {
    if !IsOver(c) && IsOver(d) then SeriesUp(c.channels) else []
  }

  lemma NoneUp(c: Conn)
    requires Inv(c) && !c.state.PeerReady?
    ensures CreatedCids(c.channels) == {}
  {
    hide Inverse;
    assert forall cid :: cid in c.channels ==> ChannelOk(cid, c.channels[cid], c.state);
  }

  lemma ShutdownStep(c: Conn, c': Conn, reason: Reason)
    requires Inv(c) && SeriesUp(c'.channels) == SeriesUp(c.channels) && c'.queue == c.queue
    ensures var d := TriggerShutdown(c', reason); Grows(c, d, ClosedBy(c, d))
  {
    hide SortedKeys;
    ShutdownGrows(c', reason);
    if IsOver(c) {
      NoneUp(c);
      assert SeriesUp(c.channels) == [];
    }
  }

  lemma SortedNothing()
    ensures SortedKeys({}) == []
  {
  }

  /** An input of the server ends the connection, or leaves everything but its channel alone. */
  lemma PeerInputShape(e: Conn, inp: Input)
    requires Answerable(e, inp) && e.channels.Keys == e.nameByCid.Keys
    ensures var d := PeerInput(e, inp);
            if inp.ProtoError? then d == TriggerShutdown(e, ProtocolError)
            else if inp.ProtoDone? then d == TriggerShutdown(e, ProtocolDone)
            else d == e.(channels := d.channels, infoQueue := d.infoQueue, granted := d.granted, pinging := d.pinging)
                 && d.channels.Keys == e.channels.Keys
  {
    match inp
    case CreateChanRes(cid, sid, dataType, dataCount, known) =>
    case EventAddRes(subid) =>
    case _ =>
  }

  lemma ShutdownIds(c: Conn, e: Conn, reason: Reason)
    requires e.cidNext == c.cidNext && e.subidNext == c.subidNext && e.cidBySubid == c.cidBySubid
             && e.channels.Keys == c.channels.Keys
    ensures IdsGrow(c, TriggerShutdown(e, reason))
  {
    hide SortedKeys;
  }

  lemma PeerGrows(c: Conn, inp: Input)
    requires Inv(c) && Ready(c) && c.state.PeerReady? && Answerable(c, inp)
    ensures RequestChannels(c).channels.Keys == c.channels.Keys == c.nameByCid.Keys
    ensures RequestChannels(c).cidBySubid == c.cidBySubid && RequestChannels(c).nameByCid == c.nameByCid
    ensures var d := PeerInput(RequestChannels(c), inp);
            Grows(c, d, ClosedBy(c, d)) && IdsGrow(c, d)
  {
    hide *;
    SortedNothing();
    RequestsSameCreated(c);
    StillAnswerable(c, RequestChannels(c), inp);
    var e := RequestChannels(c);
    PeerInputShape(e, inp);
    if inp.ProtoError? {
      ShutdownStep(c, e, ProtocolError);
      ShutdownIds(c, e, ProtocolError);
    } else if inp.ProtoDone? {
      ShutdownStep(c, e, ProtocolDone);
      ShutdownIds(c, e, ProtocolDone);
    } else {
      var d := PeerInput(e, inp);
      SameIds(c, d);
      assert c.queue + [] == c.queue;
      OtherGrows(c, d, []);
      SameOver(c, d);
      NothingClosed(c, d);
    }
  }

  lemma StillAnswerable(c: Conn, e: Conn, inp: Input)
    requires Ready(c) && c.state.PeerReady? && Answerable(c, inp)
    requires e.channels.Keys == c.channels.Keys && e.cidBySubid == c.cidBySubid && e.nameByCid == c.nameByCid
    ensures Answerable(e, inp) && e.channels.Keys == c.channels.Keys == e.nameByCid.Keys
    ensures inp.CreateChanRes? ==> inp.newCid in e.channels && inp.newCid in e.nameByCid
    ensures inp.EventAddRes? ==> inp.evSubid in e.cidBySubid && e.cidBySubid[inp.evSubid] in e.channels
  {
  }

  lemma SameOver(c: Conn, d: Conn)
    requires c.state == d.state
    ensures IsOver(c) == IsOver(d)
  {
  }

  lemma PollGrows(c: Conn, conn: Connect, timer: bool, inp: Input)
    requires Inv(c) && Ready(c) && Answerable(c, inp)
    ensures var d := ConnStep(c, conn, timer, inp);
            Grows(c, d, ClosedBy(c, d)) && IdsGrow(c, d)
  {
    hide *;
    InvParts(c);
    StepIs(c, conn, timer, inp);
    SortedNothing();
    match c.state {
      case PeerReady => PeerGrows(c, inp);
      case ConnInit => IntroducedGrows(c);
      case Shutdown => NothingGrows(c);
      case EndOfStream => NothingGrows(c);
      case _ =>
        var d := ConnStep(c, conn, timer, inp);
        QuietGrows(c, d, Connections(c, conn));
        NotClosed(c, conn);
        OtherGrows(c, d, Connections(c, conn));
    }
  }

  lemma IntroducedGrows(c: Conn)
    requires c.state == ConnInit && c.proto.Some?
    ensures Grows(c, Introduced(c), []) && IdsGrow(c, Introduced(c)) && ClosedBy(c, Introduced(c)) == []
  {
    assert ClosedIn(c.queue) + [] == ClosedIn(c.queue);
  }

  lemma NothingGrows(c: Conn)
    ensures Grows(c, c, []) && IdsGrow(c, c) && ClosedBy(c, c) == []
  {
    assert ClosedIn(c.queue) + [] == ClosedIn(c.queue);
  }

  lemma QuietGrows(c: Conn, d: Conn, items: seq<Item>)
    requires Quiet(c, d, items)
    ensures IdsGrow(c, d) && ClosedBy(c, d) == [] && d.queue == c.queue + items
  {
  }

  lemma NotClosed(c: Conn, conn: Connect)
    ensures forall i :: 0 <= i < |Connections(c, conn)| ==> !Connections(c, conn)[i].Closed?
  {
  }

  lemma NothingClosed(c: Conn, d: Conn)
    requires IsOver(c) == IsOver(d)
    ensures ClosedBy(c, d) == []
  {
  }

  lemma SameSeries(a: map<Cid, ChannelState>, b: map<Cid, ChannelState>)
    requires CreatedCids(a) == CreatedCids(b) && forall cid :: cid in CreatedCids(a) ==> a[cid] == b[cid]
    ensures SeriesUp(a) == SeriesUp(b)
  {
    hide SortedKeys;
  }

  lemma RequestsSameCreated(c: Conn)
    requires Inv(c) && c.state.PeerReady?
    ensures c.proto.Some?
    ensures (forall cid :: cid in InitCids(c.channels) ==> cid in c.nameByCid)
            && |InitCids(c.channels)| <= c.initStateCount
    ensures var d := RequestChannels(c);
            && SeriesUp(d.channels) == SeriesUp(c.channels) && d.channels.Keys == c.channels.Keys
            && d.queue == c.queue && d.state == c.state && d.granted == c.granted
            && d.cidNext == c.cidNext && d.subidNext == c.subidNext && d.cidBySubid == c.cidBySubid
            && d.nameByCid == c.nameByCid
  {
    hide SortedKeys;
    hide SeriesUp;
    SameSeries(RequestChannels(c).channels, c.channels);
  }

  lemma StepGrows(c: Conn, s: Step)
    requires Inv(c) && Defined(c) && Can(c, s)
    ensures var d := Apply(c, s); Grows(c, d, ClosedBy(c, d))
  {
    SortedNothing();
    hide SortedKeys;
    hide Inv;
    hide ConnStep;
    var d := Apply(c, s);
    assert c.queue + [] == c.queue;
    match s {
      case Poll(conn, timer, inp) => PollGrows(c, conn, timer, inp);
      case ShutDown(reason) => ShutdownStep(c, c, reason);
      case Health(due, overdue) =>
        if due && c.pinging && overdue {
          ShutdownStep(c, c, IocTimeout);
        } else if due && !c.pinging && c.proto.None? {
          ShutdownStep(c, c.(pinging := true), NoProtocol);
        } else {
          OtherGrows(c, d, []);
        }
      case Lookup(res) => OtherGrows(c, d, if res.Some? then [Opened(res.value.1)] else []);
      case _ => OtherGrows(c, d, []);
    }
  }

  /** Before the connection leaves for Shutdown there are no Closed statuses, and afterwards no more
      of them are added. */
  lemma {:induction false} ClosedSince(conns: seq<Conn>, steps: seq<Step>, i: nat, j: nat)
    requires IsRun(conns, steps) && i <= j <= |steps|
    ensures !IsOver(conns[j]) ==> ClosedIn(conns[j].queue) == []
    ensures IsOver(conns[i]) ==> ClosedIn(conns[j].queue) == ClosedIn(conns[i].queue)
    decreases j
  {
    hide *;
    RunSize(conns, steps);
    if j == 0 {
      NothingYet(conns, steps);
    } else {
      ClosedSince(conns, steps, if i < j then i else j - 1, j - 1);
      RunKeepsInv(conns, steps, j - 1);
      StepGrows(conns[j - 1], steps[j - 1]);
      if IsOver(conns[j - 1]) {
        ShutdownIsFinal(conns, steps, j - 1, j);
      }
      if i < j && IsOver(conns[i]) {
        ShutdownIsFinal(conns, steps, i, j - 1);
      }
      AddsNothing(conns[j - 1], conns[j]);
    }
  }

  lemma NothingYet(conns: seq<Conn>, steps: seq<Step>)
    requires IsRun(conns, steps)
    ensures ClosedIn(conns[0].queue) == []
  {
  }

  lemma AddsNothing(c: Conn, d: Conn)
    requires Grows(c, d, ClosedBy(c, d))
    ensures IsOver(c) || !IsOver(d) ==> ClosedIn(d.queue) == ClosedIn(c.queue)
    ensures !IsOver(c) && IsOver(d) && ClosedIn(c.queue) == [] ==> ClosedIn(d.queue) == SeriesUp(c.channels)
  {
    hide ClosedIn;
    hide SeriesUp;
    assert ClosedIn(c.queue) + [] == ClosedIn(c.queue);
  }

  /** However often shutdown is triggered: when the connection leaves for Shutdown, every channel that
      is up then gets one Closed status, with its own series and in the order of the cids. There
      were none before, and none follow. */
  lemma ClosedExactlyOnce(conns: seq<Conn>, steps: seq<Step>, i: nat, j: nat)
    requires IsRun(conns, steps) && i < |steps| && j <= |steps|
    requires !IsOver(conns[i]) && IsOver(conns[i + 1])
    ensures ClosedIn(conns[j].queue) == if j <= i then [] else SeriesUp(conns[i].channels)
  {
    hide *;
    RunSize(conns, steps);
    if j <= i {
      ClosedSince(conns, steps, j, j);
      if IsOver(conns[j]) {
        ShutdownIsFinal(conns, steps, j, i);
      }
    } else {
      ClosedSince(conns, steps, i, i);
      RunKeepsInv(conns, steps, i);
      StepGrows(conns[i], steps[i]);
      AddsNothing(conns[i], conns[i + 1]);
      ClosedSince(conns, steps, i + 1, j);
    }
  }

  // ---- ids ----

  /** No id is given out twice. */
  ghost predicate IdsGrow(c: Conn, d: Conn) {
    && c.cidNext <= d.cidNext && c.subidNext <= d.subidNext
    && (forall cid :: cid in d.channels && cid !in c.channels ==> c.cidNext < cid)
    && (forall x :: x in c.cidBySubid ==> x in d.cidBySubid && d.cidBySubid[x] == c.cidBySubid[x])
  }

  lemma SameIds(c: Conn, d: Conn)
    requires d.cidNext == c.cidNext && d.subidNext == c.subidNext && d.cidBySubid == c.cidBySubid
             && d.channels.Keys == c.channels.Keys
    ensures IdsGrow(c, d)
  {
  }

  lemma LookupIds(c: Conn, res: Option<(Name, Series)>)
    requires Inv(c) && Defined(c)
    ensures IdsGrow(c, SeriesLookup(c, res))
  {
    hide Inverse;
    hide CreatesOk;
    hide EventsOk;
    hide InitCids;
    if res.Some? && res.value.0 in c.cidByName && c.cidByName[res.value.0] in c.channels {
      var cid := c.cidByName[res.value.0];
      assert ChannelOk(cid, c.channels[cid], c.state);
    }
  }

  lemma AddIds(c: Conn, name: Name, cssid: nat)
    requires NamesOk(c)
    ensures IdsGrow(c, ChannelAdd(c, name, cssid))
  {
  }

  lemma StepIds(c: Conn, s: Step)
    requires Inv(c) && Defined(c) && Can(c, s)
    ensures IdsGrow(c, Apply(c, s))
  {
    hide SortedKeys;
    hide ConnStep;
    hide SeriesLookup;
    hide ChannelAdd;
    hide ChannelRemove;
    hide Inverse;
    hide CreatesOk;
    hide EventsOk;
    match s {
      case Add(name, cssid) => AddIds(c, name, cssid);
      case Remove(name) => RemoveShape(c, name);
      case Lookup(res) => LookupIds(c, res);
      case Poll(conn, timer, inp) => PollGrows(c, conn, timer, inp);
      case _ =>
        assert Apply(c, s).channels.Keys == c.channels.Keys;
        SameIds(c, Apply(c, s));
    }
  }

  /** Ids are never reused: a cid that was given out and is gone never comes back, and a
      subscription id keeps its channel. */
  lemma {:induction false} IdsNotReused(conns: seq<Conn>, steps: seq<Step>, i: nat, j: nat)
    requires IsRun(conns, steps) && i <= j <= |steps|
    ensures forall cid :: cid <= conns[i].cidNext && cid !in conns[i].channels ==> cid !in conns[j].channels
    ensures conns[i].cidNext <= conns[j].cidNext
    ensures forall x :: x in conns[i].cidBySubid ==>
              x in conns[j].cidBySubid && conns[j].cidBySubid[x] == conns[i].cidBySubid[x]
  {
    hide Apply;
    hide Inv;
    hide Can;
    hide Defined;
    hide Follows;
    if i < j {
      IdsNotReused(conns, steps, i, j - 1);
      RunKeepsInv(conns, steps, j - 1);
      StepIds(conns[j - 1], steps[j - 1]);
    }
  }

  /** The shortcut for a count of zero skips nothing, although the count can be too high. */
  lemma ShortcutSkipsNothing(c: Conn)
    requires Inv(c) && c.state.PeerReady? && c.initStateCount == 0
    ensures RequestChannels(c) == c
  {
    SortedNothing();
    hide SortedKeys;
    assert InitCids(c.channels) == {};
    forall cid | cid in c.channels
      ensures !c.channels[cid].Init?
    {
      assert cid !in InitCids(c.channels);
    }
    assert AllCreating(c.channels) == c.channels;
    assert CreateRequests([], c.nameByCid) == [];
    assert c.log + [] == c.log && c.proto.value + [] == c.proto.value;
  }
}
