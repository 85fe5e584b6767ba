/**
 One Channel Access connection (netfetch/src/ca/conn.rs) on values: the connection state, the
 state of every channel on it, the id maps, and what is sent to the server. What arrives, and
 whether timers fired, are inputs of the steps.
 */
module ConnLifecycle {
  import opened Wrappers
  import opened OrderedMaps

  type Name = seq<char>
  type Cid = nat
  type Series = nat

  datatype ConnState = Unconnected | Connecting | ConnInit | Listen | PeerReady | Waiting | Shutdown | EndOfStream

  datatype MonitoringState = FetchSeriesId | AddingEvent(series: Series) | Evented(series: Series)

  datatype CreatedState = CreatedState(cssid: nat, cid: Cid, sid: nat, dataType: nat, dataCount: nat,
                                       state: MonitoringState)

  datatype ChannelState =
    | Init(cssid: nat)
    | Creating(cssid: nat, cid: Cid)
    | FetchingSeriesId(st: CreatedState)
    | Created(series: Series, st: CreatedState)
    | Error
    | Ended

  /** The requests that the connection sends to the server. */
  datatype Request =
    | Version
    | ClientName
    | HostName
    | Echo
    | CreateChan(cid: Cid, channel: Name)
    | EventAdd(sid: nat, dataType: nat, dataCount: nat, subid: nat)

  /** What the server said about a channel: its id there, the type and the count of its values. */
  datatype Granted = Granted(sid: nat, dataType: nat, dataCount: nat)

  datatype Reason = ShutdownCommand | InternalError | IocTimeout | NoProtocol | ProtocolError | ProtocolDone

  /** The status items among what the connection hands on for insertion. */
  datatype Item =
    | Connection(established: bool)
    | Opened(series: Series)
    | Closed(series: Series, reason: Reason)

  /** The fields of the connection. `proto` is the protocol object, as the requests pushed to it.
      `log` and `granted` are history: all requests ever pushed, and the server id that came back
      for a channel. */
  datatype Conn = Conn(
    state: ConnState,
    proto: Option<seq<Request>>,
    cidNext: nat,
    subidNext: nat,
    channels: map<Cid, ChannelState>,
    initStateCount: nat,
    cidByName: map<Name, Cid>,
    cidBySubid: map<nat, Cid>,
    nameByCid: map<Cid, Name>,
    queue: seq<Item>,
    infoQueue: seq<Name>,
    pinging: bool,
    log: seq<Request>,
    granted: map<Cid, Granted>)

  function New(): Conn {
    Conn(Unconnected, None, 0, 0, map[], 0, map[], map[], map[], [], [], false, [], map[])
  }

  // ---- commands ----

  /** `cid_by_name_expl`: the cid of a name, taking a new one if it has none. */
  function CidFor(c: Conn, name: Name): (Conn, Cid) {
    if name in c.cidByName then (c, c.cidByName[name])
    else
      var cid := c.cidNext + 1;
      (c.(cidNext := cid, cidByName := c.cidByName[name := cid], nameByCid := c.nameByCid[cid := name]), cid)
  }

  function ChannelAdd(c: Conn, name: Name, cssid: nat): Conn {
    if name in c.cidByName then c
    else
      var (d, cid) := CidFor(c, name);
      if cid in d.channels then d
      else d.(channels := d.channels[cid := Init(cssid)], initStateCount := d.initStateCount + 1)
  }

  /** Takes out all names of the cid, and the cid. A name that is not there uses up a cid. The
      count of channels in Init is not touched. */
  function ChannelRemove(c: Conn, name: Name): Conn {
    var (d, cid) := CidFor(c, name);
    d.(cidByName := map n | n in d.cidByName && d.cidByName[n] != cid :: d.cidByName[n],
       channels := d.channels - {cid},
       nameByCid := d.nameByCid - {cid})
  }

  // ---- shutdown ----

  function CreatedCids(channels: map<Cid, ChannelState>): set<Cid> {
    set cid | cid in channels && channels[cid].Created?
  }

  function ClosedItems(channels: map<Cid, ChannelState>, cids: seq<Cid>, reason: Reason): seq<Item>
    requires forall cid :: cid in cids ==> cid in channels && channels[cid].Created?
  {
    seq(|cids|, i requires 0 <= i < |cids| => Closed(channels[cids[i]].series, reason))
  }

  function AllEnded(channels: map<Cid, ChannelState>): map<Cid, ChannelState> {
    map cid | cid in channels :: Ended
  }

  function TriggerShutdown(c: Conn, reason: Reason): Conn {
    var cids := SortedKeys(CreatedCids(c.channels));
    c.(state := Shutdown,
       proto := None,
       channels := AllEnded(c.channels),
       queue := c.queue + ClosedItems(c.channels, cids, reason))
  }

  // ---- pushing to the protocol ----

  function PushOut(c: Conn, rs: seq<Request>): Conn
    requires c.proto.Some?
  {
    c.(proto := Some(c.proto.value + rs), log := c.log + rs)
  }

  /** `check_channels_alive`: pings a silent server, and gives up on one that does not answer. */
  function CheckHealth(c: Conn, pingDue: bool, pongOverdue: bool): Conn {
    if !pingDue then c
    else if c.pinging then if pongOverdue then TriggerShutdown(c, IocTimeout) else c
    else
      var d := c.(pinging := true);
      if d.proto.Some? then PushOut(d, [Echo]) else TriggerShutdown(d, NoProtocol)
  }

  // ---- channels ----

  function InitCids(channels: map<Cid, ChannelState>): set<Cid> {
    set cid | cid in channels && channels[cid].Init?
  }

  function AllCreating(channels: map<Cid, ChannelState>): map<Cid, ChannelState> {
    map cid | cid in channels :: if channels[cid].Init? then Creating(channels[cid].cssid, cid) else channels[cid]
  }

  function CreateRequests(cids: seq<Cid>, nameByCid: map<Cid, Name>): seq<Request>
    requires forall cid :: cid in cids ==> cid in nameByCid
  {
    seq(|cids|, i requires 0 <= i < |cids| => CreateChan(cids[i], nameByCid[cids[i]]))
  }

  /** Asks the server to create every channel that is in Init. */
  function RequestChannels(c: Conn): Conn
    requires c.proto.Some?
    requires forall cid :: cid in InitCids(c.channels) ==> cid in c.nameByCid
    requires |InitCids(c.channels)| <= c.initStateCount
  {
    var cids := SortedKeys(InitCids(c.channels));
    PushOut(c.(channels := AllCreating(c.channels), initStateCount := c.initStateCount - |cids|),
            CreateRequests(cids, c.nameByCid))
  }

  /** The server created the channel. */
  function ChannelCreated(c: Conn, cid: Cid, sid: nat, dataType: nat, dataCount: nat): Conn
    requires cid in c.channels && cid in c.nameByCid
  {
    if c.channels[cid].Creating? then
      c.(channels := c.channels[cid :=
          FetchingSeriesId(CreatedState(c.channels[cid].cssid, cid, sid, dataType, dataCount, FetchSeriesId))],
         infoQueue := c.infoQueue + [c.nameByCid[cid]],
         granted := c.granted[cid := Granted(sid, dataType, dataCount)])
    else c
  }

  /** `channel_to_evented`: asks for the events of a channel whose series is known now. */
  function ChannelToEvented(c: Conn, st: CreatedState, series: Series): Conn
    requires c.proto.Some? && st.cid in c.channels && st.cid in c.nameByCid
  {
    var subid := c.subidNext + 1;
    var d := PushOut(c.(subidNext := subid, cidBySubid := c.cidBySubid[subid := st.cid]),
                     [EventAdd(st.sid, st.dataType + 14, st.dataCount, subid)]);
    if c.channels[st.cid].FetchingSeriesId? then
      var cr := CreatedState(c.channels[st.cid].st.cssid, st.cid, st.sid, st.dataType, st.dataCount,
                             AddingEvent(series));
      d.(channels := c.channels[st.cid := Created(series, cr)])
    else d
  }

  /** What the source unwraps for a channel whose series is looked up. */
  ghost predicate LookupReady(c: Conn) {
    forall cid :: cid in c.channels && c.channels[cid].FetchingSeriesId? ==>
      c.proto.Some? && c.channels[cid].st.cid == cid && cid in c.nameByCid
  }

  /** The answer to a series lookup. */
  function SeriesLookup(c: Conn, res: Option<(Name, Series)>): Conn
    requires LookupReady(c)
  {
    if res.None? then c
    else
      var (name, series) := res.value;
      var d := c.(queue := c.queue + [Opened(series)]);
      if name in c.cidByName && c.cidByName[name] in c.channels && c.channels[c.cidByName[name]].FetchingSeriesId? then
        ChannelToEvented(d, c.channels[c.cidByName[name]].st, series)
      else d
  }

  /** The monitoring state after an event; None where the source reports that there is no series. */
  function Monitored(m: MonitoringState): Option<MonitoringState> {
    match m
    case AddingEvent(series) => Some(Evented(series))
    case Evented(series) => Some(m)
    case FetchSeriesId => None
  }

  /** An event arrived. The second part is the error "no series id on insert". */
  function EventArrived(c: Conn, subid: nat): (Conn, bool)
    requires subid in c.cidBySubid && c.cidBySubid[subid] in c.channels
  {
    var cid := c.cidBySubid[subid];
    var ch := c.channels[cid];
    if !ch.Created? then (c, false)
    else if Monitored(ch.st.state).None? then (c, true)
    else (c.(channels := c.channels[cid := Created(ch.series, ch.st.(state := Monitored(ch.st.state).value))]), false)
  }

  // ---- the connection state machine ----

  /** What the server sends, or what polling the protocol reports. `known` tells whether the data
      type and count of a created channel are known ones. */
  datatype Input =
    | VersionRes(n: nat)
    | CreateChanRes(newCid: Cid, newSid: nat, newType: nat, newCount: nat, known: bool)
    | EventAddRes(evSubid: nat)
    | EchoReply
    | OtherMsg
    | ProtoError
    | ProtoDone
    | NothingYet

  /** Connection attempts and timers. */
  datatype Connect = Connected | Failed | Undecided

  function PeerInput(c: Conn, inp: Input): Conn
    requires inp.CreateChanRes? ==> inp.newCid in c.channels && inp.newCid in c.nameByCid
    requires inp.EventAddRes? ==> inp.evSubid in c.cidBySubid && c.cidBySubid[inp.evSubid] in c.channels
  {
    match inp
    case CreateChanRes(cid, sid, dataType, dataCount, known) =>
      if known then ChannelCreated(c, cid, sid, dataType, dataCount) else c
    case EventAddRes(subid) => EventArrived(c, subid).0
    case EchoReply => c.(pinging := false)
    case ProtoError => TriggerShutdown(c, ProtocolError)
    case ProtoDone => TriggerShutdown(c, ProtocolDone)
    case _ => c
  }

  /** What the peer's message must refer to: the source unwraps these look-ups. */
  predicate Answerable(c: Conn, inp: Input) {
    && (inp.CreateChanRes? ==> inp.newCid in c.channels)
    && (inp.EventAddRes? ==> inp.evSubid in c.cidBySubid && c.cidBySubid[inp.evSubid] in c.channels)
  }

  predicate Ready(c: Conn) {
    && (c.state.ConnInit? || c.state.Listen? || c.state.PeerReady? ==> c.proto.Some?)
    && (c.state.PeerReady? ==> |InitCids(c.channels)| <= c.initStateCount && c.channels.Keys == c.nameByCid.Keys)
  }

  /** The attempt to connect ended, or did not. */
  function Attempted(c: Conn, conn: Connect): Conn {
    match conn
    case Connected => c.(queue := c.queue + [Connection(true)], state := ConnInit, proto := Some([]))
    case Failed => c.(queue := c.queue + [Connection(false)], state := Waiting, proto := None)
    case Undecided => c
  }

  /** The first messages to the server. */
  function Introduced(c: Conn): Conn
    requires c.proto.Some?
  {
    PushOut(c, [Version, ClientName, HostName]).(state := Listen)
  }

  /** Until the server's version is known. */
  function Listened(c: Conn, inp: Input): Conn {
    match inp
    case VersionRes(n) => if n < 12 || n > 13 then c else c.(state := PeerReady)
    case ProtoDone => c.(state := Waiting, proto := None)
    case _ => c
  }

  function Waited(c: Conn, timer: bool): Conn {
    if timer then c.(state := Unconnected, proto := None) else c
  }

  /** `handle_conn_state`. */
  function ConnStep(c: Conn, conn: Connect, timer: bool, inp: Input): Conn
    requires Ready(c) && Answerable(c, inp)
  {
    match c.state
    case Unconnected => c.(state := Connecting)
    case Connecting => Attempted(c, conn)
    case ConnInit => Introduced(c)
    case Listen => Listened(c, inp)
    case PeerReady => PeerInput(RequestChannels(c), inp)
    case Waiting => Waited(c, timer)
    case Shutdown => c
    case EndOfStream => c
  }

  // ---- everything that can happen ----

  datatype Step =
    | Add(name: Name, cssid: nat)
    | Remove(name: Name)
    | Health(pingDue: bool, pongOverdue: bool)
    | ShutDown(reason: Reason)
    | Lookup(res: Option<(Name, Series)>)
    | Poll(conn: Connect, timer: bool, inp: Input)
    | FlushQuery
    | Finish

  /** The queries to the database are sent on from the front. The stream ends in Shutdown once they
      are all gone. Nothing but additions and removals happens after that. */
  predicate Can(c: Conn, s: Step) {
    && c.cidNext + 1 < 0x1_0000_0000 && c.subidNext + 1 < 0x1_0000_0000
    && (c.state.EndOfStream? ==> s.Add? || s.Remove?)
    && (s.Poll? ==> Answerable(c, s.inp))
    && (s.FlushQuery? ==> c.infoQueue != [])
    && (s.Finish? ==> c.state.Shutdown? && c.infoQueue == [])
  }

  /** The states in which every step is defined. */
  ghost predicate Defined(c: Conn) {
    Ready(c) && LookupReady(c)
  }

  ghost function Apply(c: Conn, s: Step): Conn
    requires Defined(c) && Can(c, s)
  {
    match s
    case Add(name, cssid) => ChannelAdd(c, name, cssid)
    case Remove(name) => ChannelRemove(c, name)
    case Health(due, overdue) => CheckHealth(c, due, overdue)
    case ShutDown(reason) => TriggerShutdown(c, reason)
    case Lookup(res) => SeriesLookup(c, res)
    case Poll(conn, timer, inp) => ConnStep(c, conn, timer, inp)
    case FlushQuery => c.(infoQueue := c.infoQueue[1..])
    case Finish => c.(state := EndOfStream)
  }
}
