# Verification of the daqingest state machines

Dafny models of the parts of daqingest that are state machines or arithmetic, with proofs about
them. Sockets, clocks, timers and channels are inputs of the steps: bytes arrive in any chunks, a
write takes any number of bytes, a clock value is given, a peer message arrives.

`dafny verify dfyconfig.toml` checks everything.

## What is modelled

**The search engine** (`FindIocState`, `FindIocIndex`, `FindIocRuns`, `FindIocAnswers`,
`FindIocTimeouts`, `FindIocSending`, `FindIocRounds`, `FindIocStream`, `SearchDatagram`, `SearchAnswers`).
Channel names are searched for in batches by datagrams to several targets. The same information sits in the batches, in the index from search ids to
batches, in the send queue and in the output queue. The main results are that the index is exact between
operations, that no channel is ever lost, and exactly when one is yielded more than once: a
datagram that repeats a search id while its batch still waits for other answers. In `handle_result`
the branch "no bid" is dead, because the id has just been entered into the done ids.

Reading a datagram has two surprises, both with the exact condition. `try_read` indexes the first
message without a look whether there is one, so it is defined only for datagrams with a complete first
message. And it skips the first message whatever it is: an IOC that leaves out the version, which a
comment there calls a common bug, loses its first answer.

**The Channel Access connection** (`ConnLifecycle`, `ConnInvariants`, `ConnRuns`, `ConnSteps`,
`ConnProgress`, `CaConnection`). The state of the connection and those of its channels are coupled with four id
maps and a counter. One invariant across all of them makes the unwraps of the code safe; what each step
brings about is in `ConnSteps`, and that a channel comes up with a server that answers in `ConnProgress`.

**Event insertion** (`InsertRate`, `EventPartition`, `EventOrder`, `EventCopies`, `EventInsert`). A moving
average mutes a channel that is too fast, and timestamps are split into a partition and an offset. Nothing
in the code puts the timestamps of a peer in order, and the theorems about whole runs hold for times in any
order, unless their row says otherwise. Three properties that one might expect are false as the code
stands, and are given with a concrete input and the exact condition. An event that is older than the start
of its partition, while that is not full, loses its time: the offset wraps around 64 bits (two events are
enough, `OldEventIsMisread`). The stored order can differ from the order of time, because of such an
event, or because of one that steps back over the end of a full partition; `OrderIff` gives the condition
for whole runs, `FitsIff` for the next event. And with extra copies configured, an item can go into a
partition that is never announced: exactly if a copy of the first event of a channel is stored. No caller
configures copies today (`cmd_extra_inserts_conf` is not called, and the handler for it in
netfetch/src/metrics.rs:112-116 is a TODO), so this last one holds for the insertion as it is written, not
for a running daqingest.

**The ZMTP codec and handshake** (`ZmtpWire`, `Zmtp`, `ZmtpGreeting`, `ZmtpHandshake`, `Utf8`, over
`Incremental`), after the grammars of 23/ZMTP and 37/ZMTP. The PING that the code sends is not the one of the
grammar: it has no time to live, so a peer takes the first two letters of "daqingest" for one.
**The Channel Access codec** (`CaWire`, `CaReading`, `CaProto`, `CaDecode`), with reader and decoder composed, after the message structure in the EPICS Channel Access
Protocol Specification. Two things in the reader differ from it. A message with an extended header arrives
only if it is empty or has 65535 bytes, because the size that is read there is not kept. And an error
message loses the first byte of its text, which begins behind 16 bytes of header, not 17. Both codecs sit
on the sliding buffer (`SlideBuffer`, `BufferFifo`, `Bytes`).

**Patches of bins** (`PatchState`, `PatchCollection`), and **the sweep over all channels**
(`ChannelSweep`, `ChannelSweepRuns`). A sweep takes 10000 channels per tick, and looks at the one between two
ticks twice. A channel in Init runs into a `todo!()`, and a channel that waits too long for its series
id is put there, so a sweep can stop itself at such a seam. The exact condition for a complete sweep is given.

Where the code works by changing fields, there is a class with these fields, and every method is proved
to take the fields where a function on a value of the state takes that value. The lemmas about
invariants and whole runs are about these functions. `OrderedMaps` holds the iteration over maps in the order of
their keys, `Arithmetic` facts about products and remainders.

Names are byte strings where they go over the wire and character strings elsewhere. 32-bit and 64-bit
arithmetic wraps where that can show: ids, timestamps, payload sizes, stored offsets. The typed reads and
puts of the buffer, whose bodies differ only in the type, are one `ReadBe` and one `PutBe` with the
size as a parameter. Single precision numbers are reals.

There are two encoders of a search request, and they differ: `CaMsgTy::param1` gives the search id,
while the search engine writes zero there. Each is modelled as it is.

## Model

| member | source | states |
|---|---|---|
| FindIocRuns.RunConserves | netfetch/src/ca/findioc.rs:368-490 | At every point of every run of pushes, batch creation, answers, timeouts and sends: the invariants hold, no pushed channel is lost, and as long as no datagram answers an id twice, waiting + in flight without an answer + output queue + yielded is exactly the multiset of pushed channels |
| FindIocAnswers.RunConservesIff | netfetch/src/ca/findioc.rs:390-454 | The exact condition over whole runs: the account balances if and only if no answer that was read repeated the id of an earlier one of its datagram while the batch of that id still waited for an answer that had not come before |
| FindIocRuns.EndYieldsEverything | netfetch/src/ca/findioc.rs:603-616 | When the stream ends, every pushed channel was yielded, and exactly as often as it was pushed if no datagram answered an id twice |
| FindIocIndex.HandleResultKeeps | netfetch/src/ca/findioc.rs:390-454 | A datagram of answers keeps the index exact (it maps precisely the search ids without an answer to their batch), loses nothing, and conserves the account when no id is repeated |
| FindIocIndex.HandleOneConserves | netfetch/src/ca/findioc.rs:393-446 | One answer never takes anything from the account, and leaves it equal if it is the first for its id |
| FindIocAnswers.FirstAnswerYieldsOne | netfetch/src/ca/findioc.rs:396-441 | The first answer to an indexed id always finds its batch, so the "no batch" branch is dead, and queues exactly one result, for the channel that was searched for, with the time since the batch was begun |
| FindIocAnswers.HandleOneExact | netfetch/src/ca/findioc.rs:396-434 | A repeated answer to a batch in flight adds exactly one more copy of its channel; every other answer adds none |
| FindIocAnswers.ConservesIff | netfetch/src/ca/findioc.rs:390-454 | The same for one datagram, in terms of its answers and of the index as it was before: it conserves the account if and only if no answer repeats an indexed id of an earlier one while another indexed id of the same batch is not among the earlier ones |
| FindIocAnswers.NoDoublesIff | netfetch/src/ca/findioc.rs:390-454 | Replaying the answers one by one meets an answer that doubles a result exactly if one of them is such a repetition |
| FindIocAnswers.RepeatIsDoubled | netfetch/src/ca/findioc.rs:402-419 | The concrete failure: a batch that waits for two channels, and one of them answered twice in one datagram: its result is queued twice, and the account has one channel more |
| FindIocIndex.CreateInFlightKeeps | netfetch/src/ca/findioc.rs:368-388 | A new batch keeps the index exact and the account, and adds one batch, provided the ids it takes are not in use |
| FindIocIndex.ClearTimedOutKeeps | netfetch/src/ca/findioc.rs:456-490 | Timing out batches keeps the index exact and the account: what was unanswered, and only that, goes to the output queue |
| FindIocTimeouts.TimeoutsGiveUp | netfetch/src/ca/findioc.rs:456-490 | A batch is given up exactly if more than the limit has passed between its start and now; each of its channels without an answer then yields one result without an address, with that difference as its time, and nothing else is yielded |
| FindIocIndex.ExpiredEntriesAre | netfetch/src/ca/findioc.rs:461-489 | The entries collected for timed out batches are, as a multiset, what those batches still waited for, and their ids are those batches' index entries |
| FindIocIndex.InFlightSplit | netfetch/src/ca/findioc.rs:461-489 | The sum over the batches in flight does not depend on the order in which they are taken |
| FindIocRuns.ScheduleIsKnown | netfetch/src/ca/findioc.rs:543-557 | Targets serialised so far followed by those still to do are all targets in order, so the branch for a target index out of range is dead |
| FindIocRuns.SendNextKeepsSchedule | netfetch/src/ca/findioc.rs:535-550 | Serialising a batch for its next target and queueing it again keeps: each batch queued once, each unfinished batch queued, each target once and in order |
| FindIocRuns.DropKeepsSchedule | netfetch/src/ca/findioc.rs:559-573 | Dropping a queue entry that is gone or exhausted keeps the schedule |
| FindIocRuns.ScheduleKeeps | netfetch/src/ca/findioc.rs:535-578 | The sending loop keeps all invariants and the account, and ends with something to send unless the queue is empty |
| FindIocSending.ScheduleTakesTurn | netfetch/src/ca/findioc.rs:535-578 | An empty send buffer is filled for the first queued batch that has a target left, and for that batch's next target: the address is that target's, the buffer conveys the ids and names of the batch, and the batch goes to the end of the queue; batches that are gone or exhausted are dropped |
| FindIocSending.StepSends | netfetch/src/ca/findioc.rs:506-582 | Every step of a run either makes nothing ready to send, or makes one batch ready for its next target, under that target's address |
| FindIocSending.AsksEveryTarget | netfetch/src/ca/findioc.rs:535-578 | Over any run, for every batch in flight: the addresses at which its datagram was made ready so far, followed by its targets that are still to do, are all the targets in order |
| FindIocRuns.FillInFlightKeepsInv | netfetch/src/ca/findioc.rs:579-582 | Filling up keeps all invariants and the account, and ends with no channel waiting or the maximum in flight, never more |
| FindIocRuns.RoundKeeps | netfetch/src/ca/findioc.rs:506-626 | A whole round of the poll loop keeps the invariants and never loses anything; end of stream is reported only with nothing waiting, in flight or queued |
| FindIocRuns.PushKeeps | netfetch/src/ca/findioc.rs:134-136 | A push adds one to the account and keeps the invariants |
| FindIocRounds.RoundShows | netfetch/src/ca/findioc.rs:506-626 | A round yields exactly the queued results, all at once and before anything else; it yields an error exactly when reading fails, and ends the stream exactly when nothing is left to do or to wait for, nothing can be read, and it is to stop then |
| FindIocRounds.WaitsIff | netfetch/src/ca/findioc.rs:527-622 | A round waits exactly when there is nothing to yield, to read, to send or to make ready, and no room or no channel for another batch, unless the stream is over or it is time for another look; it has changed nothing then |
| FindIocRounds.YieldedIsShown | netfetch/src/ca/findioc.rs:509-511 | Over any run, what the account of RunConserves counts as yielded is what the user was given, in order |
| FindIocRounds.NewBatchIs | netfetch/src/ca/findioc.rs:368-388 | A new batch takes the first waiting channels in order, with consecutive new ids, no answer yet, all targets to do, and the current time |
| FindIocRounds.AnswerIsNoted | netfetch/src/ca/findioc.rs:390-454 | An answered id is remembered, one that the index does not know is counted, and a batch is remembered as done when its last entry is answered |
| FindIocState.ScheduleFrame | netfetch/src/ca/findioc.rs:535-578 | The sending loop touches only the batches, the buffer, the address and the queue, keeps the set of batches, and queues no batch that was not queued |
| FindIocState.StaysFresh | netfetch/src/ca/findioc.rs:368-388 | A batch uses up one batch id and one search id per channel, so ids that were free for k batches are free for the k - 1 after it |
| FindIocStream.FindIocStream.TakeChannels | netfetch/src/ca/findioc.rs:372-377 | The loop takes the first min(batch size, waiting) channels, with consecutive search ids, and indexes each |
| FindIocStream.FindIocStream.CreateBatch | netfetch/src/ca/findioc.rs:368-388 | The method on the fields does what the specification does on the state |
| FindIocStream.FindIocStream.MarkAnswered | netfetch/src/ca/findioc.rs:402-424 | The scan of a batch sets exactly the flags of the answered id and queues one result per match |
| FindIocStream.FindIocStream.HandleAnswer | netfetch/src/ca/findioc.rs:393-449 | One answer, with all branches; tells whether the index entry is to be removed afterwards |
| FindIocStream.FindIocStream.HandleDatagram | netfetch/src/ca/findioc.rs:390-454 | The loop over the answers, and the removal of the index entries only after it |
| FindIocStream.FindIocStream.CollectExpired | netfetch/src/ca/findioc.rs:456-476 | The first loop of clear_timed_out yields the expired batches in ascending order with their unanswered entries |
| FindIocStream.FindIocStream.ClearExpired | netfetch/src/ca/findioc.rs:456-490 | clear_timed_out as a whole does what the specification does |
| FindIocStream.FindIocStream.SendBatch | netfetch/src/ca/findioc.rs:540-557 | Serialises the batch for its next target; the branch for a bad target index is proved dead in place |
| FindIocStream.FindIocStream.ScheduleSend | netfetch/src/ca/findioc.rs:535-578 | The sending loop terminates, by queue length and remaining targets, and does what the specification does |
| FindIocStream.FindIocStream.FillBatches | netfetch/src/ca/findioc.rs:579-582 | The filling loop, which terminates by the room in flight |
| FindIocStream.FindIocStream.PollRound | netfetch/src/ca/findioc.rs:506-626 | One round of the poll loop on the fields, with the invariants kept |
| SearchDatagram.DatagramConveys | netfetch/src/ca/findioc.rs:349-366 | Splitting a serialised batch gives one version 13 header and then exactly the (id, name) pairs in order, under heads that ask for version 13 and no address, each payload a multiple of 8 and longer than its name, if and only if every name has at most 65527 bytes |
| SearchDatagram.TooLongIsLost | netfetch/src/ca/findioc.rs:352-363 | With a longer name the 16-bit payload size wraps, and the datagram does not convey the batch |
| SearchDatagram.SerializeBatch | netfetch/src/ca/findioc.rs:349-366 | The loop appends the version header and one padded search message per name |
| SearchAnswers.AnswersArriveIff | netfetch/src/ca/findioc.rs:260-345 | What an IOC answers to a search is read as exactly its (id, address) pairs, in order, if and only if it puts its version in front and there are at most 42 answers; without a version the first answer is lost, and those beyond the 1024 bytes always are |
| SearchAnswers.CrashesIff | netfetch/src/ca/findioc.rs:281-325 | Reading a datagram panics if and only if it is not empty but holds no complete message, or the first message that is not decoded slices its payload out of range |
| SearchAnswers.AnswersCut | netfetch/src/ca/findioc.rs:284-309 | Of a datagram with search answers that is cut off after n bytes, exactly the first n / 24 answers are decoded, whatever follows them in the buffer |
| SearchAnswers.LastPanicsIff | netfetch/src/ca/findioc.rs:306-306 | The last message that is looked at panics exactly if it is the first one not decoded and its slices are out of range |
| SearchAnswers.DecodeMessages | netfetch/src/ca/findioc.rs:281-309 | The loop over the sliding buffer decodes the complete messages, with all that follows each header as its payload, and ends at an incomplete or a refused one |
| SearchAnswers.FindAnswers | netfetch/src/ca/findioc.rs:333-343 | The loop over all messages but the first picks the search answers |
| SearchAnswers.PickAnswers | netfetch/src/ca/findioc.rs:313-345 | The first message is skipped without a look at it, except that a version other than 13 discards the rest; there must be one |
| SearchAnswers.ReadDatagram | netfetch/src/ca/findioc.rs:234-347 | The whole of try_read for a datagram: errors, panics, and the answers with the address of the sender |
| ConnRuns.RunKeepsInv | netfetch/src/ca/conn.rs:1529-1636 | In every reachable state, under any commands, timers and server messages: a protocol object exists exactly in Init, Listen and PeerReady; a channel is Creating, FetchingSeriesId or Created only in PeerReady and under its own cid; Created implies AddingEvent or Evented with the same series; the id maps are inverse; and every look-up that the code unwraps succeeds |
| ConnRuns.ShutdownIsFinal | netfetch/src/ca/conn.rs:541-545 | Shutdown is left only for EndOfStream and that never; there is no protocol object then, and no channel that is up |
| ConnRuns.RequestedOnce | netfetch/src/ca/conn.rs:1322-1359 | Over any run each cid is requested at most once, under its name, and its events at most once: later, and there is an earlier step of the run in which the server answered for this cid with exactly the server id and the count of the request, and with the plain form of its type |
| ConnRuns.GrantedByStep | netfetch/src/ca/conn.rs:1397-1456 | What is remembered as granted for a cid was said by the server in an earlier step |
| ConnRuns.EventsBelong | netfetch/src/ca/conn.rs:970-984 | Every event request belongs to a channel, and different subscription ids to different cids |
| ConnRuns.ClosedSince | netfetch/src/ca/conn.rs:824-852 | No Closed status is there before the connection leaves for Shutdown, and none is added afterwards |
| ConnRuns.ClosedExactlyOnce | netfetch/src/ca/conn.rs:541-545 | At any time after the connection has left for Shutdown, the Closed statuses are exactly the series of the channels that were Created then, one each, in the order of the cids, however often shutdown is triggered; before, there are none |
| ConnRuns.IdsNotReused | netfetch/src/ca/conn.rs:794-808 | No cid is given out twice, and no subscription id changes its channel |
| ConnRuns.ShortcutSkipsNothing | netfetch/src/ca/conn.rs:1324-1326 | With a count of zero there is no channel in Init, so returning early changes nothing, although the count can be too high after a removal |
| ConnSteps.LookupSubscribes | netfetch/src/ca/conn.rs:636-677 | For a channel that waits for its series, the answer reports it opened, creates it with the series, and sends one request for its events: with the server id and count that the server gave, 14 above its type, and a new subscription id of the channel; for any other name it is only reported |
| ConnSteps.CreationAsksForSeries | netfetch/src/ca/conn.rs:1397-1456 | A channel that was requested then waits for its series, with what the server said about it, and the series is asked for under its name, once |
| ConnSteps.EventStartsMonitoring | netfetch/src/ca/conn.rs:1129-1183 | The first event of a channel ends its waiting, and later ones change nothing |
| ConnSteps.InitIsRequested | netfetch/src/ca/conn.rs:1322-1359 | Every channel in Init, and no other, is requested once, under its name, in the order of the cids |
| ConnSteps.StateAfter | netfetch/src/ca/conn.rs:1529-1636 | The next state of the connection for every state and input: versions 12 and 13, and no others, lead out of Listen |
| ConnSteps.ComingUp | netfetch/src/ca/conn.rs:1529-1600 | While it comes up the connection sends its version, the client name and the host name, and nothing else, and reports each success or failure to connect |
| ConnSteps.PeerReacts | netfetch/src/ca/conn.rs:1363-1517 | An echo ends the wait for it; an error or the end of the protocol ends the connection with its reason |
| ConnSteps.ShutdownEnds | netfetch/src/ca/conn.rs:824-852 | Shutdown ends every channel and reports those that were up closed, with series and reason, in the order of the cids |
| ConnSteps.HealthGivesUp | netfetch/src/ca/conn.rs:854-880 | A ping that is due is sent if none is under way; the connection is given up exactly if one is under way and its answer is overdue, or there is nothing to send it with |
| ConnSteps.RemovesOne | netfetch/src/ca/conn.rs:755-792 | Removing takes out one channel with its name and leaves the others alone; a name that is not there costs a cid |
| ConnProgress.EveryChannelSubscribed | netfetch/src/ca/conn.rs:948-1018 | Over any run: for every channel that is up, a request for its events has been sent |
| ConnProgress.ChannelComesUp | netfetch/src/ca/conn.rs:1279-1636 | With a server that answers and a database that knows the series, a channel that is added comes up in nine steps, for all names, ids, types, counts and series, with exactly the requests, statuses and queries given |
| ConnInvariants.ApplyKeeps | netfetch/src/ca/conn.rs:679-715 | Every step keeps the invariant |
| ConnInvariants.AddKeeps | netfetch/src/ca/conn.rs:721-753 | Adding a channel keeps the invariant, whether the name is there or not |
| ConnInvariants.AddShape | netfetch/src/ca/conn.rs:721-753 | A name that is there is left alone; another one takes a cid that is not in use, its channel is in Init, and is counted |
| ConnInvariants.RemoveKeeps | netfetch/src/ca/conn.rs:755-792 | Removing a channel, or a name that is not there, keeps the invariant |
| ConnInvariants.ShutdownKeeps | netfetch/src/ca/conn.rs:541-545 | Shutdown keeps the invariant from every state |
| ConnInvariants.RequestsKeep | netfetch/src/ca/conn.rs:1322-1359 | Requesting the channels leaves none in Init, never lets the counter underflow, and keeps the invariant |
| ConnInvariants.CreatedKeeps | netfetch/src/ca/conn.rs:1397-1456 | The server's answer to a channel request keeps the invariant |
| ConnInvariants.EventedKeeps | netfetch/src/ca/conn.rs:948-1018 | Asking for the events of a channel keeps the invariant, the new subscription id and the request included |
| ConnInvariants.LookupKeeps | netfetch/src/ca/conn.rs:636-677 | The answer to a series lookup keeps the invariant, whatever name it is for |
| ConnInvariants.EventKeeps | netfetch/src/ca/conn.rs:1129-1183 | An event keeps the invariant, and the error "no series id on insert" is unreachable |
| ConnInvariants.PeerKeeps | netfetch/src/ca/conn.rs:1363-1517 | A whole step in PeerReady keeps the invariant |
| ConnInvariants.StepKeeps | netfetch/src/ca/conn.rs:1529-1636 | Every step of the connection state machine keeps the invariant |
| ConnInvariants.HealthKeeps | netfetch/src/ca/conn.rs:854-880 | The health check keeps the invariant, whether it pings, gives up or finds no protocol object |
| CaConnection.CaConn.ChannelAdd | netfetch/src/ca/conn.rs:721-753 | The method on the fields does what the specification does |
| CaConnection.CaConn.ChannelRemove | netfetch/src/ca/conn.rs:755-792 | Likewise, with the loop that takes out all names of the cid |
| CaConnection.CaConn.ChannelStateOnShutdown | netfetch/src/ca/conn.rs:824-852 | The loop over the channels ends all of them and emits one Closed status per Created channel, in the order of the cids |
| CaConnection.CaConn.TriggerShutdown | netfetch/src/ca/conn.rs:541-545 | Likewise for the whole shutdown |
| CaConnection.CaConn.CheckChannelsAlive | netfetch/src/ca/conn.rs:854-880 | Likewise for the health check |
| CaConnection.CaConn.CheckChannelsStateInit | netfetch/src/ca/conn.rs:1322-1359 | The loop turns exactly the channels in Init into Creating, collects one request for each in the order of the cids, and lowers the counter by their number |
| CaConnection.CaConn.ChannelToEvented | netfetch/src/ca/conn.rs:948-1018 | Likewise for the subscription to the events; the names, the channel and the protocol object that are unwrapped are there |
| CaConnection.CaConn.HandleSeriesLookupResult | netfetch/src/ca/conn.rs:636-677 | Likewise for the answer to a lookup |
| CaConnection.CaConn.HandleEventAddRes | netfetch/src/ca/conn.rs:1129-1183 | Likewise for the state part of an event |
| CaConnection.CaConn.HandleConnListen | netfetch/src/ca/conn.rs:1279-1320 | Likewise for Listen: only versions 12 and 13 lead on |
| CaConnection.CaConn.HandleConnState | netfetch/src/ca/conn.rs:1529-1636 | Likewise for a step of the connection state machine |
| CaConnection.CaConn.Take | netfetch/src/ca/conn.rs:679-715 | Any step on the fields is the step of the specification |
| InsertRate.RateBound | netfetch/src/ca/conn.rs:1079-1087 | For every sequence of event times: the n-th insert after the first comes no earlier than ((1-k) min - k us)(n - 1 + 1/k) after it |
| InsertRate.SourceRateBound | netfetch/src/ca/conn.rs:1079-1087 | The bound with the weight and the minimum of the source: 5.69995 ms times (n + 19) |
| InsertRate.RunKeepsPace | netfetch/src/ca/conn.rs:1079-1087 | The invariant behind it: from the second insert on the average is at least (1-k) min - k us, and the time since the first insert pays for all of them |
| InsertRate.AverageOverFloor | stats/src/stats.rs:48-57 | An insert after the full wait lifts the average over its floor, however low it was |
| InsertRate.WaitIsEnough | netfetch/src/ca/conn.rs:1082-1086 | The wait is short of its target by less than a microsecond, and never negative |
| InsertRate.NeverMutedLong | netfetch/src/ca/conn.rs:1185-1185 | The other direction: a channel is never muted for longer than min / k |
| InsertRate.AverageStaysBetween | stats/src/stats.rs:48-57 | The average stays within any bounds of the values, and the variance is never negative |
| InsertRate.VarianceIsWeighted | stats/src/stats.rs:48-57 | Over any values: the average is their exponentially weighted mean, and the variance is their mean square with the same weights less the square of the mean |
| InsertRate.AverageNotNegative | stats/src/stats.rs:180-191 | Over all runs with a clock that does not go back, the average and the variance are never negative |
| EventPartition.SplitIsRight | netfetch/src/ca/conn.rs:1034-1050 | Partition and offset make up the timestamp if and only if the event rolls the partition over or is not older than its start; wrapping 64-bit arithmetic otherwise |
| EventPartition.SplitIff | netfetch/src/ca/conn.rs:1034-1063 | Over whole runs, with times in any order: event i is stored with its time if and only if it rolls the partition over or is not older than its start |
| EventPartition.Placed | netfetch/src/ca/conn.rs:1034-1063 | Over all events of a channel, with times in any order: each goes into the partition that is current afterwards, on the 10 s grid, which is announced exactly when it changes; the time is stored, and the offset below one hour, exactly under that guard; the partition is an earlier one exactly if a full one was left for an earlier grid point |
| EventPartition.AnnouncementsIncrease | netfetch/src/ca/conn.rs:1038-1043 | Announced partitions strictly increase, with times in any order, if and only if no event leaves a full partition for an earlier grid point |
| EventPartition.IndexIsComplete | netfetch/src/ca/conn.rs:1034-1063 | Without copies, with times in any order: every partition in use was announced with its first event or before, if and only if the first event is at 10 s of the epoch or later; and announced once, if no event leaves a full partition for an earlier one |
| EventCopies.CopiesAreAnnouncedIff | netfetch/src/ca/conn.rs:1065-1127 | With any configured copies and running numbers, and timestamps in any order: every stored item has a partition that was announced with it or before, if and only if no copy is stored of the first event (counter modulo m is l for no configured copy) |
| EventCopies.FirstEventIsLost | netfetch/src/ca/conn.rs:1097-1112 | The concrete failure: one copy per event, and an event of the year 2023 goes into partition 0, which is never announced, with its whole time as the offset |
| EventCopies.SecondIsLost | netfetch/src/ca/conn.rs:1034-1050 | If a copy of the first event is stored, the first item opens the right partition and the second one goes into partition 0 |
| EventCopies.InsertedComplete | netfetch/src/ca/conn.rs:1097-1125 | Later copies and events, with whatever times, always go into partitions that were announced |
| EventCopies.ItemsPerEvent | netfetch/src/ca/conn.rs:1097-1125 | Every event is stored once, with at most one item for each configured copy |
| EventCopies.CopiesAreEarlier | netfetch/src/ca/conn.rs:1097-1125 | The copies that are stored of an event are those whose modulus fits its running number, from the last to the first; copy i has a time i + 1 ns before the event, which comes last with its own, whatever the partitions are |
| EventCopies.StoredPlain | netfetch/src/ca/conn.rs:1097-1112 | Without copies the running numbers do not matter |
| EventOrder.OrderIff | netfetch/src/ca/conn.rs:1034-1063 | With times in any order: reading back by partition and offset is reading by time if and only if every event is stored with its time (the guard of SplitIff), and none is placed on the wrong side of one from before a full partition was left within its hour |
| EventOrder.InOrderIsRight | netfetch/src/ca/conn.rs:1034-1050 | In order implies that every event is stored with its time: otherwise it is read after the one that opened its partition |
| EventOrder.FitsIff | netfetch/src/ca/conn.rs:1034-1063 | Whether the next event keeps the order can be told before it is stored: from the current partition, and the places and times of the events so far |
| EventOrder.ForwardOrderIff | netfetch/src/ca/conn.rs:1034-1063 | As long as no full partition is left for an earlier one: in order if and only if every event is stored with its time and none is older than one from before a full partition was left |
| EventOrder.OldEventIsMisread | netfetch/src/ca/conn.rs:1034-1050 | The concrete failure with two events, the second 900 s older than the first: its offset wraps around 2^64, and it is read after the first |
| EventOrder.RolledFullBumps | netfetch/src/ca/conn.rs:1034-1043 | A full partition that is left within its hour, given by the guards of the branches, is one with an announcement of another one before the hour is over |
| EventOrder.SortedReadsInOrder | netfetch/src/ca/conn.rs:1034-1063 | In particular events in the order of their time are always read in order |
| EventOrder.StepBackIsMisread | netfetch/src/ca/conn.rs:1034-1036 | The other concrete failure, with every event stored with its time: 64000 events fill a partition, and an older event behind them is read last |
| EventPartition.OverfullSpansTenSeconds | netfetch/src/ca/conn.rs:1034-1039 | For events in the order of their time, a partition holds more than 64000 only if all of them lie within ten seconds |
| EventPartition.OverfullIsShort | netfetch/src/ca/conn.rs:1034-1039 | As long as no full partition is left for an earlier one: an event goes into a full partition only within ten seconds of its start |
| EventPartition.LeftWhenDone | netfetch/src/ca/conn.rs:1034-1045 | Likewise: a partition is left only when it is full, its hour is over, or it is the initial one |
| EventPartition.CounterIsRight | netfetch/src/ca/conn.rs:1042-1047 | Likewise: the counter is the number of events in the partition until the partition is full |
| EventInsert.Ema32.Update | stats/src/stats.rs:48-57 | The update in place is the one of the specification |
| EventInsert.IntervalEma.Tick | stats/src/stats.rs:180-191 | The first tick only sets the time, later ones update the average |
| EventInsert.IntervalEma.EmaPreview | stats/src/stats.rs:193-203 | The preview is the one of the specification |
| InsertRate.PreviewComesTrue | stats/src/stats.rs:193-203 | The preview is the average that a tick at that time brings about |
| EventInsert.CreatedState.EventAddInsert | netfetch/src/ca/conn.rs:1020-1063 | The item queued and the new counters are those of the specification |
| EventInsert.CreatedState.InsertCopies | netfetch/src/ca/conn.rs:1097-1125 | The loop over the copies, from the last to the first, then the event |
| EventInsert.CreatedState.DoEventInsert | netfetch/src/ca/conn.rs:1065-1127 | The tick, the next earliest time and the items |
| EventInsert.CreatedState.HandleEvent | netfetch/src/ca/conn.rs:1185-1246 | The gate: an early event changes nothing but the muted flag |
| EventInsert.GateAndPartition | netfetch/src/ca/conn.rs:1185-1246 | Gate and partitions do not influence each other: a run of both is a run of the gate on the arrival times, and of the partitions on the admitted events, with any copies |
| EventInsert.StoredAtBoundedRate | netfetch/src/ca/conn.rs:1185-1246 | So the rate bound holds for the events that are stored, each once and at most once more per configured copy |
| ZmtpWire.RoundTrip | ingest-bsread/src/zmtp/zmtpproto.rs:461-594 | For any list of non-empty messages with frames up to half the buffer, with commands inserted anywhere between frames, cut into chunks in any way: exactly those messages, and those commands, come out in order, and nothing is left over |
| ZmtpWire.CommandsDoNotDisturb | ingest-bsread/src/zmtp/zmtpproto.rs:513-594 | Commands change nothing in the assembly of multipart messages |
| ZmtpWire.AssembleDelivers | ingest-bsread/src/zmtp/zmtpproto.rs:568-594 | The data frames of the messages assemble to the messages |
| ZmtpWire.DrainFrame | ingest-bsread/src/zmtp/zmtpproto.rs:461-526 | Reading one encoded frame, whatever follows it |
| ZmtpWire.LargeFrameIsRefused | ingest-bsread/src/zmtp/zmtpproto.rs:493-512 | A frame that is longer than half of the buffer ends the connection before its body |
| ZmtpWire.ReadingProgresses | ingest-bsread/src/zmtp/zmtpproto.rs:69-84 | States that need no bytes cannot make the parser spin |
| Incremental.AnyChunking | ingest-bsread/src/zmtp/zmtpproto.rs:263-326 | A reader that consumes what its state needs cannot see how its input was cut into chunks |
| Zmtp.Zmtp.ParseItem | ingest-bsread/src/zmtp/zmtpproto.rs:380-594 | One step consumes exactly need_min bytes, no read is short, no write is refused in the handshake, and fields, result and output are those of the specification |
| Zmtp.Zmtp.ParseAnswering | ingest-bsread/src/zmtp/zmtpproto.rs:383-420 | The two greeting states that send |
| Zmtp.Zmtp.ParseChecking | ingest-bsread/src/zmtp/zmtpproto.rs:389-431 | The greeting states that check a byte |
| Zmtp.Zmtp.ParseMechanism | ingest-bsread/src/zmtp/zmtpproto.rs:432-460 | The end of the greeting: the mechanism must be NUL-terminated UTF-8; READY is sent (what it says is in ReadyTellsType) |
| Zmtp.Zmtp.ParseFlags | ingest-bsread/src/zmtp/zmtpproto.rs:461-492 | A command leaves the more-flag of the message under assembly alone |
| Zmtp.Zmtp.ParseLength | ingest-bsread/src/zmtp/zmtpproto.rs:493-512 | A frame above half the capacity is refused; both length forms |
| Zmtp.Zmtp.ParseBody | ingest-bsread/src/zmtp/zmtpproto.rs:513-594 | A body ends a frame, a message, or a command |
| Zmtp.Zmtp.ReplyToPing | ingest-bsread/src/zmtp/zmtpproto.rs:523-552 | PONG and PING are queued exactly when there is room for them, and none of the puts fails |
| Zmtp.RepliesAreCommandFrames | ingest-bsread/src/zmtp/zmtpproto.rs:533-550 | Both replies are well-formed command frames: their length byte is right |
| Zmtp.PingIsAnswered | ingest-bsread/src/zmtp/zmtpproto.rs:523-541 | A command is answered exactly if it is a PING with a time to live of two bytes and a context of at most 25; the answer is a PONG with the context |
| Zmtp.OwnPingIsMisread | ingest-bsread/src/zmtp/zmtpproto.rs:542-552 | The PING that is sent has no time to live, so a peer takes the first two letters of its context for one |
| Zmtp.Zmtp.ReadInput | ingest-bsread/src/zmtp/zmtpproto.rs:263-326 | There is always room for what the state needs, so every read takes at least a byte |
| Zmtp.Zmtp.WriteOutput | ingest-bsread/src/zmtp/zmtpproto.rs:230-254 | A partial write moves exactly the written bytes out of the buffer |
| Zmtp.Zmtp.ParseRound | ingest-bsread/src/zmtp/zmtpproto.rs:312-325 | The parse part of a round takes the machine one step, yields its event, lowers a measure, and adds to the output what the step sends or the replies |
| Zmtp.Zmtp.LoopBody | ingest-bsread/src/zmtp/zmtpproto.rs:212-378 | A round writes, reads if there is not enough to parse, and parses if there is enough then; it takes the machine on by exactly the bytes it read, makes progress by a measure, and what it sends and holds back is what was held back followed by what the step and its replies add |
| Zmtp.Zmtp.PollInput | ingest-bsread/src/zmtp/zmtpproto.rs:742-764 | The poll loop, for reads and writes of sizes that vary from one to the next and can be not ready: it ends where the specification ends on what was read, with the same events; with enough reads that is all; what is sent and held back is what was held back before, followed by exactly what the steps emitted and the replies to PINGs |
| Zmtp.AddedMore | ingest-bsread/src/zmtp/zmtpproto.rs:212-378 | What two stretches of a run add to the output is what the first adds, then what the second adds |
| Zmtp.EmitToBuffer | ingest-bsread/src/zmtp/zmtpproto.rs:658-670 | Succeeds if and only if all frames fit, and then appends their encoding; otherwise it appends a prefix of it |
| ZmtpHandshake.HandshakeCompletes | ingest-bsread/src/zmtp/zmtpproto.rs:382-460 | Two peers over two FIFO channels, under any schedule and any sizes of reads and writes: a run has at most 736 actions, and it can stop only where what each end has written reads, by the grammar, as a greeting of version 3.1 with mechanism NULL and a READY that tells its own socket type, each has been shown one command that reads as the other's READY, and all buffers are empty |
| ZmtpGreeting.ReadyTellsType | ingest-bsread/src/zmtp/zmtpproto.rs:447-456 | The READY of a socket, read by a grammar of its own, has one property: Socket-Type, PUSH or PULL, the type of the sender |
| ZmtpGreeting.ScriptIntroduces | ingest-bsread/src/zmtp/zmtpproto.rs:382-456 | So is the whole introduction: signature, version 3.1, mechanism NULL, not a server, filler, and a command frame with that READY |
| ZmtpGreeting.GreetingAcceptedIff | ingest-bsread/src/zmtp/zmtpproto.rs:389-460 | Any 64 bytes are accepted as a greeting if and only if the first is 0xff, byte 9 is odd, the version is 3.0 or 3.1, and the mechanism is text that ends within its 20 bytes; the reader then waits for frames, knows the version, and has introduced itself |
| Utf8.TextIff | ingest-bsread/src/zmtp/zmtpproto.rs:442-442 | The test for text holds exactly of the encodings of Unicode characters by RFC 3629 |
| ZmtpHandshake.SendsItsScript | ingest-bsread/src/zmtp/zmtpproto.rs:382-460 | At any point of any run, the bytes that an end has written, with those it still holds back, are the part of its script that it has come to |
| ZmtpHandshake.NeverStuck | ingest-bsread/src/zmtp/zmtpproto.rs:382-460 | There is no state without an action before both are done |
| ZmtpHandshake.ActKeepsInv | ingest-bsread/src/zmtp/zmtpproto.rs:382-460 | What one peer sent, is under way, and was read is always its script: a 64-byte greeting and a READY command; no action ends the connection, and each lowers the weight |
| ZmtpHandshake.StepOnScript | ingest-bsread/src/zmtp/zmtpproto.rs:382-526 | Parsing the next part of the other script succeeds and sends the next part of the own one |
| CaProto.CaProto.PumpOutput | netfetch/src/ca/proto.rs:1017-1055 | Written, then buffered, then queued is always all that was pushed, in order; the pump stops early only because the socket did, and if each of enough attempts takes a byte everything goes out |
| CaProto.CaProto.FillOutbuf | netfetch/src/ca/proto.rs:1021-1045 | Moving messages into the buffer changes nothing in what is still to be sent, and an empty buffer takes at least one |
| CaProto.CaProto.AttemptOutput | netfetch/src/ca/proto.rs:995-1015 | A partial write moves exactly the written bytes out of the buffer |
| CaProto.CaProto.WriteOut | netfetch/src/ca/proto.rs:1017-1055 | Written bytes then buffered bytes are what was buffered; it ends with an empty buffer, or where the socket is not ready |
| CaProto.PlaceInto | netfetch/src/ca/proto.rs:625-655 | Header and payload are written in place, everything around them is untouched |
| CaProto.PlacePayloadInto | netfetch/src/ca/proto.rs:521-617 | The payload in place, padded with zeros |
| CaProto.FromNetbuf | netfetch/src/ca/proto.rs:895-911 | Reads a header if and only if there are 16 bytes, and then exactly those |
| CaWire.SplitInvertsEncode | netfetch/src/ca/proto.rs:895-911 | Splitting a concatenation of encoded messages gives back their headers and payloads |
| CaWire.EncodeInvertsSplit | netfetch/src/ca/proto.rs:895-911 | And the pieces that any bytes are split into, with the rest, are those bytes |
| CaWire.RequestsSurvive | netfetch/src/ca/proto.rs:397-617 | Cutting the bytes of any requests at their headers yields exactly those requests, for a reader that checks every number of their headers, the mask of a subscription, the client name and the padding, and leaves an incomplete message behind them whole |
| CaWire.EncodableIff | netfetch/src/ca/proto.rs:625-629 | Which messages can be sent: names up to 16367 bytes, host names up to 24 |
| CaWire.DecodeEncodeHead | netfetch/src/ca/proto.rs:625-655 | Decoding inverts encoding of the header |
| CaWire.HeadBytes | netfetch/src/ca/proto.rs:895-911 | The fields of a header are the numbers in network order at their places |
| CaReading.AnyMessagesAnyChunks | netfetch/src/ca/proto.rs:1115-1185 | The framing: messages with standard headers, in any chunks, are cut apart as they were sent |
| CaReading.AnyAnswersAnyChunks | netfetch/src/ca/proto.rs:1115-1185 | Reading and decoding: in any chunks, the decoded messages come out in order until one is refused, then the refusal and nothing more |
| CaReading.ExtendedArrivesIff | netfetch/src/ca/proto.rs:1140-1183 | A message with an extended header arrives if and only if it is empty or has 65535 bytes, whatever follows: the size in the extended header is not kept |
| CaReading.DecodingFollows | netfetch/src/ca/proto.rs:1115-1185 | Decoding each message as it is complete is reading all and then decoding up to the first refusal |
| CaReading.OutcomesAre | netfetch/src/ca/proto.rs:1115-1185 | The outcomes are those of the messages one by one, all but the last are decoded, and the last is a refusal exactly if there is one |
| CaReading.HeaderAnswersArrive | netfetch/src/ca/proto.rs:1115-1185 | Answers that consist of a header arrive, over any chunks, as the messages that were sent |
| CaReading.ReadingProgresses | netfetch/src/ca/proto.rs:930-940 | The reader cannot spin on an empty payload |
| CaProto.CaProto.ParseItem | netfetch/src/ca/proto.rs:1115-1185 | One step consumes exactly what the state needs, is the step of the specification, and at a message that is refused yields the error and keeps the state, with the bytes consumed |
| CaProto.CaProto.ReadInput | netfetch/src/ca/proto.rs:1056-1102 | A 16-bit payload size always leaves room, so every read takes at least a byte |
| CaProto.CaProto.InputRound | netfetch/src/ca/proto.rs:1056-1112 | A round takes the machine on by exactly the bytes it read, and makes progress; at a refusal the machine stops there too, and exactly the bytes of that step are gone |
| CaProto.CaProto.PollInput | netfetch/src/ca/proto.rs:1188-1208 | The poll loop, for reads of sizes that vary from one to the next and can be not ready: it ends where the specification ends on what was read, at the first refusal or when no more is to be had, with the same outcomes; with enough reads that is all of the input |
| CaDecode.EventSurvives | netfetch/src/ca/proto.rs:775-841 | By the offsets, widths and ranges of the specification for each type number: an event comes out with status, severity, time and values as the server put them in, whatever the fill bytes are and whatever follows; an array is cut at the limit, an enumeration comes out as an integer, and an array of those is refused |
| CaDecode.TextSurvives | netfetch/src/ca/proto.rs:666-677 | An event of a string channel comes out with its text up to the terminating NUL |
| CaDecode.ScalarDecoded | netfetch/src/ca/proto.rs:657-681 | Any payload of a scalar event with a time stamp: the number at the offset and of the width that its type number has, in two's complement, or refused exactly if the payload ends before |
| CaDecode.WaveDecoded | netfetch/src/ca/proto.rs:682-697 | Any payload of an array event: the numbers in their places, as many as count, limit and payload admit |
| CaDecode.DoubleExample | netfetch/src/ca/proto.rs:801-811 | The number 1.5, byte for byte |
| CaDecode.RefusedIff | netfetch/src/ca/proto.rs:698-872 | Which messages are refused with which error, in terms of the header, the shape and the length of the payload |
| CaDecode.OtherAnswersSurvive | netfetch/src/ca/proto.rs:698-872 | All other answers come out with the fields they were sent with; an error message without the first byte of its text |
| CaDecode.ConvertWave | netfetch/src/ca/proto.rs:598-614 | The loop decodes the first min(n, length / width) values |
| CaDecode.AskedTypeHasTime | netfetch/src/ca/proto.rs:158-188 | The type a connection asks for is the time-stamped form of the channel's own, for exactly the plain types |
| CaDecode.HeaderAnswersSurvive | netfetch/src/ca/proto.rs:426-519 | Answers that are only a header survive encoding and decoding, except that a version is written to one field and read from another |
| CaDecode.PanicsIff | netfetch/src/ca/proto.rs:703-841 | The slices of a payload are in range except for an error message of 17 bytes, and an event that has its 12 bytes of status and time, but ends before the offset of its value |
| CaDecode.EventTimesFit | netfetch/src/ca/proto.rs:822-822 | Every event time is at the epoch of Channel Access or later, and the end of its hour fits 64 bits |
| CaDecode.EveryPartitionIsAnnounced | netfetch/src/ca/proto.rs:822-822 | So for whatever times a peer sends, in whatever order, the index of partitions is complete, exactly if no copy is stored of the first event; without copies it always is |
| SlideBuffer.SlideBuf.Rewind | slidebuf/src/slidebuf.rs:272-277 | Moving the data to the front does not change it |
| SlideBuffer.SlideBuf.RewindIfNeeded | slidebuf/src/slidebuf.rs:279-287 | Nor does the conditional move |
| SlideBuffer.SlideBuf.Adv | slidebuf/src/slidebuf.rs:84-92 | Skipping succeeds if and only if the bytes are there |
| SlideBuffer.SlideBuf.Wadv | slidebuf/src/slidebuf.rs:94-105 | After writing x bytes behind the cursor, with room for them, advancing appends exactly them and moves nothing |
| SlideBuffer.SlideBuf.SetRp | slidebuf/src/slidebuf.rs:111-119 | The read cursor can be set up to the write cursor |
| SlideBuffer.SlideBuf.RewindRp | slidebuf/src/slidebuf.rs:121-129 | Going back n bytes makes the last n bytes readable again |
| SlideBuffer.SlideBuf.ReadBe | slidebuf/src/slidebuf.rs:131-181 | A big-endian read of 1, 2, 4 or 8 bytes succeeds if and only if they are there |
| SlideBuffer.SlideBuf.ReadBytes | slidebuf/src/slidebuf.rs:235-244 | Likewise for a slice |
| SlideBuffer.SlideBuf.AvailableWritableArea | slidebuf/src/slidebuf.rs:289-301 | Succeeds if and only if length + n <= capacity, and then there is room for n; the data is unchanged |
| SlideBuffer.SlideBuf.PutSlice | slidebuf/src/slidebuf.rs:303-316 | Succeeds if and only if it fits, then appends; otherwise changes nothing |
| SlideBuffer.SlideBuf.PutBe | slidebuf/src/slidebuf.rs:318-384 | Likewise for a big-endian integer |
| BufferFifo.ReadsInvertPuts | slidebuf/src/slidebuf.rs:131-181 | Reads invert the matching puts in order, across any interleaving of puts and reads |
| BufferFifo.RunOps | slidebuf/src/slidebuf.rs:131-181 | Running puts and reads on the buffer yields the results that the reference run of the bytes gives |
| Bytes.DecodeEncode | slidebuf/src/slidebuf.rs:318-384 | A big-endian integer survives if and only if it fits its width |
| Bytes.InNetworkOrder | slidebuf/src/slidebuf.rs:318-384 | The most significant byte comes first |
| PatchState.Conserves | netfetch/src/patchcollect.rs:42-114 | Over any items: emitted patches followed by the pending bins are all bins from the first start of a patch on; the collector is locked if and only if there was one |
| PatchState.PatchesAligned | netfetch/src/patchcollect.rs:61-77 | For bins on the grid every patch starts and ends at patch edges, holds a positive multiple of the bin count, and begins where the one before ends |
| PatchState.ExactIff | netfetch/src/patchcollect.rs:90-100 | All patches have exactly the bin count if and only if no item holds more than one patch end |
| PatchState.IngestEmits | netfetch/src/patchcollect.rs:42-114 | One item emits one patch of as many patch lengths as it has patch ends, or nothing |
| PatchState.TakenIsWhole | netfetch/src/patchcollect.rs:90-108 | What stays pending is always less than one patch |
| PatchCollection.PatchCollect.FindEdges | netfetch/src/patchcollect.rs:57-79 | The scan finds the first start while not locked, the last end while locked |
| PatchCollection.PatchCollect.Ingest | netfetch/src/patchcollect.rs:42-114 | The loop ends after at most four rounds, so the error for too many is unreachable, and does what the specification does |
| PatchCollection.StorePatch | netfetch/src/timebin.rs:178-208 | One stored item per patch up to the first one without bins, where it would fail |
| PatchState.PatchesHaveBins | netfetch/src/timebin.rs:178-185 | There is never a patch without bins, so storing never fails |
| PatchState.OffsetIff | netfetch/src/timebin.rs:187-189 | The start of a patch can be computed from the stored offset if and only if it is a patch edge and the offset fits 32 bits |
| PatchState.SizesIff | netfetch/src/timebin.rs:190-197 | Bin length and bin count can be read back from what is stored if and only if the length is whole seconds and both fit 32 bits |
| PatchState.OffsetsFollow | netfetch/src/timebin.rs:187-197 | Stored offsets lead from one patch to the next, by one for an exact patch |
| ChannelSweep.CountIsTrue | netfetch/src/ca/connset.rs:751-868 | The running count is at all times the number of pending searches, and never rises above the maximum or where it was |
| ChannelSweep.EachMovesOnce | netfetch/src/ca/connset.rs:762-861 | Each channel that is looked at moves once, by a table in plain numbers: 5 s for the series id, 2 s without a search as long as fewer than 1024 are pending at its turn, 30 s for a search, 20 s without an address; it stays otherwise |
| ChannelSweep.TickPosition | netfetch/src/ca/connset.rs:754-759 | Tick t of a sweep starts at channel 10000 t |
| ChannelSweep.CursorAdvances | netfetch/src/ca/connset.rs:862-865 | The cursor strictly advances, or the sweep is through |
| ChannelSweep.StopsIff | netfetch/src/ca/connset.rs:765-767 | A tick is stopped if and only if a channel of its batch is in Init |
| ChannelSweepRuns.SweepVisitsAll | netfetch/src/ca/connset.rs:751-868 | n channels are all visited within n / 10000 ticks, rounded up, if and only if none is in Init at the start, and none that is last in one tick and first in the next, with another one behind it, waits too long for its series id at the former |
| ChannelSweepRuns.SweepGoesThrough | netfetch/src/ca/connset.rs:751-868 | The ticks of a sweep get by without the `todo!()` if and only if none is in Init at the start and none between two ticks waits too long, the last one included |
| ChannelSweepRuns.SweepMovesAll | netfetch/src/ca/connset.rs:751-868 | A sweep that gets through moves every channel by that table exactly once, at the time of its tick; only those between two ticks are looked at twice |
| ChannelSweepRuns.TicksAre | netfetch/src/ca/connset.rs:751-868 | The state after t ticks: the channels behind the cursor are as they were, and the one at the cursor is in Init exactly if it waited too long |
| ChannelSweepRuns.TimeoutStopsTheSweep | netfetch/src/ca/connset.rs:765-774 | The concrete failure: 10002 channels wait for their series ids for six seconds, none is in Init, and the second tick runs into the `todo!()` |
| ChannelSweepRuns.InitStays | netfetch/src/ca/connset.rs:765-767 | A channel that is in Init stays there: no tick gets past it |
| ChannelSweepRuns.SweptKeeps | netfetch/src/ca/connset.rs:751-868 | Over any ticks, stopped or not, the channels stay the same and the number of pending searches keeps its bound |
| ChannelSweep.CaConnSet.UpdateChannelStateCounts | netfetch/src/ca/connset.rs:870-917 | Each of the counts is the number of channels in its states, and together they are all channels |
| ChannelSweep.CaConnSet.CheckOne | netfetch/src/ca/connset.rs:763-861 | One visit, with all branches |
| ChannelSweep.CaConnSet.CheckChannelStates | netfetch/src/ca/connset.rs:751-868 | One tick on the fields is the tick of the specification, the cursor and the stop at a channel in Init included |

## Left out

- Sockets, tokio, wakers, `Pin`, HTTP, logging, metrics, configuration, and everything for Scylla and Postgres: replaced by inputs of the steps.
- The items that `loop_body` in zmtpproto.rs takes from its output channel: it drops them.
- LockScan in zmtpproto.rs: it is not entered from the other states.
- The debug rings of both protocol objects, kind-number tables and netbuf.rs, a weaker twin of the sliding buffer: easy or unused.
- Back-off times: when to connect again is an input.
- Messages that `place_into` panics on (responses with data, host names over 24 bytes, payloads over 0x4000 - 16): excluded by `Encodable`.
- The text of an error message, and the string of a client name, as `from_proto_infos` formats them: kept as the bytes they are made from. That the connection drops the protocol object after an error is in `ConnLifecycle`; the object itself keeps its state, as in the source.
- `Shape::from_ca_count` is not part of this model: the shape is an input of the decoder. Values of floats are their bit patterns, and texts are their bytes.
- Server messages for ids that were never given out, and events for removed channels: the code unwraps there, so they are excluded by `Answerable`.
- The exhaustion of 32-bit ids: runs of a connection take fewer than 2^32, and the search engine takes ids that are not in use (`FreshIds`).
- The first datagram of the search engine, 1024 zero bytes, is modelled as those bytes and means nothing to the schedule.
- `insert_queue_max`, the time binners of a connection, the alive statistics and `Ivl` items: they do not take part in the properties.
- That every queued item is yielded before the end of the stream: the code does not check the insert queue there, so it is not claimed.
- `ts_msp_grid` in `do_event_insert`: an optional marker on the item.
- Overflow of the time of the next insert: only for averages of centuries.
- Rounding of single precision in the moving average.
- A bin that is not on the grid: the patches are conserved for any bins, and aligned for consecutive bins of one length.
- Patches of containers other than `BinsDim0<f32>`: an error in the source before anything is stored.
- The statistics counters that `update_channel_state_counts` stores: their values are results of the method.
- ZmtpHandshake.HandshakeCompletes: does not model a peer that fails or sends something else, because the handshake of two instances of this machine is meant.
- InsertRate.RateBound: does not bound the rate between two arbitrary inserts, because after a pause the average is high and lets a burst through; the bound counts from the first insert.
- The receive buffer of 1024 bytes is modelled; the check for more than 2048 bytes behind it is dead, and the failing of the system calls is an input of the poll round.
- EventOrder.OrderIff: for times up to one hour before the end of the 64-bit range, which all times of Channel Access are (`EventTimesFit`).
- EventCopies.CopiesAreAnnouncedIff: for at most one hour less ten seconds, in nanoseconds, of configured copies, because beyond that one copy may be an hour earlier than the next; such a list would take 57 terabytes.
