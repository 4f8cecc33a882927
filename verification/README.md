# Verification of a Mininet experiment runner

The repository builds small multipath networks with Mininet, shapes their links with `tc`, configures addresses and
policy routes, and runs traffic programs over them. This project models its six small engines in Dafny and proves
what they keep, over every run and every input:

* **The Siri protocol.** `SiriProtocol` has the bytes of queries and replies, `SiriServer` the receive loop of one
  connection, `SiriClient` the packetiser and the client object. `SiriServing` and `SiriFraming` prove the
  reassembly over every chunking. `SiriSystem` interleaves sender thread, reader thread, server and clock over two
  byte channels; `SiriWindow` and `SiriDelays` prove the window law and when the reported delays are true.
* **The Msg protocol.** `MsgServer` and `MsgClient` are the two loops and what they yield, `MsgSystem` their
  composition over two channels, whose client is shown to be that of `MsgClient`, `MsgProgress` the exact condition for it
  to finish. `ThreadRegistry` is the thread bookkeeping that both
  servers share, as interleaved steps of the accept loop and any number of handlers.
* **Topology against configuration.** `TopoBuilder` states the builder's contract (ports of hosts from 0, of switches
  from 1, each link the next port of both ends). `MultiInterface`, `Wiring` and `InterfaceNaming` construct the network
  and prove what each computed interface name faces and which ports share a LAN. `Routing` gives the meaning of the
  commands as data, `MultiInterfaceConfig` is the configuration, `PathSeparation` proves over the network built that
  traffic between address i and address j uses links i and j, and `NeighbourEntries` that the static ARP entries name
  the ports at the other side. `MultiClientTopo`, `MultiClientConfig`,
  `MultiClientAddresses` and `MultiClientTraffic` do the same for the multi-client extension. `Diagram` is the picture.
* **The configuration pipeline.** `Parameters` is the line parser with its multi-value dictionary, `TopoParameters`
  the printer from the YAML tree and the key and number parsers, `StringOrder` Python's `sorted`, `ConfigRoundTrip`
  the round trip, `LinkOrder` the order in which links are loaded.
* **Schedules, queueing disciplines, buffers.** `Schedule` has the delta encoding in both implementations and the
  meaning of the generated `sleep … && …` chains, `Bottleneck` the placement of netem and tbf and its timed
  replacement on the clock of those chains, `BufferSize` the arithmetic over exact reals.
* **Kernel settings.** `Sysctl` is the save, write, restore transaction over three namespaces.

`Text` holds strings as the repository uses them: decimals, `split`, `strip`, `int`.

Objects that the source updates in place are classes here, each method proved against a function; the properties are
proved of these functions. Threads and network are state machines whose actions may come in any order.

## Main results

The rows of the table below that the others build up to:

* Siri: `SiriFraming.ServedUnderEveryChunking`, `SiriClient.PacketsSpellQuery`, `SiriClient.EveryDrawIsSound`,
  `SiriSystem.ServerReadsQuery`, `SiriWindow.ReachableInv`, `SiriDelays.WindowIsExact`, `SiriDelays.DelaysAreTrue`,
  `SiriDelays.DelaysAreMeasured`, `SiriDelays.RepliesInOrder`, `SiriDelays.QuietMeansSettled`.
* Msg and threads: `MsgServer.Framing`, `MsgServer.DelaysOfReplies`, `MsgServer.NoBacklog`, `MsgClient.DelaysOfAnswered`,
  `MsgSystem.SystemRunsTheClient`, `MsgProgress.NeverStuck`, `MsgProgress.EveryRunFinishes`,
  `ThreadRegistry.EveryRunIsBookkept`.
* Topology: `InterfaceNaming.WiringMatchesNames`, `InterfaceNaming.LansArePairs`, `PathSeparation.PathsAreSeparate`,
  `NeighbourEntries.EveryEntryNamesItsPeer`,
  `MultiClientConfig.PortFormula`, `MultiClientAddresses.AddressesDistinct`, `MultiClientAddresses.ArpEntriesNamePeers`,
  `MultiClientTraffic.FlowsUseTheirLinks`, `Diagram.DrawsEveryLink`.
* Configuration: `Parameters.DictionaryIsMultimap`, `ConfigRoundTrip.RoundTrip`,
  `ConfigRoundTrip.LoadingStopsExactly`, `LinkOrder.YamlIndexIsId`.
* Schedules, disciplines, buffers: `Schedule.AcceptsExactlyTheRecords`, `Schedule.ChainKeepsTheTimetable`,
  `Bottleneck.PlacedBothWays`, `Bottleneck.PlacementAtTime`, `BufferSize.BufferHoldsRoundTripAndQueue`.
* Kernel settings: `Sysctl.ParametersInForce`, `Sysctl.Transaction`, `Sysctl.RestoredExactly`, `Sysctl.IperfScenarioIsUndone`.

The other rows are the operations, each with its specification, and the steps of these proofs.

## Where the code falls short of what it is meant for

Each of these is proved as an if-and-only-if, with the failing side constructed for all inputs beyond the condition.

* A Siri query, other than the first, shorter than the server's 512-byte `recv` can arrive glued to the newline of
  the query before; the handler then takes both for one oversized query and closes (`utils/siri_server.py:56-63`).
* The ring of 100 sent times is overwritten while its entries are still needed unless the window check refuses at some
  number of outstanding queries up to 100 (`utils/SiriClient.java:152-156`, `utils/SiriClient.java:274`). While
  QUERY_SIZE * (BUFFER_SIZE + 1) fits a Java int that means BUFFER_SIZE < 100. Beyond it counter and product wrap: with
  QUERY_SIZE 21600000 and BUFFER_SIZE 99 the check never refuses again, with 21500000 and 100 no query is ever sent.
* With MAX_PAYLOAD_SIZE below twice MIN_PAYLOAD_SIZE almost every query size has draws that throw
  (`utils/SiriClient.java:97-117`).
* The Msg server answers at most once per `recv`. With a size below 2048 that is not the client's own size, or one that
  does not divide it, the two wait for each other for ever (`utils/msg_server.py:51-61`).
* Links are loaded in the order of their keys as text, so from eleven paths on address and interface index i no longer
  belong to path i (`core/topo.py:236`).
* Routing table numbers are the link index plus one, without regard to the kernel's own tables. Tables 253 and 254 do
  no harm; table 255 is the local table, which comes before every rule, so with 255 links on a side all its traffic
  takes one link (`core/topo.py:597-605`).
* In the multi-client extension the router port and the address of server k are computed as if the router had at most
  one link to the base server (`topos/multi_interface_multi_client.py:75-86`).
* With more than 256 links on a side the later addresses are not valid, nor are their static ARP entries
  (`topos/multi_interface.py:235-256`).
* A path key that is repeated, or has bandwidth 0, stops the program, although unusable lines are meant to be ignored
  (`core/topo.py:236-247`).
* While a bottleneck changes, a direction has two disciplines of one kind between the start of its two chains; after
  the change delay and rate have changed switches (`core/topo.py:327-344`).
* The picture of a topology with links on one side only shows one on the other (`topos/multi_interface.py:43-48`).

Where the code and its own comments differ, the model follows the code: the comment on `BottleneckLink`
(`core/topo.py:255-269`) puts shaping on bs1 and delay on bs2, which holds only after the first timed change. The
uniqueness of link type and id (`core/topo.py:196-197`) is stated there but not enforced, and is a precondition of the
wiring results.

## Model

| member | source | states |
|---|---|---|
| `SiriProtocol.MessageShape` | utils/SiriClient.java:140-204 | a query is exactly QUERY_SIZE bytes, begins with its header, and its only newline is its last byte |
| `SiriProtocol.SplitMessagePrefix` | utils/siri_server.py:67-73 | every piece of a query that reaches past its header splits at `&` into the header's fields and one further part |
| `SiriProtocol.SplitPartial` | utils/siri_server.py:67-73 | every proper prefix of the header splits into whole fields and a start of the next one |
| `SiriProtocol.LeadingFieldsAreShort` | utils/siri_server.py:9-10 | the four fields before the delay count stay within 44 bytes for Java ints, so the 128-byte rule never parses a cut count |
| `SiriProtocol.ReplyShape` | utils/siri_server.py:97 | a reply has RESPONSE_SIZE bytes, or two more than the id's digits when that is more, and one newline, at its end |
| `SiriServer.ClientConnection.Receive` | utils/siri_server.py:48-110 | one turn of the receive loop: cut at a newline inside the chunk, wait for the header, read it, answer, wait or give up |
| `SiriServer.ClientConnection.ReadHeader` | utils/siri_server.py:70-92 | the header branch: the delay count decides whether the fields are used; a changed MAC ends the loop; an unusable number crashes |
| `SiriServer.ClientConnection.TakeFields` | utils/siri_server.py:74-89 | id, sizes, waiting time and sent time are taken before the MAC check, the delays after it |
| `SiriServer.ClientConnection.ReadDelays` | utils/siri_server.py:87-88 | the delay fields are read in order, and one that is no number stops the reading |
| `SiriServer.ClientConnection.Conclude` | utils/siri_server.py:94-110 | reply and continue with what was set aside when the size is met, break when it is exceeded, otherwise wait |
| `SiriServer.ClientConnection.Run` | utils/siri_server.py:48-110 | the loop over all chunks, ended by the close, either break, or a crash |
| `SiriServing.ReadPartialHeader` | utils/siri_server.py:67-73 | an incomplete header that passes the first test is recognised as unfinished, never misread |
| `SiriServing.HeaderTurn` | utils/siri_server.py:67-110 | every outcome of a turn that starts with a header, conditions and effects written out: wait, crash, break on a changed MAC, or take the header and then answer after the waiting time, give up or wait |
| `SiriServing.LogsInFull` | utils/siri_server.py:40-89 | the logs hold each query's sent time in order, its delays behind those before it, and the first MAC |
| `SiriServing.SpillIsStartOfNext` | utils/siri_server.py:56-63 | what is cut off behind a newline is a start of the next query, when the chunk does not run past that one |
| `SiriServing.StepKeepsLoopHead` | utils/siri_server.py:48-110 | invariant of the loop head: answered queries in order with their logs, nothing set aside, the buffer a proper start of the next query; kept by every chunk that completes at most one query |
| `SiriFraming.ServeKeepsLoopHead` | utils/siri_server.py:48-110 | over every run: the bytes received are those of the queries answered so far followed by the buffer |
| `SiriFraming.GluedQueryIsRefused` | utils/siri_server.py:56-63 | a newline glued to the whole next query closes the connection: why 512 is needed |
| `SiriFraming.ServedUnderEveryChunking` | utils/siri_server.py:48-110 | for every list of queries of one client: all are answered in order under every chunking of at most 512 bytes, without oversize, MAC break or crash and ending with empty buffers, if and only if every query but the first is at least 512 bytes |
| `SiriClient.NextRemainder` | utils/SiriClient.java:97-117 | the size drawn lies between the bounds and leaves nothing or at least the minimum |
| `SiriClient.EverySizeIsDrawn` | utils/SiriClient.java:88-117 | the sizes that can be drawn are exactly those between MIN and MAX, up to MAX - MIN when more would leave less than MIN, and the whole remainder when it is at most MAX |
| `SiriClient.FillingPacketsFit` | utils/SiriClient.java:177-198 | the loop never throws, and every packet behind the first lies between the bounds |
| `SiriClient.FillingPacketsEnd` | utils/SiriClient.java:177-198 | the loop ends within remaining / MIN turns |
| `SiriClient.PacketsSpellQuery` | utils/SiriClient.java:140-204 | for any draws the packets concatenate to header, filling and one newline, QUERY_SIZE bytes in all, in at most QUERY_SIZE / MIN packets |
| `SiriClient.EveryDrawIsSound` | utils/SiriClient.java:97-204 | for all sizes with MIN >= 1: every random choice gives a well-formed query if and only if, with 2 * MIN <= MAX, QUERY_SIZE > MAX and the header is at most MIN or leaves at least MIN; with MIN = MAX, MIN divides what the first packet leaves; with MIN < MAX < 2 * MIN, every first packet leaves MIN to MAX bytes, or the only possible one leaves MAX + MIN; with MIN > MAX, never |
| `SiriClient.SpoilRemainder` | utils/SiriClient.java:97-117 | with MIN < MAX < 2 * MIN: draws that make the loop throw from any remainder other than MIN to MAX and MAX + MIN |
| `SiriClient.FillingPacketsSpell` | utils/SiriClient.java:178-198 | whatever the sizes and draws, a loop that does not throw spells exactly the filling and the newline |
| `SiriClient.ReplyRoundTrip` | utils/SiriClient.java:304-308 | the id parsed from a reply line is the id of the query answered |
| `SiriClient.ParseIntReads` | utils/SiriClient.java:308 | decimals with or without sign are read exactly within the range of a Java int |
| `SiriClient.ParseIntRefuses` | utils/SiriClient.java:308 | and nothing but digits with an optional sign is read |
| `SiriClient.Client.constructor` | utils/SiriClient.java:60-77 | initial counters, empty delays, a ring of 100 sent times |
| `SiriClient.Client.SendMessage` | utils/SiriClient.java:140-204 | stamps the slot, advances the id modulo 100, writes the packets of the query whose start is id, QUERY_SIZE, RESPONSE_SIZE, DELAY_QUERY_RESPONSE, 0, time and MAC, and counts exactly their bytes, in 32-bit arithmetic |
| `SiriClient.HeaderText` | utils/SiriClient.java:153-155 | the start of the query the system issues: id, QUERY_SIZE, RESPONSE_SIZE, DELAY_QUERY_RESPONSE, 0, time and MAC, each followed by `&` |
| `SiriClient.Client.SendFilling` | utils/SiriClient.java:178-198 | the loop over the remainder writes and counts the same packets as the specification |
| `SiriClient.Client.TakeReply` | utils/SiriClient.java:304-316 | records the delay of the slot named by the reply and takes QUERY_SIZE off the 32-bit counter; fails on a line without a usable id |
| `SiriSystem.QueriesAreWellFormed` | utils/SiriClient.java:152-157 | every header the client builds is at most 84 bytes, so its query meets the server's and the packetiser's conditions |
| `SiriSystem.ServerReadsQuery` | utils/SiriClient.java:153-155 | the bytes sent, split at `&` as the server does, are the client's id, QUERY_SIZE, RESPONSE_SIZE, DELAY_QUERY_RESPONSE, time and MAC without delays; under every chunking the server answers with id and zeros up to RESPONSE_SIZE after that delay |
| `SiriWindow.PacketIsStartOfUnsent` | utils/SiriClient.java:157-197 | each packet written is the next piece of the query being sent, and what remains is the rest of it |
| `SiriWindow.FirstReplyIsRead` | utils/SiriClient.java:304-308 | the line the reader takes is the reply to the oldest query whose reply it has not read |
| `SiriWindow.StepKeeps` | utils/SiriClient.java:152-316 | every step of sender, reader, server and clock keeps the invariant: history, sender position, the counter's law in 32-bit arithmetic, no query beyond what the check lets pass, no byte lost on either channel, replies in order |
| `SiriWindow.ReachableInv` | utils/SiriClient.java:152-316 | hence it holds in every reachable state of every interleaving |
| `SiriDelays.WindowLaw` | utils/SiriClient.java:266-279 | the counter is QUERY_SIZE times the queries outstanding, less what is unwritten or uncounted, in 32-bit arithmetic; never more queries are outstanding than a number at which the check refuses; no thread fails and the server never breaks off |
| `SiriDelays.WindowIsExact` | utils/SiriClient.java:274-279 | at most n queries are ever outstanding if and only if the check, with wrapped counter and product, refuses at n whole queries or at fewer |
| `SiriDelays.QuietMeansSettled` | utils/SiriClient.java:303-318 | when both channels are drained and no thread is in the middle of something, every query has its reply and delay, and the counter is zero |
| `SiriDelays.RepliesInOrder` | utils/siri_server.py:94-98 | in every reachable state the k-th reply is that to id k modulo 100, padded to RESPONSE_SIZE or two more than the id's digits, sent after DELAY_QUERY_RESPONSE |
| `SiriDelays.WrongDelay` | utils/SiriClient.java:152-156 | when the check lets a 101st query pass, an interleaving that reports a wrong delay, built step by step |
| `SiriDelays.DelaysAreTrue` | utils/SiriClient.java:266-310 | in every interleaving the n-th recorded delay is the true delay of the n-th query, if and only if for some n up to 100 the wrapped QUERY_SIZE * n exceeds the wrapped QUERY_SIZE * BUFFER_SIZE |
| `SiriDelays.RunRecords` | utils/SiriClient.java:266-310 | over every run: recorded times are those of the run's own steps, and every window check either starts a query or counts as missed |
| `SiriDelays.DelaysAreMeasured` | utils/SiriClient.java:266-310 | the same exact condition for the n-th delay to be the time passed between the n-th start of a query and the n-th reply read, over all runs |
| `SiriDelays.WithoutWrapping` | utils/SiriClient.java:266-310 | when QUERY_SIZE * (BUFFER_SIZE + 1) fits a Java int: at most n queries are ever outstanding if and only if n >= BUFFER_SIZE + 1, and the delays are true if and only if BUFFER_SIZE < 100 |
| `SiriDelays.CounterWithoutWrapping` | utils/SiriClient.java:173-175 | then counter plus bytes written but not counted equals QUERY_SIZE times the queries outstanding, less what is unwritten; the counter stays between -QUERY_SIZE and QUERY_SIZE * (BUFFER_SIZE + 1), and at most BUFFER_SIZE + 1 are outstanding |
| `SiriDelays.SmallWindowCanFail` | utils/SiriClient.java:173-175 | QUERY_SIZE 21600000 and BUFFER_SIZE 99: the counter wraps and some delay is wrong |
| `SiriDelays.WrappedWindowSendsNothing` | utils/SiriClient.java:274 | QUERY_SIZE 21500000 and BUFFER_SIZE 100: the product wraps and no query is ever started |
| `MsgServer.ClientConnection.Receive` | utils/msg_server.py:44-61 | one turn: append, and at most one reply, delay and cut per chunk |
| `MsgServer.ClientConnection.Run` | utils/msg_server.py:44-61 | the loop over all chunks |
| `MsgServer.StepKeepsFramed` | utils/msg_server.py:51-61 | one chunk keeps the framing invariant below |
| `MsgServer.Framing` | utils/msg_server.py:44-61 | for every size and chunk sequence: bytes received = size * replies + buffer, the buffer is that suffix of the stream, and every reply but the first has recorded a delay |
| `MsgServer.DelaysOfReplies` | utils/msg_server.py:44-61 | for every arrival sequence: reply n goes with the first arrival, after that of reply n - 1, at which the bytes of n + 1 requests are received, and each delay runs from just before the previous reply to that arrival, without the server's own sleep |
| `MsgServer.NoBacklog` | utils/msg_server.py:8-61 | no complete request waits at a loop head under any chunking up to 2048, if and only if the size is at least 2048 |
| `MsgServer.RepliesAreFloor` | utils/msg_server.py:44-61 | for sizes of at least 2048 the replies are floor(received / size) |
| `MsgClient.Client.GatherReply` | utils/msg_client.py:51-60 | the buffer gathered is that of the specification below |
| `MsgClient.GatherIsShortest` | utils/msg_client.py:51-60 | gathering takes the shortest run of chunks that reaches the size, or all of them up to the close |
| `MsgClient.GatherStaysBelow` | utils/msg_client.py:51-60 | with `recv` of at most 2048 bytes the reply overshoots the size by less than 2048 |
| `MsgClient.GathersExactly` | utils/msg_client.py:51-62 | the reply has exactly the size if and only if some run of chunks before the close has |
| `MsgClient.Client.Run` | utils/msg_client.py:42-68 | delays recorded and requests sent are those of the specification below |
| `MsgClient.DelaysOfAnswered` | utils/msg_client.py:42-68 | without bulk: one delay for each of the leading rounds answered exactly, from sending to the end of gathering, and one further request unless all rounds are answered |
| `MsgClient.BulkOnlySends` | utils/msg_client.py:42-49 | in bulk mode every request leaves and no delay is recorded |
| `MsgSystem.StepDecreases` | utils/msg_server.py:44-61 | every step of client or server strictly decreases a measure bounded by zero, whatever the two sizes and the chunking |
| `MsgSystem.EveryRunEnds` | utils/msg_client.py:42-66 | whatever the two sizes and the chunking, a run has at most nb * (1 + M * (1 + S)) steps, M and S being the sizes of client and server |
| `MsgSystem.SystemRunsTheClient` | utils/msg_client.py:42-66 | in every reachable state the client object, run over the chunks received, has recorded as many delays, sent as many requests, and holds the same partial reply as the system's client |
| `MsgSystem.StepConserves` | utils/msg_client.py:42-66 | bytes are conserved on both channels by every step |
| `MsgProgress.ReachableInv` | utils/msg_client.py:51-66 | in every reachable state the client has not overshot a reply, and all bytes in flight amount to the one request it waits for |
| `MsgProgress.FittingNeverStuck` | utils/msg_client.py:42-66 | with fitting sizes some thread can always move until all delays are recorded |
| `MsgProgress.NeverStuck` | utils/msg_server.py:44-61 | no reachable state is stuck, if and only if the sizes are equal, or the server's is at least 2048 and divides the client's |
| `MsgProgress.EveryRunFinishes` | utils/msg_client.py:42-66 | with fitting sizes every run is bounded, and one that cannot be continued ends with exactly nb delays |
| `ThreadRegistry.EveryRunIsBookkept` | utils/siri_server.py:112-150 | in every interleaving of accept loop and handlers: no lookup fails, the list has no duplicates and only registered ids, each thread is joined at most once and after its last action, and between two turns the ids handed out are the disjoint union of registered and joined |
| `ThreadRegistry.JoinsAreAppended` | utils/msg_server.py:71-76 | the order of joins is only ever extended |
| `ThreadRegistry.Registry.Register` | utils/msg_server.py:100 | a connection is entered under its id |
| `ThreadRegistry.Registry.JoinFinishedThreads` | utils/msg_server.py:71-76 | joins exactly the listed threads, the latest first, forgets them and leaves the list empty |
| `Schedule.LinkSchedule.AddNetemAt` | core/topo.py:73-82 | the new schedule is the specification's for one more event |
| `Schedule.LinkSchedule.AddAll` | core/topo.py:164-187 | and for a whole sequence of them |
| `Schedule.LinkSchedule.BuildChangingCmd` | core/topo.py:91-107 | the shell chain of the schedule, word by word: sleep and command for each event, closed by `true` |
| `Schedule.PvSchedule.AddPvAt` | experiments/ncpv.py:89-100 | the second implementation accepts and encodes the same |
| `Schedule.PvSchedule.GetPvChangeCmd` | experiments/ncpv.py:102-110 | and builds the same chain, with `pv -R pid` before each command |
| `Schedule.AcceptsExactlyTheRecords` | core/topo.py:73-82 | for every sequence of offered events the accepted ones are exactly the strict left-to-right maxima |
| `Schedule.OfferAllIsDeltaEncoded` | core/topo.py:73-82 | accepted times increase strictly and the deltas sum to the absolute times |
| `Schedule.ChainKeepsTheTimetable` | core/topo.py:91-107 | the chain fires every accepted command at its absolute time, if and only if the first time is not negative |
| `Bottleneck.BottleneckLink.CleanUp` | core/topo.py:298-307 | the deletions on one inner switch, of root and ingress disciplines alike |
| `Bottleneck.BottleneckLink.ConfigureBottleneck` | core/topo.py:294-325 | the disciplines afterwards are those of the whole command sequence |
| `Bottleneck.ConfigurationResult` | core/topo.py:294-325 | whatever was installed before: netem on the last interface of bs1 and the first of bs2, tbf on the other two, and nothing else left at any root or ingress of the two switches |
| `Bottleneck.ConfigurationSays` | core/topo.py:87-100 | in words: each direction's netem asks for the link's delay in ms, for 50000 packets and, exactly when it is positive, for its loss; each tbf has the link's bandwidth and buffer |
| `Bottleneck.PlacedBothWays` | core/topo.py:294-325 | each direction passes exactly one netem and one tbf, if and only if both inner switches, or neither, have their first interface last |
| `Bottleneck.EachChainOwnsItsInterface` | core/topo.py:327-344 | in every interleaving of the four background chains each interface carries its own chain's last change |
| `Bottleneck.DirectionsDuringChanges` | core/topo.py:327-344 | during the changes a direction has one netem and one tbf, if and only if its two chains have both started or both not |
| `Bottleneck.SwappedAfterChange` | core/topo.py:327-344 | after each change instant both directions have one of each, with netem and tbf having changed switches and the delay of that event |
| `Bottleneck.ProgressAtTime` | core/topo.py:87-107 | on the clock of the generated chains each chain has, at any time, applied exactly the accepted events that are due |
| `Bottleneck.PlacementAtTime` | core/topo.py:294-344 | at every clock time, simultaneous commands in any order, each direction delays once and shapes once: with the link's own delay and loss as first placed before the first accepted event, afterwards exchanged and with the words of the latest one due; the rate is the link's throughout |
| `BufferSize.PacketsCoverRoundTrip` | core/topo.py:20-26 | the packets in flight are ceil(bandwidth * delay / 6), and cover the round-trip bytes by less than one MTU |
| `BufferSize.PacketsMonotone` | core/topo.py:20-26 | monotone in delay and in bandwidth |
| `BufferSize.BufferMonotoneInDelay` | core/topo.py:61-66 | the buffer size is monotone in the delay |
| `BufferSize.QueueBytesBounds` | core/topo.py:61-71 | unless clamped, the queue term lies within 125 * bandwidth below q * 1500 * 10^6 / 2^20, so never above q MTUs |
| `BufferSize.BufferHoldsRoundTripAndQueue` | core/topo.py:61-71 | the buffer lies between round-trip bytes plus queue bytes and one packet more, the queue term being that of q packets up to 125 * bandwidth less, or one millisecond's worth when clamped |
| `Parameters.Parameter.constructor` | core/parameter.py:9-13 | an empty dictionary with the given defaults |
| `Parameters.Parameter.LoadParameterFile` | core/parameter.py:20-38 | the loop over the lines builds the specification's dictionary, keys in order of insertion |
| `Parameters.Parameter.Get` | core/parameter.py:40-53 | the file's value, else the default, else an exception |
| `Parameters.DictionaryIsMultimap` | core/parameter.py:20-53 | `get` returns all values of a key in file order: a string for one, a list for several, the default for none |
| `Parameters.EntryMeans` | core/parameter.py:22-38 | a line gives a key and value if and only if it does not start with `#` and, stripped, is the two around its only colon |
| `Text.StripDrops` | core/parameter.py:28-29 | stripping drops white space from both ends until none is left there |
| `Parameters.LineEndsAreOne` | core/parameter.py:21-22 | lines are the same whichever way they end |
| `Parameters.KeysAreListedOnce` | core/parameter.py:20-38 | the key list names exactly the keys, each once |
| `Parameters.ReadBack` | runner.py:62-67 | a file written from plain lines is read back as these lines |
| `TopoParameters.PrintPath` | runner.py:46-58 | one path's line: key from type and id, or from the legacy name; queue 100 when absent |
| `TopoParameters.YamlTopoToLegacy` | runner.py:39-65 | the printing loop gives the specified text |
| `TopoParameters.TopoParameter.constructor` | core/topo.py:147-150 | no links before loading |
| `TopoParameters.TopoParameter.LoadSorted` | core/topo.py:236-247 | the loop skips, loads or crashes key by key as specified |
| `TopoParameters.TopoParameter.LoadLinkCharacteristics` | core/topo.py:232-247 | keys are taken in sorted order |
| `TopoParameters.FloatRoundTrip` | core/topo.py:217-227 | any finite number printed, with sign, fraction and exponent, is read back with its value |
| `Text.PyIntSigned` | core/topo.py:217-228 | integers are read with either sign |
| `TopoParameters.NumValue` | core/topo.py:217-227 | the value of a number's text: digits over a power of ten, scaled by its exponent either way |
| `StringOrder.SortSorts` | core/topo.py:236 | the model of `sorted` orders its argument and keeps its elements with their multiplicities |
| `StringOrder.FilterSort` | core/topo.py:236-247 | selecting from the sorted keys is sorting the selection |
| `ConfigRoundTrip.PathLoads` | core/topo.py:191-247 | each printed path line loads as its link |
| `ConfigRoundTrip.DictionaryRoundTrip` | runner.py:44-65 | the printed text is read back as one entry per line, in order, no path dropped |
| `ConfigRoundTrip.RoundTrip` | runner.py:35-68 | for every well-formed YAML topology the loaded links are a permutation of the declared ones with delay, queue and bandwidth, loss 0 and backup 0, and subnets and type are found again |
| `ConfigRoundTrip.PrintedFile` | runner.py:44-62 | the printed file as text, queue 100 when absent |
| `ConfigRoundTrip.OtherForms` | core/topo.py:200-228 | the forms with two, four and five fields: queue of the packets in flight, loss, backup |
| `ConfigRoundTrip.OtherCountsAreIgnored` | core/topo.py:230-244 | a path value with any other number of fields is ignored |
| `ConfigRoundTrip.LoadingStopsExactly` | core/topo.py:232-247 | for every file: loading stops the program if and only if some path key is repeated or has well-formed numbers with bandwidth zero; every other unusable line is passed over |
| `LinkOrder.LoadedOfType` | topos/multi_interface.py:29-33 | the links of a type are those of its keys, in the order of the keys |
| `LinkOrder.IndexIsId` | core/topo.py:236-247 | with ids 0 to n - 1 written canonically: link i has id i for all i, if and only if n <= 10; from 11 on the third link has id 10 |
| `LinkOrder.YamlIndexIsId` | topos/multi_interface.py:29-33 | the same from the YAML topology through printing and loading |
| `TopoBuilder.Builder.AddHost` | mininet_builder.py:61-62 | a host, whose ports start at 0 |
| `TopoBuilder.Builder.AddSwitch` | mininet_builder.py:64-65 | a switch, whose ports start at 1 |
| `TopoBuilder.Builder.AddLink` | mininet_builder.py:67-68 | a link takes the next port of each end |
| `TopoBuilder.RunIsValid` | mininet_builder.py:61-68 | for every run of the builder the ports in use are consecutive from the base, and each has exactly one cable |
| `TopoBuilder.LinkTakes` | core/topo.py:464-475 | a link takes the next port of its first node and then of its second |
| `TopoBuilder.IfNameInjective` | topos/multi_interface.py:268-275 | an interface name tells node and port |
| `TopoBuilder.LanStaysInGroup` | core/topo.py:272-281 | host ports that reach each other through switches are cabled together or plugged into one group of switches |
| `MultiInterface.BsNameInjective` | core/topo.py:283-285 | a switch name tells link type, id and position |
| `MultiInterface.BottleneckLink.constructor` | core/topo.py:272-281 | the four switches and three cables of a link |
| `MultiInterface.MultiInterfaceTopo.constructor` | topos/multi_interface.py:8-26 | the whole construction: nodes, links of type c2r, then those of type r2s or one direct cable |
| `MultiInterface.MultiInterfaceTopo.AddLinks` | topos/multi_interface.py:17-26 | the two loops and the special case |
| `MultiInterface.MultiInterfaceTopo.AddEach` | topos/multi_interface.py:18-24 | one bottleneck link per characteristic, in order |
| `MultiInterface.MultiInterfaceTopo.AddBottleneckLink` | core/topo.py:464-475 | a bottleneck link plugged between two nodes |
| `MultiInterface.MultiInterfaceTopo.AddClient` | core/topo.py:399-402 | the next client by number |
| `MultiInterface.MultiInterfaceTopo.AddServer` | core/topo.py:409-412 | the next server by number |
| `MultiInterface.MultiInterfaceTopo.AddRouter` | core/topo.py:404-407 | the next router by number |
| `Wiring.BottleneckCables` | core/topo.py:464-475 | the five cables of a link and the ports they take |
| `Wiring.AllCables` | topos/multi_interface.py:18-24 | link g takes the g-th further port of each of its two nodes |
| `Wiring.LanIff` | core/topo.py:246-281 | two host ports share a LAN if and only if they are cabled together or attached to the same link |
| `InterfaceNaming.NetworkCables` | topos/multi_interface.py:8-26 | all cables of the network in the order laid, in closed form |
| `InterfaceNaming.NetworkIsValid` | topos/multi_interface.py:8-26 | every port in use has exactly one cable |
| `InterfaceNaming.WiringMatchesNames` | topos/multi_interface.py:265-275 | for every list of links with unique type and id: the names the configuration computes by arithmetic face exactly the switches of the link they are meant for, or each other over the direct cable |
| `InterfaceNaming.WiringInFull` | topos/multi_interface.py:17-26 | the same with all names written out: `Client_0-eth` i faces `bs_c2r_` id `_0`, and so on |
| `InterfaceNaming.LansArePairs` | topos/multi_interface.py:17-26 | through any number of switches a host port reaches exactly the port at the other side of its link |
| `InterfaceNaming.EveryLinkIsPlaced` | core/topo.py:294-325 | the inner switches of every built link have their two interfaces in left-right order, so the configuration gives each direction one netem and one tbf |
| `Routing.AddressParses` | topos/multi_interface.py:235-257 | an address is read as prefix, index and host number if and only if the index fits an octet |
| `Routing.TableNext` | core/topo.py:600-614 | what one route command does to one table |
| `MultiInterfaceConfig.MultiInterfaceConfig.ConfigureInterfaces` | topos/multi_interface.py:126-226 | the interface and ARP commands sent to client, router and server, in order |
| `MultiInterfaceConfig.MultiInterfaceConfig.ClientSide` | topos/multi_interface.py:140-155 | the first loop |
| `MultiInterfaceConfig.MultiInterfaceConfig.RouterSide` | topos/multi_interface.py:157-167 | the second loop |
| `MultiInterfaceConfig.MultiInterfaceConfig.ServerSide` | topos/multi_interface.py:170-226 | the branch without links to the server and the loop over them |
| `MultiInterfaceConfig.MultiInterfaceConfig.ToServer` | topos/multi_interface.py:199-226 | the commands for one link to the server |
| `MultiInterfaceConfig.MultiInterfaceConfig.ConfigureRouting` | topos/multi_interface.py:78-118 | the rule, network and default route of every table, and the main default routes |
| `MultiInterfaceConfig.MultiInterfaceConfig.ClientTables` | topos/multi_interface.py:82-94 | the loop over the client's tables |
| `MultiInterfaceConfig.MultiInterfaceConfig.ServerTables` | topos/multi_interface.py:97-109 | the loop over the server's tables |
| `PathSeparation.TablesHold` | topos/multi_interface.py:82-109 | after k tables: the addresses, one rule per index that fits an octet, and the exact content of every table, the main one included |
| `PathSeparation.RouterAddresses` | topos/multi_interface.py:157-195 | the router's addresses, one in the network of every link, and no route beside |
| `PathSeparation.SourceChoosesInterface` | topos/multi_interface.py:82-118 | up to 254 tables, traffic from address i leaves through interface i |
| `PathSeparation.LocalTableCaptures` | core/topo.py:597-605 | from 255 tables on, table 255 is the kernel's local table and takes all traffic |
| `PathSeparation.OneWay` | topos/multi_interface.py:78-118 | a packet leaves a host one way and arrives at one port |
| `PathSeparation.PathsAreSeparate` | topos/multi_interface.py:78-226 | for all numbers of links and all i, j: a packet from client address i to server address j crosses links i and j of the network built, and the reply the same two backwards, if and only if there are at most 254 links on each side |
| `NeighbourEntries.EveryEntryNamesItsPeer` | topos/multi_interface.py:150-226 | every static ARP entry on client, router and server names a port opposite one of the host's own, which has that address in the same network, if and only if there are at most 256 links on each side; and then each host has such an entry for every port opposite its own |
| `NeighbourEntries.ClientSide` | topos/multi_interface.py:150-175 | the two ports of link i to the client share a LAN and hold the addresses .1 and .2 of its network |
| `NeighbourEntries.ServerSide` | topos/multi_interface.py:177-226 | and those of link j to the server .2 and .1 |
| `MultiClientTopo.MultiInterfaceMultiClientTopo.constructor` | topos/multi_interface_multi_client.py:9-21 | the base topology, then a client, a server and a cable for each link to the client, then the router's cables to the further servers |
| `MultiClientTopo.MultiInterfaceMultiClientTopo.AddCongestionPairs` | topos/multi_interface_multi_client.py:14-17 | the first loop |
| `MultiClientTopo.MultiInterfaceMultiClientTopo.JoinFurtherServers` | topos/multi_interface_multi_client.py:20-21 | the second loop |
| `MultiClientTopo.ExtendedCables` | topos/multi_interface_multi_client.py:9-21 | the further cables with their ports, in closed form |
| `MultiClientTopo.ExtendedLans` | topos/multi_interface_multi_client.py:14-21 | two host ports share a LAN if and only if they are at one link or cabled directly; congestion client i + 1 is at link i |
| `MultiClientConfig.MultiInterfaceMultiClientConfig.constructor` | topos/multi_interface_multi_client.py:40-41 | no commands sent |
| `MultiClientConfig.MultiInterfaceMultiClientConfig.ConfigureInterfaces` | topos/multi_interface_multi_client.py:56-86 | the commands to every client, server and the router, those of the base class first |
| `MultiClientConfig.MultiInterfaceMultiClientConfig.AddClient` | topos/multi_interface_multi_client.py:63-73 | the commands for one congestion client |
| `MultiClientConfig.MultiInterfaceMultiClientConfig.AddServer` | topos/multi_interface_multi_client.py:75-86 | the commands for one server |
| `MultiClientConfig.MultiInterfaceMultiClientConfig.ConfigureRouting` | topos/multi_interface_multi_client.py:43-54 | the default routes of the further hosts, after the base class |
| `MultiClientConfig.MultiInterfaceMultiClientConfig.Configure` | topos/multi_interface_multi_client.py:43-86 | both phases together |
| `MultiClientConfig.PortFormula` | topos/multi_interface_multi_client.py:75-86 | the router port computed for server k is the one it is joined to, for every server, if and only if there is at most one link between router and server |
| `MultiClientAddresses.AddressTellsHolder` | topos/multi_interface_multi_client.py:88-89 | with at most one such link an address determines host and port |
| `MultiClientAddresses.AddressesDistinct` | topos/multi_interface_multi_client.py:56-89 | the assigned addresses are pairwise distinct if and only if there is at most one such link |
| `MultiClientAddresses.ArpEntriesNamePeers` | topos/multi_interface_multi_client.py:63-86 | every static ARP entry names the interface that has the address, on a LAN with a port of the host in the same network, if and only if there is at most one such link and at most 255 links to the client |
| `MultiClientTraffic.FlowsUseTheirLinks` | topos/multi_interface_multi_client.py:43-86 | for all i and k: packets from both clients on link i to server k cross link i and the router port computed for server k, and the replies the same backwards, if and only if there is at most one link between router and server and at most 254 to the client |
| `Sysctl.ShownIsRecovered` | core/experiment.py:269 | parsing the printed setting recovers any value, with spaces, tabs or line ends |
| `Sysctl.CommandWrites` | core/experiment.py:277-281 | the write command sets its key to its text |
| `Sysctl.SavingNeverStops` | core/experiment.py:255-269 | saving never raises, also when a key is missing in a namespace |
| `Sysctl.Experiment.SaveInto` | core/experiment.py:255-269 | the loop over one dictionary, skipping failed readings |
| `Sysctl.Experiment.SaveSysctl` | core/experiment.py:242-253 | the three namespaces in turn |
| `Sysctl.Experiment.WriteFrom` | core/experiment.py:293-326 | the writing loop shared by write and restore |
| `Sysctl.Experiment.WriteSysctl` | core/experiment.py:283-291 | the experiment's values are written for the saved names |
| `Sysctl.Experiment.RestoreSysctl` | core/experiment.py:305-313 | the saved values are written back |
| `Sysctl.Perform` | core/experiment.py:235-313 | save, write, run and restore give the state of the specification |
| `Sysctl.ParametersInForce` | core/experiment.py:41-61 | when the run starts, each of the eleven parameters is in force under its own key in its own namespace, as far as key exists, reading succeeds, shell and kernel take it; every other setting is unchanged |
| `Sysctl.Transaction` | core/experiment.py:242-326 | for every initial state, pattern of failed readings, parameters and run: saved settings are back at their initial values, the others are as the run alone leaves them |
| `Sysctl.RestoredExactly` | core/experiment.py:242-326 | the initial state is back if and only if the run leaves the settings not saved at their initial values |
| `Sysctl.SavedRunIsUndone` | core/experiment.py:305-326 | a run that writes only saved settings is undone completely |
| `Sysctl.IperfScenarioSets` | experiments/iperf_scenario.py:79-81 | what the iperf scenario's two writes set while it runs |
| `Sysctl.IperfScenarioIsUndone` | experiments/iperf_scenario.py:79-81 | in particular the two writes of the iperf scenario, when their readings did not fail |
| `Diagram.Draw` | topos/multi_interface.py:35-69 | the drawing loop gives the text of the specified rows |
| `Diagram.DrawnSoFar` | topos/multi_interface.py:42-67 | invariant on `skipped`: the one-sided rows come first, as many as the sides differ by |
| `Diagram.DrawsEveryLink` | topos/multi_interface.py:35-69 | the picture shows the number of links of each side, if and only if both sides have links or neither has; an empty side opposite a filled one is drawn with one |
| `Diagram.RowInFull` | topos/multi_interface.py:42-67 | the row of every turn in closed form: middle by parity, leaning up above and down below it, one-sided rows first |
| `Diagram.RowDraws` | topos/multi_interface.py:42-67 | the text of a row shows as many links as the row stands for |
| `Diagram.TextShowsEveryLink` | topos/multi_interface.py:35-69 | and so does the whole text |

## Left out

- Mininet, `tc`, `ip`, `ifconfig`, `arp` and `ethtool` themselves: commands are data with the meaning stated in `TopoBuilder`, `Bottleneck` and `Routing`; refusals other than those stated there, and the kernel's 15-character limit on interface names, are not modelled.
- That the router forwards: no file sets it, so it is part of the meaning of `Routing.Lookup`.
- TCP and sockets: a connection is a first-in-first-out byte sequence, cut by `recv` into any non-empty chunks up to its buffer size; reset connections and I/O errors are not modelled.
- Random generators: draws are arbitrary within the bound asked for. `getPoisson` is unused and not modelled.
- Clocks and sleeps: times are parameters or steps of a clock; `sleep` in the shell chains advances the clock by exactly its argument, and commands take no time.
- Floating-point rounding: BDP, buffer size, schedule times and the numbers in files are exact reals.
- TopoParameters.TopoParameter.LoadSorted: a value in which Python's `float` would accept `inf` or `nan` is skipped as invalid, because these are not reals; likewise for TopoParameters.TopoParameter.LoadLinkCharacteristics.
- Java's memory model: the two client threads are interleaved at the steps of `SiriSystem.Action`, as under sequential consistency. `stopClient` and the burst timing are not modelled.
- Java's 32-bit wrap-around in `sizeOfNextPacket`: it can occur only when MIN_PAYLOAD_SIZE exceeds MAX_PAYLOAD_SIZE, where a draw of zero fails with and without it. Counter and window product do wrap in the model.
- Siri runs with delays in the header: the server model reads them, the client always sends none, as its code does.
- Decoding failures of non-ASCII bytes, and the list `message_sizes`, which only feeds a log.
- What a handler thread leaves behind when it crashes with a ValueError: the model stops at the crash.
- Python's `int` and `strip` on non-ASCII characters, and `split` with other than one-character separators.
- `load_netem_at_value`, which fails on repeated keys and returns an exception object: `Schedule` drives `add_netem_at` with arbitrary sequences instead.
- YAML prefixes without a trailing dot: address results require a prefix of the form "a.b.".
- `yaml.safe_load` and temporary files: the model starts from the YAML tree and passes the text.
- Shell expansion in written settings: `Sysctl` refuses texts with quotes, dollars, backquotes or backslashes, and the error text of a missing key is simplified to one fixed form.
- Values that a kernel does not take back as shown: `Sysctl.Transaction` requires that it does, which is what a successful restore means.
- The picture of the multi-client topology, the experiments that only build command strings, the class registries, and the order of calls in `Runner.__init__`.
- Bottleneck links shared by several topology links (the `bottleneck_link` argument): no topology uses it.
