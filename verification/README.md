# rathole-x, verified

A Dafny model of the stateful parts of rathole-x, a relay that exposes services
behind a NAT through a public server, and proofs of what those parts promise.
`dafny verify dfyconfig.toml` checks the whole project.

The server keeps one control channel per service. Visitors are matched to data
channels which the client opens on command; a deadline ends a control channel whose
client cannot deliver. Configuration is reloaded while running, by differences where
possible and by restart otherwise.

| module | subject |
|---|---|
| `Runs` | runs of a transition system, and what holds after all of them |
| `ControlLoop` | the control channel loop: pending count and deadline, over timed scripts of wake-ups and writes |
| `Supply` | the queues between pool, control loop, client and handshake router |
| `TcpPool`, `UdpPool` | listener and connection pool around one supply, in any interleaving |
| `MultiMap` | the two-key map over raw pointers, refining a set of rows |
| `Handshake` | control channel handshakes, data channel routing, digest comparison |
| `Config`, `ConfigWatcher`, `Instances`, `HotReload`, `Generations` | validation, diff, incremental application, the whole pipeline, restarts |
| `UdpPortMap`, `FailureCounter` | the client's UDP port map and its rebuild signal |
| `CommandLine` | Windows argument quoting against the C runtime's parsing rules |
| `Wire` | message and packet framing in bincode 1's default layout |
| `RuntimeStatus` | the server's status snapshot |
| `Import`, `ImportLaws`, `ImportMeaning`, `ImportReport` | `config import`: the code, its laws, and what it makes of every key and reports, said without the code's own lists and checks |

How to read it. Loops and objects that one task updates are methods and classes,
proved equal to a specification function; the theorems are lemmas about that
function. State shared by several tasks is a transition system: `Step` lists the
atomic steps between two waits of the tasks involved, `Enabled` and `Next` say what
they do, and a theorem about `Leads(Enabled, Next, Init, run, end)` (module `Runs`)
holds for every interleaving. Where a hash map is iterated, the order is a
parameter, and results are proved for every order.

Five things that the code's comments suggest hold only under a condition, which is
proved exact or shown to be needed:

- A control channel that gets no data channels is ended within one timeout, except
  that nothing is polled during a write, and that another branch may run first once
  the deadline is due. `ControlLoop.StuckLoopEnds` and `ControlLoop.AlarmEndsLoop`
  say when the loop is over in general and if the alarm always runs first;
  `ControlLoop.WriteDelaysAlarm` and `ControlLoop.LateArrivalRescues` are runs that
  show the difference.
- A UDP packet survives the wire if and only if its payload is shorter than 65536
  bytes; `Wire.LongPayloadIsLost` gives a payload that does not. No sender of the
  program makes one: `Wire.SendersFit`.
- The failure count equals the failures in a row if and only if there are fewer than
  2^32 of them (`FailureCounter.CountIsStreak`); `FailureCounter.CountWraps` is a run
  with 2^32. A counter serves one run of the control channel, which a rebuild signal
  ends when it is taken, so this bounds the model rather than the program.
- A rebuild signal can be queued after another task's setup has succeeded, with the
  counter at 0 (`FailureCounter.LateSignal`). The counter is at the threshold when a
  signal is queued if and only if the last three setups have all failed
  (`FailureCounter.ThresholdHoldsIff`).
- The teardown of a superseded channel is ignored provided no two connects have the
  same source and time; `RuntimeStatus.AlikeConnectsAreConfused` shows why.

The models of the supply assume, as the server does, that the client opens at most
one data channel per command.

## Model

| member | source | states |
|---|---|---|
| `ControlLoop.DataChannelTimeout` | src/server.rs:54-59 | the budget is at least ten seconds and at least one heartbeat interval, and twice that interval unless it saturates |
| `ControlLoop.ControlChannel.Run` | src/server.rs:606-667 | the loop over its local variables ends as the specification says for every script of wake-ups, each with the time its body takes |
| `ControlLoop.OutcomeIs` | src/server.rs:612-667 | for every script: the loop goes on if and only if no turn is a shutdown, the end of the requesters, the alarm or a failed write; otherwise it is stuck or stopped by which of these came first |
| `ControlLoop.AnsweredInOrder` | src/server.rs:613-644 | requests split into answered and outstanding, the k-th answer being for the k-th request |
| `ControlLoop.DeadlineExact` | src/server.rs:606-644 | the pending count is the number of outstanding requests; the deadline is armed exactly if there are any, one timeout after the later of last arrival and oldest outstanding request |
| `ControlLoop.NoFalseAlarm` | src/server.rs:645-655 | if every request is answered strictly within the timeout, the stuck error never fires, however long writes take |
| `ControlLoop.AlarmIsJustified` | src/server.rs:645-655 | when it fires, a full timeout passed with a request outstanding and no arrival taken; it fires exactly at the deadline if and only if no write went past it |
| `ControlLoop.DeadlineFrozen` | src/server.rs:621-624 | requests and heartbeats never move an armed deadline |
| `ControlLoop.NoIdling` | src/server.rs:612-666 | with no arrival, a turn begun after the deadline was due was begun the instant the one before was done |
| `ControlLoop.StuckLoopEnds` | src/server.rs:601-655 | with something pending and no arrival, a loop whose deadline has passed is over or writing; unless stopped it ends by the alarm, at the deadline or when a write across it is done |
| `ControlLoop.AlarmEndsLoop` | src/server.rs:601-655 | if the alarm runs first whenever it is due, the loop is over by the later of the deadline and the end of the one write in progress then |
| `ControlLoop.WriteDelaysAlarm` | src/server.rs:656-661 | a write holds the alarm back by any delay |
| `ControlLoop.LateArrivalRescues` | src/server.rs:631-644 | an arrival taken after the deadline was due, by any delay, disarms it |
| `Supply.MoveKeepsInv` | src/server.rs:613-644 | every move keeps the books: the loop's count is exactly the commands it has written whose arrival it has not taken, so the saturating subtraction never saturates, and credit is neither made nor lost |
| `Supply.MoveKeepsScript` | src/server.rs:611-667 | what the loop does among the other tasks is a script that the timed loop can go through |
| `Supply.AlarmInContext` | src/server.rs:645-655 | so a prompt control channel is never declared stuck, and one that is had a full timeout without an arrival taken |
| `Supply.OverIff` | src/server.rs:616-665 | a move ends the loop exactly if it is the alarm, a failed write or the shutdown signal seen |
| `Supply.AlarmComes` | src/server.rs:645-655 | left alone with an armed deadline, the loop comes to be stuck, at the deadline if it is not past |
| `Supply.DropIsNoticed` | src/server.rs:663-665 | a handle dropped during a write is noticed when the write is done, however long that takes |
| `Supply.TransitCount` | src/server.rs:413-441 | routing moves data channels between client, transit, loss and queue without making or losing one |
| `Supply.MoveKeepsPlaces` | src/server.rs:423-434 | no move puts a data channel in two places |
| `TcpPool.Reachable` | src/server.rs:675-794 | the invariant of supply, loop script, credit, visitor line and data channels in every reachable state |
| `TcpPool.Conservation` | src/server.rs:478-487 | while the control channel lives, requested + commanded + queued + being started = 8 + visitors accepted and not matched; nobody accepted is forgotten |
| `TcpPool.OneChannelPerVisitor` | src/server.rs:767-790 | no data channel serves two visitors, no visitor gets two, and visitors are served in the order of arrival without a gap |
| `TcpPool.HandOverNeverWaits` | src/server.rs:469-470 | the bounded data channel queue is never full, so the router's send does not wait |
| `TcpPool.LostIsNoticed` | src/server.rs:601-655 | while a data channel is lost whose command is written, the alarm is armed and due within one timeout |
| `TcpPool.StuckOnlyForAReason` | src/server.rs:601-655 | in every interleaving, a control channel whose arrivals are taken within the timeout of their commands is never declared stuck |
| `TcpPool.NotStuck` | src/server.rs:712-790 | with nothing lost, a state with no serving step left has served everyone and caches exactly 8 |
| `TcpPool.KeepsServing` | src/server.rs:712-790 | every serving step keeps the invariant and does some of a finite amount of work |
| `TcpPool.EveryVisitorIsServed` | src/server.rs:728-790 | from any reachable state, serving steps in any order end, with every accepted visitor served and 8 spare channels |
| `TcpPool.CachedChannelServesAtOnce` | src/server.rs:728-780 | at rest, a visitor is served by the oldest cached data channel before another is asked for |
| `TcpPool.ChannelsInOrder` | src/server.rs:427-431 | data channels are queued at the end and used from the front |
| `TcpPool.NothingAfterStop` | src/server.rs:663-672 | once the loop has seen the shutdown signal, no run writes another command or accepts another visitor |
| `TcpPool.EndedPoolIsOver` | src/server.rs:767-793 | a pool that has ended serves no other visitor and uses no other data channel |
| `TcpPool.StepsAreNotIdle` | src/server.rs:728-734 | a listener refused by the loop comes to its end, and no step is idle |
| `TcpPool.EveryTaskEnds` | src/server.rs:712-794 | once the handle is dropped, closing steps in any order end, with loop, listener and pool ended and nothing in hand |
| `UdpPool.Reachable` | src/server.rs:797-916 | the invariant in every reachable state of the UDP pool |
| `UdpPool.ExactlyOne` | src/server.rs:835-911 | requested + commanded + queued + starting + active = 1 while the control channel lives, through any broken sessions and failed starts |
| `UdpPool.NeverReused` | src/server.rs:843-850 | a data channel that failed or whose session broke is never used again |
| `UdpPool.StuckOnlyForAReason` | src/server.rs:601-655 | the same as for TCP |
| `UdpPool.SessionComesUp` | src/server.rs:835-911 | serving steps end, with a session up, nothing else on the way and the alarm off |
| `UdpPool.BrokenSessionIsReplaced` | src/server.rs:906-910 | a session can break at any time, and exactly one replacement is asked for |
| `UdpPool.NothingAfterStop` | src/server.rs:663-672 | once the loop has seen the shutdown signal, no run writes another command |
| `UdpPool.EndedPoolIsOver` | src/server.rs:837-911 | a pool that has ended takes and uses no other data channel |
| `UdpPool.EveryTaskEnds` | src/server.rs:835-916 | once the handle is dropped, closing steps end, with loop and pool ended |
| `MultiMap.OperationsKeepInjective` | src/multi_map.rs:58-107 | every operation keeps the rows injective in both keys |
| `MultiMap.WriteIsSeenByBoth` | src/multi_map.rs:77-93 | a write through one key is what the other key reads, and nothing else changes |
| `MultiMap.RemoveIsSeenByBoth` | src/multi_map.rs:95-107 | removing through either key removes the same row from both indexes |
| `MultiMap.RemoveUndoesInsert` | src/multi_map.rs:58-107 | insert then remove, by either key, restores the map |
| `MultiMap.IndexesAgree` | src/multi_map.rs:12-15 | each index on its own reaches exactly the items |
| `MultiMap.MultiMap.Insert` | src/multi_map.rs:58-69 | succeeds exactly if both keys are new and adds the row; a failed insert changes nothing |
| `MultiMap.MultiMap.Get1` | src/multi_map.rs:71-75 | lookup by the first key reads the row's value through a live pointer |
| `MultiMap.MultiMap.Get2` | src/multi_map.rs:83-87 | the same by the second key |
| `MultiMap.MultiMap.Write1` | src/multi_map.rs:77-81 | a write by the first key changes that row and no other |
| `MultiMap.MultiMap.Write2` | src/multi_map.rs:89-93 | the same by the second key |
| `MultiMap.MultiMap.Remove1` | src/multi_map.rs:95-100 | returns and removes the row, and frees its box once, after the other index was cleaned while the box lived |
| `MultiMap.MultiMap.Remove2` | src/multi_map.rs:102-107 | the same by the second key |
| `MultiMap.MultiMap.Drop` | src/multi_map.rs:110-117 | at the end every box ever made has been freed, exactly once |
| `Handshake.DigestEq` | src/server.rs:319-325 | the accumulating comparison is equality |
| `Handshake.KeyIsNew` | src/server.rs:400-408 | the key about to be registered is nobody's, so the insertion whose result is discarded cannot fail |
| `Handshake.KeepsInv` | src/server.rs:327-411 | every handshake step, and each of the two locked sections of a reload, keeps the registered channels consistent with the handshakes behind them |
| `Handshake.Reachable` | src/server.rs:327-411 | the same over every interleaving |
| `Handshake.Routing` | src/server.rs:421-438 | each service has one channel at most; a key resolves only to the handshake that produced it, which is its service's channel |
| `Handshake.AcceptedIffSameKey` | src/server.rs:365-385 | a handshake is accepted exactly if the client used the service's token and this nonce; then both ends hold the same key |
| `Handshake.TokenIsTheServices` | src/server.rs:352-374 | over every run with reloads, a session holds the token its service had in the table when its hello was handled; one for a service not in the table has ended |
| `Handshake.HelloIsAnswered` | src/server.rs:353-366 | right after a hello the session waits for the auth exactly if the service is in the table |
| `Handshake.AcceptedOverRuns` | src/server.rs:365-385 | over every run, an auth is accepted if and only if its key is made from that token and the nonce of this hello; otherwise the handshake has ended |
| `Handshake.AcceptanceIsEarned` | src/server.rs:369-408 | no session is acknowledged or registered unless that key was sent for it |
| `Handshake.StepsAreOwn` | src/server.rs:327-411 | a step of one handshake is no step of another, and a failed one has ended |
| `Handshake.ReloadDrops` | src/server.rs:264-273 | after a reload exactly the reloaded service's channel is dropped |
| `Handshake.HandshakeCompletes` | src/server.rs:327-411 | the handshake of a client with the right token goes through in any reachable state |
| `Handshake.Supersedes` | src/server.rs:400-408 | a new channel replaces the old: its own key resolves to it, the old key to nothing, all other routing is unchanged |
| `Handshake.KeysAreInjective` | src/client.rs:521-525 | a session key determines token and nonce |
| `Config.AfterLastColon` | src/config.rs:267-271 | the text after the last colon |
| `Config.PortIs` | src/config.rs:270-271 | exactly the numbers up to 65535 are ports, with any zeros or a plus sign before them |
| `Config.PortZeroIff` | src/config.rs:267-277 | an address uses port zero exactly if zero is written after its last colon |
| `Config.ValidateTransport` | src/config.rs:353-394 | accepts exactly the transports that satisfy the proxy, TLS and noise rules |
| `Config.TransportRefusedIff` | src/config.rs:353-394 | the transports that are refused, case by case |
| `Config.ValidateServerConfig` | src/config.rs:265-312 | for every iteration order: succeeds exactly if the order-free predicate holds, fills in names and tokens, and every complaint is true |
| `Config.InvalidMeansFault` | src/config.rs:265-312 | whatever is invalid has a fault that can be complained of |
| `Config.OwnTokenWins` | src/config.rs:288-294 | a service keeps its own token, gets the default one if it has none, and is named by its key; nothing else changes |
| `Config.ValidateServices` | src/config.rs:286-307 | the loop over the services, its set of seen endpoints and its filled-in table |
| `Config.PassedPairwise` | src/config.rs:286-307 | services that passed the loop have usable tokens and pairwise distinct endpoints |
| `Config.ServerFilledIsFixed` | src/config.rs:287-294 | every name equals its key, and validating the result again succeeds and changes nothing |
| `Config.ValidateClientConfig` | src/config.rs:314-351 | as for the server, with retry intervals |
| `Config.ClientInvalidMeansFault` | src/config.rs:314-351 | the same as for the server |
| `Config.OwnIntervalWins` | src/config.rs:327-345 | the same, with the client's retry interval where a service has none |
| `Config.ValidateClientServices` | src/config.rs:325-346 | the loop over the client's services |
| `Config.ClientFilledIsFixed` | src/config.rs:326-346 | validating a validated client configuration changes nothing |
| `Config.Load` | src/config.rs:247-263 | a configuration loads exactly if it parses, each role is valid and there is one |
| `ConfigWatcher.DiffLeadsToNew` | src/config_watcher.rs:247-260 | replaying a diff on the old table gives the new one, for every iteration order of both maps |
| `ConfigWatcher.RestartsOnlyIfNeeded` | src/config_watcher.rs:202-261 | for every iteration order: a restart is sent if and only if a role came or went or settings outside the services differ, and then alone; nothing is sent exactly if nothing changed; otherwise exactly the services gone, new or changed |
| `ConfigWatcher.EventsOnce` | src/config_watcher.rs:250-260 | no event is sent twice |
| `ConfigWatcher.ReplayDeletions` | src/config_watcher.rs:250-253 | replaying the deletions removes exactly the names that are gone |
| `ConfigWatcher.ReplayAdditions` | src/config_watcher.rs:255-258 | replaying the additions writes exactly the new and changed services |
| `Instances.Server.GenerateServiceHashmap` | src/server.rs:131-139 | the digest-keyed index of the services, for every iteration order |
| `Instances.Server.HandleHotReload` | src/server.rs:255-278 | one change is applied to the index, and the touched service's control channel is dropped |
| `Instances.Server.HandleAll` | src/server.rs:255-278 | a run of changes, and exactly which control channels it drops |
| `Instances.Client.StartServices` | src/client.rs:113-123 | one handle for each configured service |
| `Instances.Client.HandleHotReload` | src/client.rs:153-179 | one change is applied to the handles; the server's are ignored |
| `Instances.ServerReplay` | src/server.rs:255-278 | the index after a run of changes is the index of the changed table |
| `Instances.ClientReplay` | src/client.rs:153-179 | the handles after a run of changes are the changed table |
| `Instances.RescanLeadsToNew` | src/config_watcher.rs:202-236 | delivering one rescan's events takes the instance of the old configuration to that of the new one, in every run mode |
| `Instances.EqualServicesKeepTheirChannel` | src/config_watcher.rs:239-261 | a rescan that needs no restart drops exactly the control channels of services that were removed, added or changed, said of what the watcher sends |
| `Instances.RoleIs` | src/lib.rs:665-682 | an instance takes on the role asked for or the only one there is, with the settings and services of that section |
| `HotReload.Watch` | src/config_watcher.rs:168-195 | what the watcher sends over any file events, invalid ones included, leads from its first configuration to the last valid one |
| `HotReload.KeepsInv` | src/lib.rs:519-573 | in any interleaving of watcher, main loop and instance, what is still queued leads to the watcher's configuration |
| `HotReload.Reachable` | src/lib.rs:519-573 | the same over whole runs, and the watcher holds the last valid configuration |
| `HotReload.Converges` | src/config_watcher.rs:168-195 | once drained, the instance is what a fresh start from the last valid configuration would be |
| `HotReload.Drains` | src/lib.rs:519-573 | without further file events the queues are worked off in boundedly many steps, and then the instance is that of the last valid configuration |
| `Generations.Reachable` | src/lib.rs:519-584 | the invariant of the generation loop in every interleaving |
| `Generations.AtMostOneGeneration` | src/lib.rs:528-562 | two generations are never alive together, and none is when the loop has returned |
| `Generations.RestartStaysInside` | src/lib.rs:512-526 | whatever restarts a run holds, without a request for shutdown and with the watcher there the loop is not left, the watcher is not signalled, and the current generation is not signalled |
| `Generations.EveryEventStartsOne` | src/lib.rs:528-562 | every general event starts a generation, the first included; all but the current one were signalled and have finished |
| `Generations.RestartCompletes` | src/lib.rs:528-562 | a general event replaces the running generation once that has finished |
| `Generations.ShutdownCompletes` | src/lib.rs:575-584 | a shutdown stops the running generation, waits for it and reaches the watcher |
| `UdpPortMap.KeepsMap` | src/client.rs:344-398 | every step keeps map entries and living forwarders in one-to-one correspondence |
| `UdpPortMap.OneOwnerEach` | src/client.rs:344-398 | each mapped address is owned by exactly one forwarder that has not removed itself; no mapping outlives its forwarder |
| `UdpPortMap.RemovesOnlyItsOwn` | src/client.rs:461-462 | removal by address takes out the remover's own entry and no other |
| `UdpPortMap.InsertionIsFresh` | src/client.rs:363-380 | despite the unlocked gap an insertion never overwrites a mapping |
| `UdpPortMap.PacketsStayWithTheirVisitor` | src/client.rs:391-397 | a visitor's packets only reach that visitor's forwarders |
| `UdpPortMap.SendReaches` | src/client.rs:391-397 | a packet reaches the forwarder mapped to its address if that one still listens, and no other; it is lost exactly if the one looked up does not |
| `UdpPortMap.FirstPacket` | src/client.rs:352-397 | a visitor's first packet sets up a mapped forwarder that has it |
| `UdpPortMap.NextPacket` | src/client.rs:391-397 | later packets follow in the same inbox |
| `UdpPortMap.ForwarderLeaves` | src/client.rs:455-462 | a forwarder that leaves takes its mapping with it |
| `FailureCounter.KeepsInv` | src/client.rs:202-264 | every step of any task keeps count and signals honest |
| `FailureCounter.CountIsStreak` | src/client.rs:202-264 | the counter is the setup failures since the last success of the run, exactly while they fit 32 bits; how forwarding ends makes no difference |
| `FailureCounter.SignalsAreEarned` | src/client.rs:198-207 | one signal at most is pending, and it reports three or more failures in a row that were counted |
| `FailureCounter.SignalIsCurrentIff` | src/client.rs:202-207 | when a task signals, the counter is at least what it reports if and only if that many of the latest setups all failed |
| `FailureCounter.ThresholdHoldsIff` | src/client.rs:202-207 | when a signal is queued, the counter is at the threshold if and only if the last three setups all failed |
| `FailureCounter.ThirdFailureSignals` | src/client.rs:203-206 | after a task's turn to signal, a signal is pending if and only if one was or its failure was at least the third in a row |
| `FailureCounter.TakenSignalIsGone` | src/client.rs:576-581 | a taken signal makes room for the next |
| `FailureCounter.LateSignal` | src/client.rs:202-264 | a run that queues a signal while the counter is 0 |
| `FailureCounter.CountWraps` | src/client.rs:202-203 | a run of 2^32 failures, after which the counter is 0 |
| `CommandLine.QuoteArg` | src/platform/windows.rs:155-182 | the loop with its backslash count computes the quoting function |
| `CommandLine.QuotedArgument` | src/platform/windows.rs:155-182 | a quoted argument, followed by a space or nothing, is read back whole |
| `CommandLine.QuotedOnlyIfNeeded` | src/platform/windows.rs:156-160 | an argument is left as it is exactly if it is not empty and has no space, tab or quote |
| `CommandLine.ParseUndoesQuote` | src/platform/windows.rs:153-182 | parsing the space-joined quoted arguments gives back every argument list, in older and newer runtimes |
| `CommandLine.StripRelayFlags` | src/platform/windows.rs:187-203 | the loop keeps exactly the positions that are neither a relay flag nor the value of a log flag |
| `CommandLine.StrippedIs` | src/platform/windows.rs:184-203 | those positions and their order; a list without relay flags comes back unchanged |
| `CommandLine.StrippedIsClean` | src/platform/windows.rs:184-203 | no relay flag is left, and a relayed command line strips back to the original |
| `CommandLine.BuildParams` | src/platform/windows.rs:250-261 | the child sees the stripped arguments followed by its own log path and the confirmation |
| `Wire.WriteTraffic` | src/protocol.rs:75-112 | a packet is appended as length byte, header and payload |
| `Wire.ReadTraffic` | src/protocol.rs:114-134 | reading consumes header and announced payload, and fails on a short or malformed stream |
| `Wire.HeaderRoundTrip` | src/protocol.rs:61-66 | a header is 12 or 24 bytes, fits its prefix byte, and decodes to ip, port and length modulo 2^16 |
| `Wire.PacketRoundTrip` | src/protocol.rs:74-135 | what the reader makes of any written packet, over-long ones included |
| `Wire.PacketSurvivesIff` | src/protocol.rs:74-135 | a packet comes back with the stream intact if and only if its payload is under 65536 bytes |
| `Wire.LongPayloadIsLost` | src/protocol.rs:76-79 | a payload that does not survive |
| `Wire.SendersFit` | src/client.rs:411-444 | what is sent from a 2048-byte buffer always survives |
| `Wire.PacketsRoundTrip` | src/protocol.rs:74-135 | any list of packets is read back from the concatenated writes, and what follows is untouched |
| `Wire.Receive` | src/protocol.rs:178-243 | the five readers consume exactly their length and reject other protocol versions and unknown tags |
| `Wire.FixedLength` | src/protocol.rs:151-172 | every variant of each message has the length its reader waits for |
| `Wire.MessageRoundTrip` | src/protocol.rs:178-243 | a message comes back exactly unless it is a hello of another version; framing is kept either way |
| `Wire.DecodesOnlyEncodings` | src/protocol.rs:178-243 | only encodings of messages are decoded: unknown tags and other versions are refused |
| `Wire.ReadsOnlyMessages` | src/protocol.rs:178-243 | a reader fails exactly if the stream does not begin with a message it accepts |
| `Wire.HeaderIs` | src/protocol.rs:121-122 | a header decodes exactly if it begins with the encoding of an address and a length |
| `Wire.NumbersAreLittleEndian` | src/protocol.rs:61-66 | lengths, ports and variant tags are little-endian numbers of two and four bytes |
| `Wire.ConversationRoundTrip` | src/protocol.rs:178-243 | any sequence of current-version messages is read back as it was sent |
| `RuntimeStatus.Registry.ServerConnected` | src/runtime_status.rs:355-380 | sets all four fields of an existing service, and reports none for a missing one |
| `RuntimeStatus.Registry.ServerDisconnected` | src/runtime_status.rs:385-413 | clears only the channel that owns the snapshot |
| `RuntimeStatus.Registry.ServerAdd` | src/runtime_status.rs:259-273 | a service starts, or starts again, as waiting |
| `RuntimeStatus.Registry.RemoveService` | src/runtime_status.rs:275-281 | the service is gone |
| `RuntimeStatus.ConnectedIff` | src/runtime_status.rs:355-413 | over any run a service shows Connected exactly if its latest connect since the last add or remove was not torn down; state, source and since go together, and the last error is that of the teardown since |
| `RuntimeStatus.TeardownCountsIff` | src/runtime_status.rs:382-407 | a teardown changes anything if and only if it names the connect that shows |
| `RuntimeStatus.SupersededTeardownIsNoOp` | src/runtime_status.rs:382-384 | with distinct connects, a superseded channel's teardown changes nothing |
| `RuntimeStatus.AlikeConnectsAreConfused` | src/runtime_status.rs:403-407 | two connects alike in source and time, and the first one's teardown clears the second |
| `Import.CopyWhitelisted` | src/config_edit.rs:977-1010 | the loop over a key list, with and without checks of the value |
| `Import.ReportUnknown` | src/config_edit.rs:1013-1017 | the loop that reports unknown keys |
| `Import.CopiedOrReported` | src/config_edit.rs:977-1010 | a whitelisted key of the source is in the target as it was, or reported |
| `Import.ImportRun.CopyTransportTable` | src/config_edit.rs:1019-1070 | the transport phase: section, report and failure |
| `Import.ImportRun.BuildEntry` | src/config_edit.rs:1107-1190 | one service entry, or the decision to skip it, and what it reports |
| `Import.ImportRun.CopyServices` | src/config_edit.rs:1102-1193 | the loop over the source's services |
| `Import.ImportRun.Run` | src/config_edit.rs:960-1196 | the three phases together: final section, whole report, failure |
| `ImportLaws.TallyPartitions` | src/config_edit.rs:1102-1193 | each source service is listed once as applied, existing or invalid |
| `ImportLaws.ExactlyOneOfThree` | src/config_edit.rs:1073-1193 | the same for a whole import; existing exactly if the target had that name |
| `ImportLaws.ExistingIsUnchanged` | src/config_edit.rs:898-900 | services the target had, and keys the import does not know, are left as they were |
| `ImportLaws.EntryAccounts` | src/config_edit.rs:1115-1190 | every key of an applied service is copied as it was or reported |
| `ImportLaws.SubsSettle` | src/config_edit.rs:1044-1067 | every transport subtable is copied key by key or reported, and copying again would change nothing |
| `ImportLaws.NothingPassedOver` | src/config_edit.rs:890-902 | every key of the source's role section, at every level, is copied, reported, or inside a skipped service |
| `ImportLaws.GlobalsAgain` | src/config_edit.rs:972-1011 | copying the globals into the result changes nothing |
| `ImportLaws.TransportAgain` | src/config_edit.rs:1019-1070 | nor does importing the transport table |
| `ImportLaws.ServicesAgain` | src/config_edit.rs:1085-1196 | nor the services, of which none is applied a second time |
| `ImportLaws.ImportAgainChangesNothing` | src/config_edit.rs:903-1198 | importing the same source again succeeds and leaves the document as it is |
| `ImportMeaning.GlobalIs` | src/config_edit.rs:972-1011 | a global of the result is the source's exactly if its type and value are fit, and the target's otherwise; the report lists exactly those taken over |
| `ImportMeaning.TransportIs` | src/config_edit.rs:1019-1070 | the same for the transport table, its type and every key of its subtables |
| `ImportMeaning.EntryIs` | src/config_edit.rs:1120-1190 | an imported service has, for every key, the source's value if that is fit, and nothing else |
| `ImportMeaning.ServiceIs` | src/config_edit.rs:1102-1193 | a service the target lacks is applied if and only if its name, type, address and token are fit, the default token counting; otherwise it is listed invalid |
| `ImportReport.ReportedIff` | src/config_edit.rs:1013-1190 | a path is reported as ignored if and only if it is a key of the source that has no place in the result |
| `ImportReport.SectionSucceedsIff` | src/config_edit.rs:1250-1264 | importing a section succeeds exactly if every table of the source has a table to go to |
| `ImportReport.SucceedsIff` | src/config_edit.rs:911-958 | the exact condition for an import to succeed |
| `ImportReport.ResultIs` | src/config_edit.rs:943-1198 | the role section is the imported one, and the rest of the document is untouched |

## Left out

- Sockets, TLS, noise and websocket transports, proxies, name lookup, backoff and tracing: a connection is a byte sequence, or a number that may be lost at any step.
- SHA-256 and randomness: the digest is a free constructor, so injective, and a handshake's nonce is one no handshake drew before.
- Command line parsing, prompts, JSON and status rendering, service managers, file replacement and elevation itself: I/O or text.
- TOML text and comments: documents are trees of values; reasons in reports are dropped and only the paths and names kept. The runtime's verdict on the document to be written is the parameter `accepts`.
- Heartbeat liveness: the heartbeat timer restarts on every turn of the loop, so a short interval does not bound the silence between heartbeats.
- ControlLoop.ControlChannel.Run: the count is unbounded where the code has 32 bits; a task that can run is run at once, so delays of the scheduler are not modelled, and neither is the heartbeat's interval.
- Supply.MoveKeepsInv: clients that open more data channels than commanded are not covered, nor is a service whose pool and listener both end while its handle is there (a failed bind).
- TcpPool.EveryVisitorIsServed: says nothing once a data channel has been lost; `TcpPool.LostIsNoticed` and `ControlLoop.StuckLoopEnds` say what happens then. Failed binds and accept errors with their retries are not modelled.
- UdpPool.ExactlyOne: the datagrams of a session are not modelled here; their framing is in `Wire`.
- The pools, the generation loop, the port map, the failure counter and the handshakes are transition systems on values, not classes, because several tasks update the same state between each other's waits.
- Handshake.Reachable: the agreement of status snapshot and channel map during handshakes is not stated, nor what a reload means for a handshake it overtakes.
- HotReload.Converges: an instance that ends by itself (a failed bind) and a full update queue are not modelled.
- Generations.Reachable: safety only; a restart is not shown to finish, since a task may subscribe to the shutdown channel after the signal was sent.
- UdpPortMap.OneOwnerEach: locks are not modelled, so absence of deadlock is not stated; more interleavings are allowed than the locks permit.
- FailureCounter.ThresholdHoldsIff: like ThirdFailureSignals, stated while fewer than 2^32 failures are in a row.
- FailureCounter.SignalsAreEarned: one counter's tasks only; a signal left over for the next control channel is not attributed to a generation.
- CommandLine.ParseUndoesQuote: arguments are sequences of characters; NUL and text that is not Unicode are not modelled, nor is the program name, which the runtime reads by other rules.
- Wire.PacketsRoundTrip: flow information and scope of an IPv6 address are not transmitted and come back as zero.
- RuntimeStatus.ConnectedIff: the detail of a teardown is the text after `safe_error`, which is not modelled; the server's side only; the client's setters and the listener state have no rules of their own.
- ImportLaws.ImportAgainChangesNothing: like ImportMeaning.ServiceIs, about documents without duplicate names; these, which TOML forbids in a services table, are excluded.
