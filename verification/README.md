# Magicbox appliance: a verified model

The appliance sits between a device and an upstream network. It captures and summarises the
traffic on an interface, and it can put the device behind a translated address by reconfiguring
two dedicated ports of the host. This project models its four difficult parts and proves what
each of them promises.

**The network transaction** (`Kernel`, `Transaction`, `Machine`, `Egress`, `Installation`, `Network`, `Runs`).
The controller changes addresses, routes, a policy rule, firewall tables and sysctls one call at
a time. A call may succeed, be refused, take effect and still be reported as failed, or be the
last thing the process does; the journal row is one durable write that may fail the same ways.
An oracle decides call by call, so every statement about a `Host` covers every pattern of faults
and crashes. `Host.reached` collects every durable state a run passes through, and `Runs.Run`
says of each of them that

- a host that differs from how it was before the first transaction is described by a journal
  from which the exact plan parses back and which holds the original settings (write-ahead);
- an appliance address, route or rule, or a changed forwarding setting, never exists without
  the `inet` table (guard coverage);
- a journal that says *awaiting confirmation* or *confirmed* holds a sound configuration that is in force:
  `Installation.InForce` says in the configuration's own texts which address, MAC, link, route, rule and
  setting is where, what traffic the host carries, and that nothing else has changed;
- while the `inet` table is loaded, what is forwarded to the inner link came in by the outer one and
  is for the device; and no packet leaves the outer link under another address than the outer one,
  unless a rollback's guard swap was refused and none has succeeded since; that takes a fault, and
  a reached state in which the rollback had failed to replace the complete rules.

From every such state one start-up and rollback without faults restore the host exactly (`Installation.AsBefore`).

**The packet dissector** (`Dissect`, `Hints`, `Frames`, `Headers`). The bounds-checked scan is proved to
compute a layer-by-layer reading of the frame; that reading inverts an independent encoder, never changes
its mind when a capture is longer, and does not see padding or VLAN tags. `Headers` says what every frame
shows, with each header field free: malformed, fragmented, truncated and unported ones too. `Hints`
builds DNS messages, TLS records and HTTP starts from their formats and proves that the hints recognise
exactly these.

**The telemetry pipeline** (`Engine`, `Tally`, `Amounts`, `Interval`, `FlowKey`, `Store`,
`Retention`, `Runtime`, `History`). The capture worker and the control thread meet under one mutex, so an
interleaving is a sequence of calls. Two ledgers hold over every interleaving of captures,
samples, switches and storage errors: one for the packets of an arbitrary flow key (`watched`,
a ghost constant, so it stands for every key) and one for the engine's counters. When the store
does not fail, the keys fit and nothing is old, the ledger closes on the direct sum (`Runtime.Run`).

**The address plan and the control protocol** (`Bits`, `Address`, `Text`, `Config`, `Json`,
`Control`). Validation by mask arithmetic is proved equivalent to a statement about sets of
addresses. The control queue and the sockets' acknowledgement handshake are a state machine of
atomic steps.

`Wrappers` holds the option and result types shared by all. `dafny verify dfyconfig.toml` checks everything.

## Where the code promises less

- Egress translation does not hold in every state: `Egress.EgressTranslated` shows that, while the
  `inet` table is loaded, it holds exactly when the complete rules do not stand without the `ip`
  table. `Egress.RefusedSwapLeaks` makes the calls of a rollback on a host with everything installed,
  under an oracle that rejects all of them until the translation is deleted: the policy rule and the
  routes then still lead the device's packets out (src/network.cpp:262-277). `Network.NetworkController.ShutForwarding` says exactly when a swap
  counts as refused.
- Only two VLAN tags are skipped: `Frames.TagIsTransparent` says that one more tag is invisible
  exactly while the frame carries at most one, and hides the packet otherwise (src/capture.cpp:17-20).
- A snapshot is not always granted against the latest number: `Control.StaleAck` sends two against
  one ack, because comparison and exchange are separate steps (src/server.cpp:255). A granted
  snapshot `n` answers an ack of `n - 1` if and only if no reply of the socket drew a number between
  the comparison and the exchange (`Control.FreshExactly`, and for every run `Control.Run`). A message
  compared while the flag is clear and no other is pending, with none compared before its exchange, is
  always answered fresh (`Control.FreshWhenAlone`).
- `apply` of a sound plan on a free host can still fail without any fault, when the outer port
  already carries the VLAN id under another name; `Network.NetworkController.Install` says that
  this is the only such case (src/network.cpp:244-249).
- Memory and journal need not agree: `Runs.UnwrittenConfirmation` is confirmed in memory and still
  awaited in the journal, because the status is changed before the write that throws
  (src/network.cpp:302). After every operation the two agree if and only if the last journal write
  was not one that left a different record in place (`Network.NetworkController.Save`, and the
  clause about `Current` of every operation), and they part only at a fault (the clause `Excused`).
- A storage error loses the interval it hits, because the previous counters advance and the maps
  are cleared anyway (src/server.cpp:187-189); the ledgers of `Runtime` name that loss.

## Assumptions about the kernel

Deleting `mbx-outer` removes its addresses and every route through it, which the rollback relies on
when it skips them (src/network.cpp:271). An nft batch is all-or-nothing. A gateway route is
accepted when the gateway is on a subnet of the device, which is up. Between calls the only thing
that changes is that traffic through accepting rules may create marked connections. Nothing else on
the host depends on the two ports being up: no route of another table goes out of them, and a link
stacked on one of them is down, so that taking a port down (src/network.cpp:240, src/network.cpp:283)
disturbs nothing.

## Model

| member | source | states |
|---|---|---|
| `Runs.Run` | src/network.cpp:165-310 | in every durable state reached by any number of process lives, enabled or not, with failing calls, failing journal writes and crashes anywhere: a changed host is described by a journal that parses back and holds the original settings; without the `inet` table no appliance address, route, rule or sysctl is there; a settled status goes with a sound configuration that is in force, text by text; inbound packets reach only the device; and egress is translated unless a guard swap was refused, which takes a fault and a reached state that witnesses it; and the host stays recoverable |
| `Runs.Live` | src/server.cpp:191-206 | one process from start-up over any requests to an orderly shutdown keeps the host recoverable; enabled and without a fault it does not end awaiting confirmation; with network control disabled it leaves kernel and journal as they were |
| `Runs.Serve` | src/server.cpp:70-75 | a request reaches its own operation: only an apply starts to await confirmation and only a confirm ends it by confirming; a successful apply leaves its configuration in force, a successful rollback nothing, and a tick before the deadline changes nothing |
| `Runs.RecoveryConverges` | src/network.cpp:177-182 | from every state a run can reach, one fault-free start-up and rollback, however slow, bring the host back to exactly the state before the first transaction: the same links, routes, rules, tables, settings and connections, but for those with the mark 0x4d425800, of which none is left |
| `Runs.Restarts` | src/network.cpp:176-183 | after any number of fault-free restarts the journal is still confirmed with the same plan and the same original settings, and the kernel is the same |
| `Runs.ConfirmedRestarts` | src/network.cpp:304-307 | a final rollback after any number of restarts restores the host from before the first apply |
| `Runs.UnwrittenConfirmation` | src/network.cpp:298-303 | a confirmation whose write is rejected is confirmed in memory and still awaited in the journal |
| `Runs.GuardCoverage` | src/network.cpp:250-258 | in a reachable state without the `inet` table there is no appliance address, route or rule, and both forwarding sysctls have their original values |
| `Machine.Host.Invoke` | src/network.cpp:52-69 | for each fault by itself, whether a call has its effect and how it ends; nothing else changes but marked connections |
| `Machine.Host.Put` | src/store.cpp:37-40 | for each fault by itself, whether a journal write replaces the row and how it ends |
| `Machine.DecodeEncoded` | src/network.cpp:196-217 | the journalled form of a sound plan decodes to that plan, so a rollback never fails at reading it; what the plan comes to, text by text, is `Installation.InstalledIsInForce` |
| `Machine.CallKeepsDurable` | src/network.cpp:222-233 | a call permitted in an open transaction leaves every safety property in force, whether it took effect, did not, or ended the process |
| `Machine.ReachedExtends` | src/network.cpp:264-268 | as states are added, a flagged one always has a fault and a reached refusal before it |
| `Installation.InstalledIsInForce` | src/network.cpp:235-259 | the complete result of a sound plan is that plan in force: the inner port has exactly the inner gateway address, the outer link exactly the outer one, the MAC bytes are the digits of the text, the rule 10424 selects the device at the inner port for table 4242, whose two new routes cover exactly the outer block and lead to the outer gateway; the device's packets leave under the outer address, packets for that address reach the device, nothing else passes either link; and nothing else of the host has changed |
| `Installation.UnoccupiedIsEligible` | src/network.cpp:198-214 | a plan can be applied exactly when both ports are present, not `lo`, without addresses or master, the link `mbx-outer`, both tables, table 4242 and priority 10424 are unused, and its VLAN id is not taken on the outer port |
| `Transaction.PermittedKeeps` | src/network.cpp:235-297 | every kernel call install and restore make keeps the change within the plan's footprint and the guard over everything that needs it |
| `Transaction.NftFrame` | src/network.cpp:250-258 | an nft batch changes the two appliance tables and nothing else of the host |
| `Transaction.EffectAfterTraffic` | src/network.cpp:124-131 | traffic arriving just before a call changes nothing about the call's effect except which marked connections exist |
| `Transaction.CleanIsWithin` | src/network.cpp:198-214 | a host no transaction has touched is within the footprint of every plan that may be applied to it, and needs no guard |
| `Network.StagesInstall` | src/network.cpp:235-259 | the stages of the installation, one after the other, give the complete result: both ports, the VLAN link, addresses, routes, rule, sysctls, rules and translation |
| `Network.Batches` | src/network.cpp:132-151 | loading the guard, and replacing it by the complete rules with their translation, each go through as one batch and never pass through a state without the table |
| `Network.UndoneIsRestored` | src/network.cpp:264-292 | a host on which every undo step but the guard's has succeeded differs from the original only by the guard and marked connections |
| `Network.EligibleWhenFree` | src/network.cpp:198-214 | the reservation and port checks accept exactly the hosts on which the transaction can be undone without losing anything |
| `Network.SameFacts` | src/network.cpp:176-183 | two records describing the same plan over the same original host agree on configuration, baseline and sysctls |
| `Network.NetworkController.constructor` | src/network.cpp:165-176 | the controller starts from the journal, or inactive without one, in a valid relation to the host |
| `Network.NetworkController.Recover` | src/network.cpp:177-182 | start-up undoes whatever the journal names and then installs and confirms a confirmed configuration again: same kernel, same record, or, when too slow to confirm, the original host; any other journalled transaction ends with the original host; disabled, it changes nothing |
| `Network.NetworkController.Apply` | src/network.cpp:193-234 | refuses without touching anything when disabled, active or unsound; without faults succeeds exactly when the plan is sound and the host unoccupied; on success the configuration is in force as its texts say (`Installation.InForce`), confirmation is awaited for sixty seconds and the journal says so; on failure without faults is inactive again |
| `Network.NetworkController.PrepareRecord` | src/network.cpp:198-219 | without faults accepts exactly the eligible hosts, and the record it prepares describes the host as it was before any change |
| `Network.NetworkController.CheckReserved` | src/network.cpp:198-204 | without faults succeeds exactly when no reserved table, link, routing table or rule priority is in use |
| `Network.NetworkController.ReadPorts` | src/network.cpp:205-214 | without faults succeeds exactly when both ports are present and unused, and returns their settings as they are |
| `Network.NetworkController.InstallAndAwait` | src/network.cpp:222-226 | awaiting confirmation is entered only from a complete installation, with the deadline sixty seconds after the clock reading |
| `Network.NetworkController.Install` | src/network.cpp:235-259 | success means the complete result; without faults it succeeds exactly when the VLAN id is free on the outer port; however it ends the transaction can be undone |
| `Network.NetworkController.PreparePorts` | src/network.cpp:236-242 | both ports get their sysctls and the outer one its address and up flag, and nothing else changes |
| `Network.NetworkController.PrepareVlan` | src/network.cpp:243-249 | the tagged link is created and configured exactly, and without faults fails only if the id is taken |
| `Network.NetworkController.LoadGuard` | src/network.cpp:250-251 | the guard is in place before any address or route |
| `Network.NetworkController.AssignAddresses` | src/network.cpp:252-254 | adds exactly the two appliance addresses under the guard |
| `Network.NetworkController.AddRoutes` | src/network.cpp:255 | adds exactly the two routes of table 4242 and the policy rule under the guard |
| `Network.NetworkController.LoadRules` | src/network.cpp:258 | the guard gives way to the complete rules and their translation in one step |
| `Network.NetworkController.Restore` | src/network.cpp:260-297 | success restores the host exactly and journals it as inactive; however it ends the host stays recoverable and the status is not a settled one; the `inet` table disappears only in the original host |
| `Network.NetworkController.RecordedPlan` | src/network.cpp:261 | the first line of a rollback cannot fail |
| `Network.NetworkController.UndoAll` | src/network.cpp:263-287 | every undo step is tried whatever became of the others, the guard is never removed among them, and no recorded error means that every step is done |
| `Network.NetworkController.ShutForwarding` | src/network.cpp:265-268 | forwarding is shut and the marked connections deleted before anything is undone; the swap counts as refused exactly when this step threw and the complete rules are still loaded, which takes a fault, and no longer once a guard is there |
| `Network.NetworkController.UndoRouting` | src/network.cpp:269-274 | rule, routes and outer address are gone when no error is recorded, the guard is untouched |
| `Network.NetworkController.UndoLinks` | src/network.cpp:275-276 | the inner address and the tagged link are gone when no error is recorded |
| `Network.NetworkController.UndoSettings` | src/network.cpp:277-279 | the translation is gone and both sysctls have their recorded values when no error is recorded |
| `Network.NetworkController.UndoPorts` | src/network.cpp:280-287 | both ports have their recorded address, sysctls and up flag when no error is recorded |
| `Network.NetworkController.DropGuard` | src/network.cpp:288-292 | the guard goes only from a host that is otherwise restored, and leaves exactly the original host |
| `Network.NetworkController.Conclude` | src/network.cpp:293-296 | the outcome is journalled; success is reported only if nothing is left to undo and the journal says so |
| `Network.NetworkController.Save` | src/network.cpp:262 | the journal becomes memory exactly if the write was made, and the two differ afterwards exactly if it was not and would have changed something, which takes a fault |
| `Network.NetworkController.Confirm` | src/network.cpp:298-303 | confirmed is entered only when enabled, awaiting confirmation and before the deadline, without faults exactly then; an overdue configuration ends, without faults, in the original host |
| `Network.NetworkController.Rollback` | src/network.cpp:304-307 | success leaves the controller inactive on the original host; an inactive or disabled controller changes nothing |
| `Network.NetworkController.Tick` | src/network.cpp:308-310 | rolls back exactly an enabled, unconfirmed and overdue configuration, to the original host when it succeeds, and does nothing otherwise |
| `Network.NetworkController.RecordFacts` | src/network.cpp:176-181 | a record in force holds a sound plan in full, and a settled one stands for the installed host in memory as in the journal |
| `Egress.GuardBlocks` | src/network.cpp:132-136 | with the guard loaded nothing is forwarded into or out of either interface |
| `Egress.FullForwarding` | src/network.cpp:137-151 | with everything loaded, what is forwarded is exactly the device's traffic to the outside, under the outer address, and the outside's traffic to the outer or device address, delivered to the device |
| `Egress.EgressTranslated` | src/network.cpp:141-151 | while a table is loaded, every packet leaving the outer interface carries the outer address if and only if the complete rules do not stand without their translation |
| `Egress.InboundReachesDevice` | src/network.cpp:137-151 | while a table is loaded, translated or not, what is forwarded to the inner link came in by the outer one and carries the device's address |
| `Egress.ReachableEgress` | src/network.cpp:264-277 | in every durable state with a table loaded inbound packets reach only the device, and unless a refused guard swap still stands no packet leaves under another address |
| `Egress.RefusedSwapLeaks` | src/network.cpp:262-277 | a rollback whose calls are all rejected until it deletes the translation reaches a state in which the policy rule and a route still send the device's packets out, to any destination and under the device's own address |
| `Dissect.Dissect` | src/capture.cpp:9-79 | the scan reads only inside the frame and finds exactly what the layer-by-layer reading finds |
| `Dissect.DissectNetwork` | src/capture.cpp:21-48 | the network header is read within the capture, and the transport part only within what the IP lengths allow |
| `Dissect.DissectSegment` | src/capture.cpp:49-78 | ports and hint are read only within the captured IP payload, whatever its lengths claim, and are those of the transport header (`Headers.TcpShows`, `Headers.UdpShows`) |
| `Dissect.DissectStream` | src/capture.cpp:68-73 | the prefix loop and the record check give the hint the payload satisfies |
| `Hints.DnsHint` | src/capture.cpp:74-77 | a payload passes the DNS test if and only if it is a message with opcode 0 and a positive question count, whatever its other header fields and its rest |
| `Hints.TlsHint` | src/capture.cpp:71-73 | a payload passes the TLS test if and only if it is a record of type 22, major version 3, minor version at most 4, that begins a client or server hello |
| `Hints.HttpHint` | src/capture.cpp:69-70 | a payload passes the HTTP test if and only if it begins with the text of one of six methods and a space, or of the version |
| `Hints.HintsAreContents` | src/capture.cpp:68-77 | for every payload and pair of ports the hint is what the payload is, read from the formats |
| `Frames.DissectInvertsEncoding` | src/capture.cpp:9-79 | for up to two tags, every IPv4 header length or IPv6, every unfragmented TCP or UDP segment up to the longest either version can carry, every payload and every padding, the encoded addresses, ports and protocol come back, and the hint the payload's format calls for |
| `Frames.DnsOverUdp` | src/capture.cpp:74-77 | a DNS message sent over UDP is found as DNS exactly on port 53, with opcode 0 and at least one question |
| `Frames.TlsOverTcp` | src/capture.cpp:71-73 | a TLS record sent over TCP is found as TLS exactly as a client or server hello of a known version |
| `Frames.HttpOverTcp` | src/capture.cpp:69-73 | a stream is found as HTTP exactly when it begins with one of the seven texts |
| `Frames.V4Inverts` | src/capture.cpp:25-38 | an IPv4 header with any options and any unused flag yields its addresses and exactly its body |
| `Frames.V6Inverts` | src/capture.cpp:39-47 | an IPv6 header yields its addresses and exactly its body, whatever follows |
| `Frames.TcpInverts` | src/capture.cpp:50-55 | a TCP header with any options yields its ports, and the hint is judged on exactly the payload |
| `Frames.UdpInverts` | src/capture.cpp:56-60 | a UDP header yields its ports, and the hint is judged on exactly the payload |
| `Frames.TagsSkipped` | src/capture.cpp:17-20 | up to two stacked tags of either kind are skipped to the kind they carry |
| `Hints.HintsExclusive` | src/capture.cpp:69-73 | no payload looks like both HTTP and TLS, so the order of the checks does not matter |
| `Frames.TruncationIsMonotone` | src/capture.cpp:13-67 | whatever is found in a prefix of a frame is found with the same value in the whole frame |
| `Frames.PaddingIsInvisible` | src/capture.cpp:30-42 | two captures that hold the whole IP datagram give the same metadata whatever bytes follow |
| `Frames.TagIsTransparent` | src/capture.cpp:15-20 | a tag inserted at byte 12 changes nothing that is found, unless the frame already carries two, and then nothing is found |
| `Frames.ThreeTagsHide` | src/capture.cpp:17-48 | a frame with three or more tags yields no address, port, protocol or hint |
| `Headers.Ipv4Shows` | src/capture.cpp:25-38 | an IPv4 packet with every field free shows nothing if its version or lengths are impossible, its addresses alone if it is a first or later fragment, and otherwise its addresses and what the transport layer shows of exactly the captured part its lengths leave |
| `Headers.Ipv6Shows` | src/capture.cpp:39-47 | an IPv6 packet with every field free shows nothing under another version, and otherwise its addresses and what its next-header number makes of the captured part of its length |
| `Headers.FragmentsShowAddresses` | src/capture.cpp:36-37 | a fragment, first or later, shows its addresses and neither protocol, port nor hint |
| `Headers.UnportedShows` | src/capture.cpp:61-64 | a packet of any protocol but TCP and UDP shows its addresses and no port, and ICMP exactly for the numbers 1 and 58 |
| `Headers.TcpShows` | src/capture.cpp:50-55 | a TCP header with every field free shows its ports exactly if it is there in full with a possible length, and a hint, on exactly what follows it, only in a complete capture |
| `Headers.UdpShows` | src/capture.cpp:56-60 | a UDP header with every field free shows its ports exactly if its length is at least eight, and a hint, on exactly the length it claims, only if that was captured |
| `Headers.OtherKindsShowNothing` | src/capture.cpp:48 | behind up to two tags, a kind other than the two IP ones shows nothing |
| `Headers.EveryIpv4Packet` | src/capture.cpp:25-38 | any twenty bytes are the header of one of these packets, so that what is said of them is said of every capture |
| `Engine.CaptureEngine.Receive` | src/engine.cpp:38-44 | every packet is counted; it is queued unless the queue is full, and then counted as dropped; the accepted stream stays the captured one without the dropped positions, and the capacity bound stays |
| `Engine.CaptureEngine.Capture` | src/engine.cpp:36-45 | any number of turns of the worker between two steps of the control thread keeps conservation |
| `Engine.CaptureEngine.Drain` | src/engine.cpp:64-74 | takes the oldest packets in order, at most the limit; drained followed by queued stays the accepted stream |
| `Tally.CappedIsExact` | src/server.cpp:137-151 | a capped map holds precisely the first distinct keys up to the cap, each with its complete total, and kept packets plus omitted ones are all packets |
| `Tally.NoneOmitted` | src/server.cpp:179 | when nothing was omitted, a key without an entry has no packet in the stream |
| `Tally.RoomForAll` | src/server.cpp:137 | a stream of no more distinct keys than the cap is kept in full, with nothing omitted |
| `Amounts.SumUpsert` | src/store.cpp:47 | adding to a row, or opening one, adds exactly that amount to the sum over the table |
| `Amounts.SumSplit` | src/store.cpp:49 | what a deletion removes and what it leaves add up to what was there |
| `Interval.AddFlow` | src/server.cpp:134-146 | one more packet keeps the flow map the exact capped aggregate of the interval, each row spanning the first and last timestamps of its packets |
| `Interval.AddTalker` | src/server.cpp:148-151 | one more packet keeps the talker map the exact capped aggregate of the interval |
| `Interval.TotalIsDirect` | src/server.cpp:134-146 | the direct sum of a key counts each packet of that flow once, with its bytes on the wire |
| `Interval.IntervalIsExact` | src/server.cpp:132-158 | the flow map's keys are the first 4096 distinct ones, each with its complete packets and bytes, and kept packets plus omitted ones are the packets with addresses |
| `Interval.TalkersAreExact` | src/server.cpp:148-151 | each listed source has all its bytes, and with nothing omitted every source is listed |
| `Interval.TopTalkers` | src/server.cpp:170-176 | up to ten talkers, largest first, none outweighed by one that is not shown |
| `Interval.LastAre` | src/server.cpp:154-158 | the recent list is the last packets, in order and as many as there are up to the limit |
| `Interval.LastOfLast` | src/server.cpp:154-158 | trimming after every drain leaves the last packets of the whole session |
| `Interval.MakeBatch` | src/server.cpp:182-183 | upserting the batch, in whatever order its rows are taken, merges the interval into the stored table |
| `Interval.MergeAdds` | src/store.cpp:79 | the merged table holds, per key, the sum of what was stored and what was collected |
| `Interval.MergeTaken` | src/store.cpp:79-84 | field by field: a first-seen time once stored stays, the last one is the interval's, packets and bytes add up, and only what is older than the cut-off or not among the 10000 most recently seen is missing |
| `FlowKey.KeyInjective` | src/server.cpp:135-136 | equal keys mean equal interface, addresses, protocol and ports |
| `FlowKey.KeyText` | src/server.cpp:135-136 | the key is the six texts in order with bars between them, an absent port being empty |
| `Runtime.FlowsOfACapture` | src/server.cpp:117-118 | an accepted interface name cannot blur the keys of two flows |
| `Runtime.AcceptsName` | src/server.cpp:117-118 | accepts exactly one to fifteen letters, digits, underscores, hyphens and dots |
| `Store.Store.Sample` | src/store.cpp:46-50 | after an insertion the second has exactly the new protocol counts, and its packets and bytes are the old ones plus the delta; every other second keeps its row, but for those more than a week older once the clean-up has run; a failed insertion changes nothing |
| `Store.Store.RecordFlows` | src/store.cpp:75-89 | a batch that fails at any statement changes nothing; in a committed one every row keeps its first-seen time, has the last one of the batch and the amounts added up, only recent rows are left, within the limit, and the least recently seen go first |
| `Store.BatchTaken` | src/store.cpp:79 | a batch opens a row exactly for each new key, with the first record's first-seen time, and adds to the others without overwriting theirs |
| `Store.SampleAdds` | src/store.cpp:47 | a sample adds its packets and bytes to the table's sum, also when another sample has the same second |
| `Store.CleanupRemoves` | src/store.cpp:49 | retention removes from the table's sum exactly the expired rows |
| `Retention.NothingGone` | src/store.cpp:83-84 | a table of no more rows than the limit, none older than the cut-off, loses none to a clean-up |
| `Retention.NothingExpires` | src/store.cpp:49 | where no flush lies more than a week after any sample, no sample expires |
| `Retention.TraceExtends` | src/server.cpp:180-189 | a flush in any of its outcomes leaves rows and samples only of what was there before or was flushed, and omits or removes nothing unless keys were too many or something was too old |
| `Runtime.ApplianceRuntime.Absorb` | src/server.cpp:132-158 | after a drain every aggregate is exact for the interval so far, and the recent list is the last 200 packets of the session |
| `Runtime.ApplianceRuntime.Flush` | src/server.cpp:159-189 | a flush keeps both ledgers, reports the interval's own numbers, leaves the tables as the store's outcome dictates, field by field, the stored details counting exactly the interval's packets under their protocols; it records exactly how many packets it omitted and how many rows and samples it removed, and starts an empty interval at the current counters whether or not anything was stored |
| `Runtime.ApplianceRuntime.Report` | src/server.cpp:164-179 | the metrics count the interval's protocols exactly, list its dominating talkers, give the exact numbers of omitted talkers and flows, and call the breakdown complete exactly when nothing was dropped and no talker omitted |
| `Runtime.ApplianceRuntime.StoreSample` | src/server.cpp:180-181 | the delta is stored, expired or lost, and nothing else |
| `Runtime.ApplianceRuntime.StoreFlows` | src/server.cpp:182-184 | the interval's rows are merged, evicted or lost, and nothing else |
| `Runtime.ApplianceRuntime.Sample` | src/server.cpp:129-190 | takes the whole queue into the interval and, when due or forced, flushes precisely the exact aggregates of everything since the last flush and records what that omitted and removed; nothing is left queued once the worker has stopped; counters never run behind the previous ones |
| `Runtime.ApplianceRuntime.StartCapture` | src/server.cpp:116-128 | a refused name or source changes nothing; otherwise the earlier capture is stopped, emptied and accounted for in full before anything that may fail; only success switches, to a queue of 8192 |
| `Runtime.ApplianceRuntime.StopCapture` | src/server.cpp:80-83 | the capture ends with nothing queued and its counters fully accounted for, whether or not the setting can be stored |
| `Runtime.ApplianceRuntime.StopAndSample` | src/server.cpp:203-204 | after a stop and a forced sample nothing is queued, and stored plus expired plus lost deltas equal all packets and bytes ever captured |
| `Runtime.Run` | src/server.cpp:191-202 | over any interleaving of captures, samples, switches and deletions both ledgers hold; with a calm store, no more distinct keys than fit, and no packet or row older than the clean-ups look back, the table holds the direct sum over everything drained; and within one week no sample expires |
| `Runtime.StoredIsDirectSum` | src/server.cpp:180-189 | two stages of aggregation refine one pass: wherever the flushes fall, stored and pending amounts of any key, with what was capped, lost or evicted, equal the direct sum over the stream; with none of those the stored amount is that sum |
| `History.Query` | src/store.cpp:51-74 | refuses exactly the ranges and intervals the endpoint refuses; otherwise each number of each row, packets, bytes, samples and the four protocol counts, is the sum of that number over the samples of the row's interval, rows ascend and are not empty, and a sample is without a row only if 1000 rows of earlier intervals fill the answer |
| `History.HistoryConserves` | src/store.cpp:54-59 | each number, summed over all rows, is the sum of that number over all samples of the range |
| `History.RowsAreBuckets` | src/store.cpp:54-59 | there is a row exactly for each interval with a sample in the range, in ascending order, and each number of it is the sum over that interval's samples |
| `History.BucketIsInterval` | src/store.cpp:54 | truncating division puts a second in the interval that starts at most one interval before it, or ends at most one after it if it is negative |
| `History.HistoryIsComplete` | src/store.cpp:59 | a range of up to 999 intervals needs at most 1000 rows, so nothing is cut off |
| `History.HistoryNests` | src/store.cpp:54 | regrouping fine rows gives the coarse rows, for unaligned ranges and negative timestamps too |
| `History.MinutesRegroup` | src/store.cpp:52-54 | 60-second rows regroup into exactly the 300- and 3600-second rows, protocol and sample counts included |
| `Config.Validate` | src/config.cpp:39-72 | reports no error exactly for sound plans: well-formed fields, two disjoint blocks, four usable hosts |
| `Config.ValidateFields` | src/config.cpp:41-52 | reports no field error exactly when both names are valid and differ, all four addresses are unicast, the paired texts differ, both prefixes are from 1 to 30, the MAC is unicast and the VLAN id absent or from 1 to 4094 |
| `Config.ValidInterface` | src/config.cpp:10-17 | accepts exactly the names of one to fifteen letters, digits, underscores, hyphens and dots other than `.` and `..` |
| `Config.UnicastIpv4` | src/config.cpp:18-24 | accepts exactly the dotted unicast addresses |
| `Config.UnicastNumbers` | src/config.cpp:21-23 | a dotted address is unicast exactly if its first number is from 1 to 223 and not 127 |
| `Config.UnicastMac` | src/config.cpp:25-36 | accepts exactly the nonzero unicast addresses in colon form |
| `Config.HostUsableIsUsable` | src/config.cpp:63-65 | the mask test for a usable host means neither first nor last address of the block |
| `Config.SameNetwork` | src/config.cpp:66-67 | equal masked addresses mean membership in the block |
| `Config.SameText` | src/config.cpp:49-50 | comparing accepted texts compares addresses |
| `Config.AcceptedPlan` | src/network.cpp:102-115 | the four hosts are pairwise distinct, and the installed subnet route reaches the outer gateway and neither inner host |
| `Config.MaskedBlock` | src/network.cpp:111-112 | the masked outer address stands for the same block as the address itself |
| `Address.OverlapTest` | src/config.cpp:68-69 | comparing under the shorter mask decides whether two blocks share an address, in both directions |
| `Address.TextIsUnique` | src/config.cpp:18-20 | an accepted address has exactly one text |
| `Address.NumbersAreAccepted` | src/config.cpp:18-20 | four numbers of up to 255 in decimal, with dots between them, are accepted as the address they make up |
| `Address.TextIsAccepted` | src/config.cpp:18-20 | every address is accepted in its dotted text and read back unchanged |
| `Address.MacRoundTrip` | src/config.cpp:25-36 | every six bytes are accepted in colon form, in either spelling of the digits, and read back unchanged |
| `Bits.MaskSplits` | src/config.cpp:59-60 | masking keeps the network part and the complement keeps the host part |
| `Json.ConfigFromJson` | src/json.cpp:32-62 | parses exactly the values of the right shape that hold a sound plan, and to a plan whose every field is the value of the member of its own name |
| `Json.PlanRoundTrip` | src/json.cpp:22-62 | a plan survives its JSON form unchanged if and only if it is sound |
| `Json.AcceptedIsEncoding` | src/json.cpp:32-55 | an accepted value with integer numbers is the JSON form of its plan: no member is lost or invented |
| `Json.WholeNumbersAreRead` | src/json.cpp:40-55 | prefixes written as fractions of zero fraction part give the same plan |
| `Json.FractionsAreRefused` | src/json.cpp:40-55 | a negative prefix, or one with a fraction part, is refused |
| `Control.ControlPlane.Submit` | src/server.cpp:44-53 | a job goes to the back of a queue of at most 64, or its reply is called on the spot |
| `Control.ControlPlane.Take` | src/server.cpp:194-198 | the control thread takes the oldest job |
| `Control.ControlPlane.Answer` | src/server.cpp:47-51 | a running job's reply is called once, and a socket's reply begins |
| `Control.ControlPlane.Compare` | src/server.cpp:255 | a message passes the first step exactly when its ack is the text of the current sequence number |
| `Control.ControlPlane.Exchange` | src/server.cpp:255 | a lost exchange removes its pending comparison and leaves everything else of the socket alone; a won one sets the flag and is promised the next number |
| `Control.ControlPlane.SubmitSnapshot` | src/server.cpp:256 | a granted snapshot waits in the queue, or its refusal is already being replied |
| `Control.ControlPlane.Number` | src/server.cpp:257 | the reply draws the next number |
| `Control.ControlPlane.Send` | src/server.cpp:258 | the number drawn is delivered exactly if the peer is connected |
| `Control.ControlPlane.Release` | src/server.cpp:259 | the flag is cleared last |
| `Control.ControlPlane.Shutdown` | src/server.cpp:207-208 | what is still queued is dropped, and nothing else |
| `Control.Run` | src/server.cpp:44-53 | over every interleaving the queue stays within 64 and first-in first-out, each socket has at most one outstanding snapshot, a peer that does not leave stays connected and, whenever the flag is clear, has been sent exactly 1, 2, 3 and so on up to the socket's number, and every granted snapshot is fresh if and only if nothing was drawn between its message's comparison and its exchange |
| `Control.RepliedOnce` | src/server.cpp:44-53 | every submitted job is in exactly one place, and its reply has been called once if it is finished or was refused and not at all while it is queued, running or dropped |
| `Control.OneOutstanding` | src/server.cpp:255-260 | two unanswered snapshots of a socket are the same one, and its flag is set |
| `Control.FreshExactly` | src/server.cpp:255-257 | a granted snapshot answers an ack of the number before it if and only if no reply of the socket drew a number between comparison and exchange |
| `Control.FreshWhenAlone` | src/server.cpp:255-257 | a message compared while the flag is clear and no other is pending, with none compared before its exchange, is answered fresh |
| `Control.StaleAck` | src/server.cpp:255 | an interleaving in which the second of two messages with the same ack is granted a snapshot after the first reply drew its number |

## Left out

- Netlink encoding, `nft` and `ip` text, procfs, process spawning and file locks: kernel calls appear by their effect, with success, failure or unknown outcome.
- What else a real kernel does to a link that goes down (routes and IPv6 addresses flushed, stacked links taken down): excluded by the assumption that nothing else uses the two ports.
- Stateful translation of replies by connection tracking: `Egress` judges each packet by the rules alone.
- The error texts: a rollback's errors are a list of the steps that failed, a validation's a list of error values, an HTTP reply's its being called.
- Other actors changing the host's network during a transaction, host reboots, and a second controller.
- `network.state()`, the interface list and the remaining seconds: views of the state.
- JSON text and SQLite internals: values and tables are maps, statements and transactions atomic steps; the store's `get` is the controller reading its journal.
- SQL grouping: `History.Query` scans the range second by second in its place.
- The listing of flows (`connections`) and the metadata column of a flow row: display only.
- FlowKey.KeyInjective: assumes that interface names and address texts do not contain `|`; accepted capture names do not (`Runtime.FlowsOfACapture`), and `inet_ntop` prints no such character.
- `inet_ntop` text: the dissector's addresses are raw bytes; the flow key takes address texts without the separator.
- Link types other than Ethernet, the pcap source and its kernel drop counter: input and library wrappers.
- The engine's refusal to be started twice, and its error text: the runtime starts every engine once.
- Rates per second and elapsed time: floating point, for display.
- The narrowing of 64-bit counters to SQLite's signed integers: counters are unbounded here.
- `std::sort` over the talkers: replaced by repeated selection of a largest one, with any order among equals.
- Replies that throw: a reply is a step that ends.
- Tokens, origins, routing of requests, option parsing, the web dashboard and deployment files: input and presentation.
