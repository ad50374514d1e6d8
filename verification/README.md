# DockPulse firmware: verified model

A Dafny model of the parts of the DockPulse firmware in which a mistake is hardest to see: how the gateway adopts
and decommissions berth sensors, the berth table it keeps, the sensor's side of the handshake, and the path of a
radar reading from the UART to the mesh. `dafny verify dfyconfig.toml` checks everything.

## Layout

The C files work by updating statics, so each is a class (or a method with the same loop) with one method per C
function, proved against a function on values. What the firmware is for is then proved about runs of that function.

| modules | what they hold |
|---|---|
| `Common` | machine integers, error codes, little-endian numerals |
| `Framing`, `Radar`, `CommandAck` | the byte-at-a-time readers, against a stream grammar |
| `Specimens` | frames and payloads byte by byte |
| `Codec`, `SensorLoop` | the two mesh payloads; near filter and the read / recover / publish loop |
| `BerthMap`, `BerthTable`, `Persistence` | the 16-slot table as an injective map; saves, reboots, migration |
| `GatewayModel`, `Gateway` | one callback as a step of a state machine; the C statics as a class that refines it |
| `Moves` | the normal form of a step: flow, messages, stores, commands |
| `Ledger`, `ProgressTrace`, `FlowPath`, `Course`, `Leftovers`, `Stores`, `Decommission`, `Timing` | properties of all runs |
| `Reboots` | the stores over runs with saves and restarts |
| `SensorModel`, `SensorNode` | the sensor's mesh side, as a machine and as its statics |
| `Agreement`, `Deadlines` | gateway, sensors and a lossy channel together; the same with time |

## Environment

- A callback is one atomic step, and `on_prov_done` starts no flow from inside it. This alone carries `Ledger`,
  `FlowPath.FlowIsOnItsTrail`, `FlowPath.OkExactlyAfterThreeLegs`, `Course.OrdersAreInTurn`,
  `Stores.ArmedExactlyInFlight`, `Timing.NineCommandsAtMost` and `Decommission`.
- Sends, deletions, clears, saves and allocation may fail at every step, independently: `Env` lists the outcomes.
  Creating the flow timer succeeds. Opening and reading NVS succeed in the gateway's callbacks, and its berth table was
  loaded at boot; `BerthTable` itself covers the other cases.
- `Moves.Matched`: the stack answers only the command last sent to the flow's node, in opcode and sender, and completes
  a flow's provisioning once. `FlowPath` needs it for the exact path, `ProgressTrace` only its weaker form `InOrder`,
  `Agreement` all of it. `Leftovers` derives it from two simpler promises: each command taken is answered at most once,
  and nothing is left over when a flow begins.
- `Stores.Promised`: events come in order, and completions carry fresh addresses and UUIDs.
- A taken command is answered or times out within the 8 s of `msg_timeout` (`Timing.Prompt`, `Deadlines.Timely`).
- `Agreement`: packets are never forged, device keys are fresh, a node completes a handshake once and acknowledges a
  setting after its callback, nobody decommissions the node being adopted, and there is no power loss or button reset. Everything sent may be lost,
  repeated, delayed or reordered.
- `Deadlines`: a watchdog expires 90 s after it was started, and a flow's provisioning completes at the gateway less
  than 18 s after it did at the sensor, if it did there first.
- Strings contain no NUL. A failed NVS read leaves its buffer as it was; a save is atomic.

## Where the code falls short

Each of these is proved here: the exact condition under which the property holds and, where it takes more than reading
that condition off, a run that breaks it.

- `on_cfg_client` never looks at who answered, and at the opcode only to find node resets while a decommission is open.
  - One late node-reset acknowledgement from another node makes a flow report ok whose publication setting was never
    acknowledged (`FlowPath.LateResetAckReportsOk`), even when the stack owes just that acknowledgement
    (`Leftovers.OwedResetAckReportsOk`). A flow that reports ok took the full path, with every answer from
    the node its completion named, if and only if only such answers reached it (`FlowPath.OkByTheFullPath`).
  - The reset that rolls a failed flow back is still unanswered when the next request comes, and its timeout ends the
    new flow before its device is provisioned (`Leftovers.RollbackTimeoutEndsNextFlow`). An answer leaves the flow in
    flight alone if and only if it is about a node reset and a decommission is open
    (`Leftovers.LeftoverHarmlessExactly`); flows that begin with nothing left over are not disturbed
    (`Leftovers.CleanStartsKeepFlowsApart`).
  - Another node's acknowledgement ends a decommission with ok (`Decommission.AnotherNodesAckEndsIt`). One reported ok
    was acknowledged by its own node if and only if no other node's reply to a reset reached it while it was open
    (`Decommission.OkFromItsOwnNode`).
- A decommission whose reset the stack refused is not retried. It ends at the first reply to a node reset, or at the
  reset timeout that finds three attempts made, and at nothing else (`Decommission.OpenExactlyUntilAnswered`).
- A decommission may take away the node being configured, which then gets a berth without a node
  (`Stores.DecommissionOfTargetSplitsStores`). The berth table names nodes alone throughout a run if and only if no flow
  reports ok, with a berth to record, after its node was decommissioned under it (`Stores.StoresStayInStepExactly`).
- A refused save parts flash from RAM, and a decommission saves nothing when RAM has no entry. A berth then outlives its
  node: after a restart the table names a deleted node, though the decommission's reply said orphan without a code
  (`Reboots.OrphanKeptInFlash`) or even ok (`Reboots.UnsavedHotSwap`, `Reboots.OkKeptInFlash`). The table, in RAM and in
  flash, names nodes alone across restarts if and only if no decommission deletes a node whose berth stays in flash, and
  no flow records a berth for a node that is gone (`Reboots.StoresStayInStepAcrossReboots`).
- `on_prov_done` ignores what recording the berth returned. A flow that reports ok has its berth in the table if and only
  if the table had room, and in flash if and only if the save succeeded too (`Reboots.OkRecordsItsBerthExactly`).
- `dp_prov_forget_unicast(0)` matches the first empty slot and lowers the counter; the counter stays exact if and only
  if the table is empty or full (`BerthTable.Table.ForgetUnicast`). This is latent: both callers exclude address 0.
- At boot a stored table is loaded if and only if its blob can be read and, for the version-1 layout, its size queried;
  otherwise loading mostly reports success with an empty table (`Persistence.BootTable`), and the next berth saved is
  all that is left (`Persistence.BootErrorLosesBerths`).
- A sensor that loses power between its provisioning and its configuration comes back ready and armed to publish to the
  group, though the gateway has set no publication and perhaps given no application key; its watchdog is not started
  again (`SensorModel.RebootMidConfigurationLooksReady`). A ready node is unconfigured if and only if it booted between
  obtaining its identity and its first publication setting (`SensorModel.ReadyYetUnconfiguredExactly`). The header
  `dp_mesh.h` also says that the ready callback fires after PB-ADV completes; it fires on the publication setting.
- The millimetre reading is right if and only if the distance is at most 6553 cm (`Codec.RawMillimetres`).
- The read after a status published at tick 0 is published too, however soon it comes
  (`SensorLoop.TickZeroPublishesAgain`); `SensorLoop.Run` says exactly which reads are published.
- A refused clear of the UUID match leaves it armed until the next flow (`Stores.ArmedExactlyInFlight`), and a refused
  deletion leaves the node after a rollback (`Stores.FailedFlowRollsBack`).

## Model

| member | source | states |
|---|---|---|
| Codec.StatusPack | components/dp_common/dp_common.c:14-37 | writes exactly the documented 11-byte layout and leaves the rest of the buffer alone; a missing or short buffer is refused unchanged |
| Codec.StatusUnpack | components/dp_common/dp_common.c:39-55 | rejects exactly the missing and the short buffer; otherwise every field is the numeral at its offset |
| Codec.DiagPack | components/dp_common/dp_common.c:57-84 | the gate loop and its running index write exactly the 42-byte layout |
| Codec.DiagUnpack | components/dp_common/dp_common.c:86-108 | every field, the signed target state and all gates included, is the numeral at its offset |
| Codec.StatusRoundTrip | components/dp_common/dp_common.c:14-55 | packed bytes, whatever follows them, decode to the packed message and to no other |
| Codec.DiagRoundTrip | components/dp_common/dp_common.c:57-108 | the same for diagnostics, for both signs of the target state |
| Codec.StatusRepack | components/dp_common/dp_common.c:14-55 | packing what was unpacked restores the bytes, with the occupied byte made 0 or 1 |
| Codec.DiagRepack | components/dp_common/dp_common.c:57-108 | packing what was unpacked restores all bytes |
| Codec.RawMillimetres | main/sensor_main.c:26-41 | the 16-bit millimetre field equals ten times the distance if and only if the distance is at most 6553 cm |
| Codec.ToDiag | main/sensor_main.c:44-57 | the copying loop yields the sample's own fields and all 16 gates |
| Framing.MatchIsLongestBorder | components/dp_radar/dp_radar.c:205-216 | falling back to one or zero matched bytes computes the longest border, because the header's bytes are distinct |
| Framing.HuntStep | components/dp_radar/dp_radar.c:205-216 | one byte of the hunt; completing the match means that the first header of the stream ends here |
| Framing.FirstHeaderAfterJunk | components/dp_radar/dp_radar.c:205-216 | bytes without a whole header, even ones ending inside one, do not hide or create a header |
| Radar.Read | components/dp_radar/dp_radar.c:172-268 | for every byte stream the three-state loop returns what the recursive grammar returns and uses up the same bytes; all buffer indices are in bounds |
| Radar.DecodeFrame | components/dp_radar/dp_radar.c:246-263 | presence, distance, signed state and gates are the body's numerals; a short body gives zero gates |
| Radar.FrameIsContiguous | components/dp_radar/dp_radar.c:204-266 | a success is a contiguous encoded frame of the stream with a body of 3 to 54 bytes, ending where reading stopped |
| Radar.FalseHeaderCost | components/dp_radar/dp_radar.c:204-266 | a header is settled within 64 bytes: they give the result, or hunting goes on inside or right after them |
| Radar.JunkThenFrame | components/dp_radar/dp_radar.c:204-266 | behind any bytes without a whole header an encoded frame is the result, and exactly its bytes are consumed |
| Radar.SampleRoundTrip | components/dp_radar/dp_radar.c:246-263 | the sample decoded from the frame that encodes a sample is that sample and no other |
| Radar.ResyncWithinThreeFrames | components/dp_radar/dp_radar.c:204-266 | after any junk, three back-to-back frames whose only headers are their starts yield a success by the end of the third |
| Radar.BodyReachesMesh | main/sensor_main.c:44-57 | for a full frame, bytes 3 to 37 of the packed diagnostics are bytes 0 to 34 of the frame body |
| CommandAck.ReadCommandAck | components/dp_radar/dp_radar.c:55-121 | the loop returns what its grammar says of the first command frame: OK, FAIL or TIMEOUT |
| CommandAck.AckOfFrame | components/dp_radar/dp_radar.c:55-121 | a well-formed answer behind junk is accepted if and only if its first byte is the low byte of the request word and its second has the lowest bit set and the request's bits above it |
| CommandAck.WantCmdSetsOneBit | components/dp_radar/dp_radar.c:62 | the awaited word is the request word with bit 8 set and every other bit kept |
| CommandAck.OkIsAFrame | components/dp_radar/dp_radar.c:55-121 | and nothing else is accepted: at the first command header of the stream there is a whole command frame with such a word |
| CommandAck.ReportModeAnswer | components/dp_radar/dp_radar.c:36-62 | after the mode change, a command frame behind junk is accepted if and only if its body starts with the bytes 12 01 |
| CommandAck.EchoIsNoAck | components/dp_radar/dp_radar.c:36-48 | the mode-change constant is a well-formed command frame, and its echo is not taken for an answer |
| Specimens.AnswerIsTaken | components/dp_radar/dp_radar.c:30-121 | the fourteen bytes of the radar's answer to the mode change are accepted, whatever follows |
| Specimens.FullReport | components/dp_radar/dp_radar.c:27-28 | the 45 bytes of a report, spelled out around any payload, are read as that payload |
| Specimens.FullReportSample | components/dp_radar/dp_radar.c:246-263 | presence, signed state, distance and the sixteen gates are the payload's bytes, low byte first |
| Specimens.ShortReport | components/dp_radar/dp_radar.c:246-263 | a three-byte payload gives its distance and negative state, and sixteen zero gates |
| Specimens.StatusLayout | components/dp_common/dp_common.c:14-37 | each of the eleven bytes of the status payload, in the fields of the status |
| Specimens.DiagLayout | components/dp_common/dp_common.c:57-84 | each of the 42 bytes of the diagnostic payload, in the fields of the diagnostics |
| SensorLoop.NearFilter.Near | components/dp_radar/dp_radar_filter.c:19-29 | near if and only if at least N samples were given and each of the last N is a success with presence and a distance from 1 to the threshold, over any history |
| SensorLoop.Run | main/sensor_main.c:26-137 | over any sequence of reads: the LED is on if and only if each of the last N successful reads has presence and a distance from 1 to the threshold; each publication carries the LED's value, the configured id twice, and that pass's distance in millimetres modulo 65536, battery and time; recoveries are counted as specified, and a successful read is published if and only if none was before, the last one was at tick 0, or it is at least the interval old |
| SensorLoop.TickZeroPublishesAgain | main/sensor_main.c:112-134 | the read after a publication at tick 0 is published too, whatever the interval |
| SensorLoop.TickZeroInstance | main/sensor_main.c:112-134 | reads five ticks apart under an interval of 100: the second is published if and only if the first came at tick 0 |
| SensorLoop.FailuresRecover | main/sensor_main.c:90-105 | a run of k failed reads triggers exactly k/10 recoveries, rounded down |
| SensorLoop.FailuresKeepSamples | main/sensor_main.c:90-110 | failed reads leave the filter's history as it was |
| BerthMap.RecordedIsSound | components/dp_prov/dp_prov.c:172-238 | binding gives the address its berth and node id, takes the berth from every other holder and keeps every other entry; berths and unicasts stay pairwise distinct, within 16 slots, whenever there is room |
| BerthMap.OutOfRoomExactly | components/dp_prov/dp_prov.c:205-221 | a table is out of room if and only if the bound map would need more than 16 slots; a hot-swap on a full table has room |
| BerthMap.ClearSlot | components/dp_prov/dp_prov.c:240-258 | zeroing an occupied slot removes exactly its key from the map |
| BerthMap.FillSlot | components/dp_prov/dp_prov.c:222-236 | filling a free or own slot, once the berth has no other holder, binds exactly that key |
| BerthTable.Table.constructor | components/dp_prov/dp_prov.c:41-42 | power-up: an unloaded table over whatever flash holds |
| BerthTable.Table.LoadTable | components/dp_prov/dp_prov.c:72-121 | for every blob and every outcome of open, size query and read: the map that results or the failure; what flash stands for never changes, not even through the migration's save |
| BerthTable.Table.MigrateFromV1 | components/dp_prov/dp_prov.c:60-70 | all 16 records keep their unicast and berth and get an empty node id |
| BerthTable.Table.SaveTable | components/dp_prov/dp_prov.c:123-136 | flash stands for the table afterwards, or is unchanged |
| BerthTable.Table.Init | components/dp_prov/dp_prov.c:138-144 | loads once |
| BerthTable.Table.Restart | components/dp_prov/dp_prov.c:72-144 | a restart and the loading after it give what flash yields, and leave flash as it was |
| BerthTable.Table.LookupBerth | components/dp_prov/dp_prov.c:146-157 | reads the map, for every address |
| BerthTable.Table.LookupNodeId | components/dp_prov/dp_prov.c:159-170 | reads the map; an empty node id counts as none |
| BerthTable.Table.EvictStale | components/dp_prov/dp_prov.c:190-203 | removes exactly the other unicasts that hold the berth |
| BerthTable.Table.RecordNode | components/dp_prov/dp_prov.c:172-238 | the new map is the old one without other holders of the berth, plus the pair; out of room if and only if the table is full and has neither, then nothing changes; the counter stays exact; flash follows when the save succeeds |
| BerthTable.Table.ForgetUnicast | components/dp_prov/dp_prov.c:240-258 | removes exactly that key; for address 0 the counter stays exact if and only if the table is empty or full |
| Persistence.Perform | components/dp_prov/dp_prov.c:72-258 | every operation and reboot of the table acts on its map and on flash as the run model says |
| Persistence.RebootsAreInvisible | components/dp_prov/dp_prov.c:72-136 | after any operations and reboots with successful saves, RAM and flash are the map that the operations alone give, and it is sound |
| Persistence.FlashIsSomePastTable | components/dp_prov/dp_prov.c:123-136 | whatever saves fail, flash holds the table as it was at some earlier moment |
| Persistence.MigrationKeepsBerths | components/dp_prov/dp_prov.c:60-70 | a version-1 blob stands for the same unicast-to-berth map with empty node ids, before and after its migration is saved |
| Persistence.BootTable | components/dp_prov/dp_prov.c:72-144 | for either layout, a stored table is loaded at boot if and only if the blob, and for version 1 its size, can be read; an empty one is loaded in its stead if and only if not, except for a version-1 blob whose size is known |
| Persistence.BootErrorLosesBerths | components/dp_prov/dp_prov.c:72-238 | after such a boot, recording and saving one berth leaves that berth alone in flash, whatever was stored |
| Persistence.OneBerthIsStored | components/dp_prov/dp_prov.c:24-58 | such a table exists in either layout |
| Gateway.Gateway.constructor | components/dp_mesh/dp_mesh_provisioner.c:66-71 | boot establishes the coupling of all layers |
| Gateway.Gateway.Reboot | components/dp_mesh/dp_mesh_provisioner.c:66-71 | a restart clears both flows, the match and the heap, and takes the berths from flash |
| Gateway.Gateway.HandleProvisionReq | components/dp_gateway/dp_gateway_adopt.c:158-241 | refines the model's request step, with its order of refusals, and keeps the coupling: mesh flow in flight, adoption record active, timer running stand or fall together, IDLE out of flight, never DONE at rest |
| Gateway.Gateway.ProvisionNode | components/dp_mesh/dp_mesh_provisioner.c:599-648 | starts a flow, or fails with every flag that matters as before |
| Gateway.Gateway.OnProvDone | components/dp_gateway/dp_gateway_adopt.c:117-139 | one final reply under the stored id, the berth recorded on ok only, and the record cleared |
| Gateway.Gateway.HandleProvEvent | components/dp_mesh/dp_mesh_provisioner.c:175-247 | refines the model's link and completion steps; a completion nobody asked for is deleted again |
| Gateway.Gateway.OnCfgClient | components/dp_mesh/dp_mesh_provisioner.c:103-166 | refines the model's reply step for both branches and all three kinds of event |
| Gateway.Gateway.CfgStepAdvance | components/dp_mesh/dp_mesh_provisioner.c:333-362 | refines advancing, through a failed send or the end of the flow |
| Gateway.Gateway.CfgStepRedo | components/dp_mesh/dp_mesh_provisioner.c:365-386 | refines resending the current step |
| Gateway.Gateway.CfgDoCurrentStep | components/dp_mesh/dp_mesh_provisioner.c:298-331 | App Key Add, Model App Bind or Model Publication Set to the given address at the step of that name, and nothing at a step without a command |
| Gateway.Gateway.ProvTimerCb | components/dp_mesh/dp_mesh_provisioner.c:388-395 | ends the flow in flight with a timeout, and without one changes nothing |
| Gateway.Gateway.ProvFinishOk | components/dp_mesh/dp_mesh_provisioner.c:397-415 | complete, then one ok with the flow's target and key, the berth table updated, everything disarmed |
| Gateway.Gateway.ProvFinishErr | components/dp_mesh/dp_mesh_provisioner.c:439-468 | the reset goes out, node and berth go, one error reply, everything disarmed |
| Gateway.Gateway.HandleDecommissionReq | components/dp_gateway/dp_gateway_decom.c:74-127 | refines the model's decommission step; the live heap contexts are exactly the active flow's one |
| Gateway.Gateway.OnDecomDone | components/dp_gateway/dp_gateway_decom.c:61-72 | one reply from the context, which was live and is freed |
| Gateway.Gateway.DecomLocalCleanupAndFinish | components/dp_mesh/dp_mesh_provisioner.c:491-529 | both stores let the address go, one callback, the flow cleared before it |
| Gateway.Gateway.DecommissionNode | components/dp_mesh/dp_mesh_provisioner.c:531-552 | takes the flow and sends the first reset, or refuses with nothing changed |
| Moves.StepMoves | components/dp_mesh/dp_mesh_provisioner.c:103-468 | for every state, event and outcome: which move the flow makes, what it says and whose key it keeps |
| Moves.StepStores | components/dp_mesh/dp_mesh_provisioner.c:175-529 | the same for node database, berth map, auto-match and decommission |
| Moves.StepCmds | components/dp_mesh/dp_mesh_provisioner.c:273-437 | the same for the commands handed to the stack |
| Moves.RunRests | components/dp_mesh/dp_mesh_provisioner.c:333-386 | in every run the step never rests at DONE and a sending step has made one to three attempts |
| Ledger.EveryRequestAnsweredOnce | components/dp_gateway/dp_gateway_adopt.c:117-241 | in every run the well-formed requests handled are the final replies plus the one in flight, as multisets of request ids |
| Ledger.RequestStartsOrIsRefused | components/dp_gateway/dp_gateway_adopt.c:158-241 | in the fields of request and database: a request with a req_id and a uuid starts a flow, with its texts cut to 63, 47 and 39 characters, if and only if none is in flight, both fields decode, no node holds the UUID and the stack takes it on; else exactly one error under its id, with the exact condition for each of the five codes, and nothing else |
| Ledger.MalformedRequestIsIgnored | components/dp_gateway/dp_gateway_adopt.c:158-175 | a request without a req_id or a uuid changes nothing and gets no reply |
| Course.FlowEndsExactly | components/dp_mesh/dp_mesh_provisioner.c:103-395 | in every resting state and for every event: the exact condition for each way a flow ends, with its code, and where the flow stands if it does not end |
| Course.QuietEvents | components/dp_mesh/dp_mesh_provisioner.c:103-247 | what the remaining events do: nothing, the link-open report, or deleting a node nobody asked for |
| Course.OrdersAreInTurn | components/dp_mesh/dp_mesh_provisioner.c:298-386 | in every run, whatever the stack does: the commands handed over since a flow began follow the script, one for each event delivered, each to the address the latest completion gave, all taken but perhaps the one that ended the flow |
| Course.CommandsInOrder | components/dp_mesh/dp_mesh_provisioner.c:298-386 | in every run: App Key Add one to three times, then Model App Bind one to three times, then Model Publication Set one to three times, as far as the flow got, all to the completion's address when only its own node's answers reached the flow |
| Course.OkAfterThreeCommands | components/dp_mesh/dp_mesh_provisioner.c:333-362 | a flow that reports ok had all three handed over and taken |
| ProgressTrace.TraceTellsTheState | components/dp_mesh/dp_mesh_provisioner.c:333-415 | a subscriber replaying the messages knows the gateway's exact state if the stack's events came in order, and sees a violation if they did not |
| ProgressTrace.StoryOfTrace | components/dp_mesh/dp_mesh_provisioner.c:45-50 | a trace without violation has a prefix of the six stages since its last start, with complete in it just when ok was reported |
| ProgressTrace.ProgressIsAPrefix | components/dp_gateway/dp_gateway_adopt.c:84-90 | in an orderly run the states of a flow, link-open left out, are that prefix, up to the current step |
| FlowPath.FlowIsOnItsTrail | components/dp_mesh/dp_mesh_provisioner.c:333-386 | in every run the flow's step and attempts are what the events delivered to it say: one advance a step, one to three sends each |
| FlowPath.OkExactlyAfterThreeLegs | components/dp_mesh/dp_mesh_provisioner.c:141-166 | a callback reports ok if and only if it delivers the fourth advance after three legs of one to three sends |
| FlowPath.OkByTheFullPath | components/dp_mesh/dp_mesh_provisioner.c:103-166 | that history is one completion, then OP_APP_KEY_ADD, OP_MODEL_APP_BIND and OP_MODEL_PUB_SET acknowledged in this order by the node it named, each sent one to three times, if and only if every answer was that node's to the step's own command; the ok then carries the completion's address and key |
| FlowPath.LateResetAckReportsOk | components/dp_mesh/dp_mesh_provisioner.c:111-166 | in any run that was in order up to then, another node's node-reset ack makes a flow report ok whose publication setting was never acknowledged |
| Leftovers.StepLeavesNothing | components/dp_mesh/dp_mesh_provisioner.c:103-166 | when nothing is left over, a callback leaves nothing over, unless the flow ends in error |
| Leftovers.CleanStartsKeepFlowsApart | components/dp_mesh/dp_mesh_provisioner.c:103-166 | in every run in which commands are answered at most once and flows begin with nothing left over, what reaches a flow is its own node's answers to its own commands |
| Leftovers.HonestOkTookTheFullPath | components/dp_mesh/dp_mesh_provisioner.c:103-166 | so in such a run every ok took the full path |
| Leftovers.LeftoverHarmlessExactly | components/dp_mesh/dp_mesh_provisioner.c:111-166 | an answer leaves the flow in flight alone if and only if it is about a node reset and a decommission is open |
| Leftovers.OwedResetAckReportsOk | components/dp_mesh/dp_mesh_provisioner.c:111-166 | an acknowledgement the stack owes for another node's reset makes a flow report ok without an acknowledged publication setting |
| Leftovers.RollbackTimeoutEndsNextFlow | components/dp_mesh/dp_mesh_provisioner.c:417-468 | with an honest stack, the timeout of a rollback's reset ends the next flow while its device is unprovisioned |
| Stores.NodesStayAccounted | components/dp_mesh/dp_mesh_provisioner.c:213-235 | in every run that keeps the promises, whoever is decommissioned when: every node was there at boot, reported ok, the flow's target or undeletable, and no UUID occurs twice |
| Stores.StepSplitsExactly | components/dp_mesh/dp_mesh_provisioner.c:397-468 | a callback parts the berth table from the node database if and only if it reports ok and records a berth for a node that is gone |
| Stores.TargetGoneExactly | components/dp_mesh/dp_mesh_provisioner.c:491-529 | in every run, a flow's node is gone if and only if a decommission of it ended with a successful delete since its completion |
| Stores.StoresStayInStepExactly | components/dp_gateway/dp_gateway_adopt.c:117-139 | in every run, berth unicasts are nodes throughout if and only if no flow reports ok with a berth to record after its node was so decommissioned; until then the target is in no berth |
| Reboots.StoresStayInStepAcrossReboots | components/dp_prov/dp_prov.c:123-258 | over any callbacks and restarts, RAM and flash berths are nodes throughout if and only if no ok records a berth for a node that is gone and no decommission deletes a node whose berth stays in flash |
| Reboots.SavedFlashIsCurrent | components/dp_prov/dp_prov.c:123-136 | when every save and load succeeds, flash equals RAM throughout and no berth can be stranded |
| Reboots.OrphanKeptInFlash | components/dp_mesh/dp_mesh_provisioner.c:491-517 | a given-up decommission whose save is refused replies orphan without a code, and a restart brings the deleted node's berth back |
| Reboots.OkKeptInFlash | components/dp_prov/dp_prov.c:240-258 | an acknowledged one whose entry RAM has lost replies ok, and a restart brings the berth back |
| Reboots.UnsavedHotSwap | components/dp_prov/dp_prov.c:190-238 | a berth that changes hands with its save refused leaves the old holder in flash alone |
| Reboots.OkRecordsItsBerthExactly | components/dp_gateway/dp_gateway_adopt.c:117-139 | in every life with the stores in step, a flow that reports ok has its berth in the table if and only if there was room, and in flash if and only if the save succeeded too |
| Stores.NothingLeftOver | components/dp_mesh/dp_mesh_provisioner.c:451-460 | when deletions succeed no node is undeletable |
| Stores.DecommissionOfTargetSplitsStores | components/dp_mesh/dp_mesh_provisioner.c:491-552 | decommissioning the node being configured leaves a berth without a node |
| Stores.FailedFlowRollsBack | components/dp_mesh/dp_mesh_provisioner.c:439-468 | whatever ends a flow in error, berths are as before the request, and nodes too if and only if the target could be deleted or there was none |
| Stores.ArmedExactlyInFlight | components/dp_mesh/dp_mesh_provisioner.c:82-88 | in every run the match is armed for the flow in flight, and is right at rest if and only if the last clear succeeded |
| Decommission.EveryDecommissionIsSettled | components/dp_mesh/dp_mesh_provisioner.c:486-552 | in every run accepted requests are replied to in order under their own ids, and the resets sent are, address by address, exactly the attempts replied, one to three each |
| Decommission.RequestIsTakenOrRefused | components/dp_gateway/dp_gateway_decom.c:74-127 | a request is taken if and only if its unicast is a number from 1 to 0xFFFF, none is open and memory suffices: one reset goes out under its texts cut to 63 characters; else one error under its full id, with the exact condition for each code, or silence without an id |
| Decommission.Outcomes | components/dp_mesh/dp_mesh_provisioner.c:491-529 | ok if and only if the ack had no error and both stores let go, each failure with its own code; afterwards the address has no berth, whatever the outcome |
| Decommission.OpenExactlyUntilAnswered | components/dp_mesh/dp_mesh_provisioner.c:111-139 | an open decommission ends at the first reply to a node reset or at the reset timeout that finds three attempts made, and at nothing else; until then each timeout is one more attempt |
| Decommission.OkFromItsOwnNode | components/dp_mesh/dp_mesh_provisioner.c:111-139 | in every run, one reported ok was acknowledged by its own node if and only if no other node's reply to a reset reached it while open |
| Decommission.AnotherNodesAckEndsIt | components/dp_mesh/dp_mesh_provisioner.c:111-139 | the ack of a rolled-back flow's node, which is not the decommission's, ends it with ok |
| Timing.NineCommandsAtMost | components/dp_mesh/dp_mesh_provisioner.c:333-386 | in every run, whatever the stack does, a flow hands it at most nine configuration commands, three for each step it has reached |
| Timing.ConfigurationEndsInTime | components/dp_mesh/dp_mesh_provisioner.c:280-386 | with a prompt stack, a flow configures for at most 72 s, whatever is lost |
| Deadlines.NoExpiryWhileConfiguring | components/dp_mesh/dp_mesh_sensor.c:20-60 | in every timed run over the lossy channel, the watchdog of the sensor with the flow's UUID does not expire while the gateway configures it, when both saw the completion less than 18 s apart |
| SensorNode.Node.FireReady | components/dp_mesh/dp_mesh_sensor.c:71-84 | refines becoming ready: once, armed to publish, watchdog off, listener called |
| SensorNode.Node.HandleProvEvent | components/dp_mesh/dp_mesh_sensor.c:86-117 | refines completion and reset |
| SensorNode.Node.OnCfgServer | components/dp_mesh/dp_mesh_sensor.c:120-133 | refines a setting: only the publication setting makes the node ready |
| SensorNode.Node.PostProvTimerCb | components/dp_mesh/dp_mesh_sensor.c:25-39 | refines the watchdog's expiry, factory reset included |
| SensorNode.Node.Restart | components/dp_mesh/dp_mesh.c:306-317 | refines a restart: a restored identity is ready at once |
| SensorNode.Node.PublishStatus | components/dp_mesh/dp_mesh_sensor.c:135-155 | publishes the packed status if and only if the node is ready and the stack takes it, and says which |
| SensorNode.Node.PublishDiag | components/dp_mesh/dp_mesh_sensor.c:157-177 | the same for diagnostics |
| SensorModel.ReadyExactly | components/dp_mesh/dp_mesh_sensor.c:71-133 | in every run a node is ready if and only if its publication was set since it last restarted, or it restarted provisioned; it called its listener once |
| SensorModel.StepReady | components/dp_mesh/dp_mesh_sensor.c:71-84 | what makes a node ready, and that it then stops its watchdog and tells the listener its own address |
| SensorModel.PublishesWhenReady | components/dp_mesh/dp_mesh_sensor.c:135-177 | what was published is exactly what was given while ready |
| SensorModel.HalfConfiguredIsGuarded | components/dp_mesh/dp_mesh_sensor.c:41-53 | a provisioned node that is not ready has its watchdog running |
| SensorModel.ReadyYetUnconfiguredExactly | components/dp_mesh/dp_mesh.c:306-317 | in every run of a node that starts unprovisioned, it is ready if and only if it was configured under its identity or booted between obtaining it and being configured; a ready node is unconfigured exactly in the second case |
| SensorModel.RebootMidConfigurationLooksReady | components/dp_mesh/dp_mesh.c:306-317 | a power loss between provisioning and configuration leaves a node ready, armed, unconfigured and unwatched |
| Agreement.OkMeansReady | components/dp_mesh/dp_mesh_sensor.c:25-84 | in every run over the lossy channel, in the callback that reports ok, the sensor with the flow's UUID holds the reported address and key, is ready and armed, and no watchdog expiry changes that |
| Agreement.OkStaysReady | components/dp_mesh/dp_mesh_provisioner.c:333-362 | and stays so in every continuation until a reset for that very node is on the air |
| Agreement.OwnAckMeansGone | components/dp_mesh/dp_mesh_provisioner.c:111-139 | in every run over the lossy channel, a decommission that its own node's acknowledgement ends means that the node processed the reset: no sensor holds the identity |
| Agreement.ResetNodesStayGone | components/dp_mesh/dp_mesh_sensor.c:108-112 | and none ever holds it again |
| Agreement.LosslessFlowSucceeds | components/dp_mesh/dp_mesh_provisioner.c:333-362 | the promises leave room for success: three exchanges that arrive take a flow to ok |

## Left out

- The BLE mesh stack, NimBLE, host bring-up and model tables in `dp_mesh.c`: represented by the environment above.
- Interleavings inside one callback: the code takes no lock, and the model is stated for whole callbacks.
- Wi-Fi, the MQTT client, TLS and topics: a message counts as out when it is handed to the client.
- Parsing of requests (JSON, hexadecimal, numbers) and the fingerprint: a request arrives as its parsed fields, each
  missing, bad or good.
- The conversion of the request's time to live into milliseconds, and when the flow timer fires: it may fire at any moment.
- NULL structure arguments and the role guards of functions that only one role registers.
- `on_prov_done` called without an active record, and the message texts of replies: only codes are kept.
- The DockPulse gateway's rendering of statuses, clocks and log lines: string building over the lookups.
- `dp_mesh_gateway_delete_node`: nothing calls it, and it leaves the berth table alone.
- Factory reset beyond "identity gone, restart", the factory OOB partition, LEDs, button, battery and UART driver.
- Stores.FailedFlowRollsBack: covers flows with no decommission at work, since one may change the stores meanwhile.
- Persistence.Perform: leaves out forgetting address 0, whose effect on the counter `BerthTable.Table.ForgetUnicast` states.
- Two nodes that held the same address one after the other: an answer carries its opcode and address, no more, and
  only `Agreement` tells such nodes apart, by their keys.
- Radar.ResyncWithinThreeFrames: for bodies of 20 to 54 bytes, which include the 35-byte report; shorter frames would
  let one false header span three of them.
- Timing.ConfigurationEndsInTime: counts from the callback that starts configuring, with no bound on the scan before it.
