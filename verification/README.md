# nosaic switch datapath: a verified model

A Dafny model of the protocol state machines and table managers shared by the
Broadcom datapaths (`datapath/common`), and proofs of what they are for. Calls
into the chip's SDK are updates of maps and sets; clocks, links, received frames
and the kernel's listings are inputs of each step; each locked section is one
step. `dafny verify dfyconfig.toml` checks the whole project.

Where the source updates things in place the model does too: a class (or an
array) with loops and invariants, each method proved equal to a specification
function on a value, or directly to the property it keeps. What the source
promises is then proved of those functions, over every input and every run.

**Rapid spanning tree** (`Rstp*`). `RstpState` is one bridge as a value: role
selection, sync, proposal and agreement, topology change, BPDU and root guard,
the timers. `RstpBridge` is the same in place. `RstpSafety` proves what every
history of a bridge keeps; `RstpTrace` follows one port through a run exactly, and
over it `RstpProgress` proves when a port forwards, `RstpHeard` what a BPDU does and
for how long, `RstpEdge` edges and sync, `RstpHandshake` what is sent and that a
proposal brings a link up in one exchange (`RstpMeet` is an instance), `RstpRequests` guards, news and
configuration. `RstpNetwork` joins bridges by links and proves the
settled-network theorem over `RstpGraph`, in which root path costs are 32-bit
sums; `RstpExample` is a settled network with a redundant link. `RstpAge` is message
age through the 1/256 s wire encoding.

**MLAG** (`Mlag*`). `MlagState` is what a hello says, what receiving one does and
what an evaluation decides; `MlagPair` is two switches, hellos in flight and time,
with the invariant that acknowledgements old enough have stopped flowing;
`MlagTicks` is when a thread that sleeps between ticks can tick, and `MlagTiming`
how long a half must stay put, exactly; `MlagSettled` is what staying put means;
`MlagRoles` is who is primary and who is
shut; `MlagFrame` and `MlagSync` are the frames, the chunked MAC list and the table
it is applied to; `MlagSwitch` is one switch in place.

**LAGs** (`Lacp*`). Selection and the mux, the published trunk table, and every
way members come, go and change mode; `LacpHistory` ties what a member knows to the
LACPDUs it was sent; `LacpPair` joins two LAGs by links, and in `LacpMeet` two active
ones come to carry.

**VLANs and LAG membership** (`Vlan*`). Eleven redundant tables -- bitmaps,
per-LAG records, counters, claims, the chip's VLAN table and flood-block pairs --
and one fact they all restate: for each interface, its VLANs and tagging. Every
operation keeps all of them agreeing, and states what it does to the fact.

**The DMA pool** (`Dma*`). The block list, the accounts over it, and the
allocator with its headers linked through the region.

**Routes** (`L3*`), **access rules** (`Acl*`, where `AclGrammar` is what a rule's text
means in every spelling and `AclCanon` its canonical form), **SVI transmit** (`SviTx`) and the
**neighbour-discovery checksum** (`Checksum`).

## Findings

These promises do not hold of the code as it stands. Each has its exact condition,
and an input or a family of inputs that shows it.

- A device gets a flood twice in some run exactly when the MLAG settling time is no
  longer than an acknowledgement can be gone by: the latest its sender's next hello
  can be, and as many of the sender's ticks after that as fit in the peer-link's
  delay and one tick of the receiver -- 1200 ms with ticks on time every 200 ms, a
  hello a second and no delay. The configuration accepts any settling time from
  1 ms. This takes the dead time to be longer than that reach, as it is whenever a
  hello is at least two ticks and the delay (`MlagTiming.DeadIsLonger`); with a hello
  of 100 ms and a dead time of 200 ms, which are accepted, it is not, and there only
  the half that rules copies out is shown (`MlagTiming.SettlingIsExact`,
  `MlagTiming.Copies`, `MlagPair.FloodsArriveOnce`).
- Taking a LAG's member port out of a VLAN by its own name, or making it a tunnel
  port, breaks the agreement of the tables exactly when its LAG is in that VLAN,
  or in another: `vlan.c` tests for membership only in `nosaic_vlan_port_set`
  (`VlanLag.Switching.PortDel`, `VlanLag.MemberTakenOut`;
  `VlanLag.Switching.Tunnel`, `VlanLag.MemberTunnelled`).
- A request within 63 bytes of the largest size wraps to nothing and is granted a
  block of fewer than 128 bytes whenever anything is free
  (`DmaBlocks.Round64Holds`, `DmaLedger.HugeAllocWraps`, `DmaLedger.LargestOfAll`).
- An address already synced keeps its old MLAG id when the peer lists it under
  another: `apply_sync` matches on address and VLAN only (`MlagSync.IdsFollow`,
  `MlagSync.StaleId`).
- A destination learned on a LAG's member port by itself, and not on its trunk, is
  sent nowhere exactly when the hash picks another member (`SviTx.KnownStays`,
  `SviTx.SentNowhere`).
- A port that hears its own BPDU is to be treated as a backup, which discards. It is,
  exactly when the vector come back is better than what its bridge offers now; one
  that comes back as it was sent is not, and the port goes on forwarding into its
  loop (`RstpHeard.LoopSeen`, `RstpHeard.LoopUnseen`, `RstpHeard.AloneLoops`).
- A prefix with a slash and nothing after it is not refused: it is a length of nought,
  so a rule against one host is a rule against everybody
  (`AclGrammar.ParsePrefix4Is`, `AclGrammar.NothingAfterSlash`).
- A message age of 255 s or more wraps on the wire (`RstpAge.HopGains`,
  `RstpAge.LongAgeWraps`); the configuration allows 40 s.
- A poll leaves the chip with a route the cache has no record of exactly when the
  prefixes cached and asked for are more than 1024 (`L3Mirror.RouteCache.Poll`;
  `L3Mirror.TooManyRoutes`, 1025 real destinations by one neighbour); and it leaves
  out a route that resolves exactly when the next-hop sets known and needed are more
  than 64 (`L3Routes.GroupLimitIsExact`; `L3Routes.OneTooMany`, 65 routes over 17
  neighbours).
- A rule is written to the configuration, and read back, with the last digit of its
  destination port gone exactly when its canonical text is as long as one can be:
  `permit ipv6`, TCP or UDP, a port name of 15 characters, two addresses of 39 with
  lengths of 100 or more, two ports of 10000 or more. That text has 160 characters
  and its buffer keeps 159. Asked for as `ip6` the rule has 159 and is accepted
  (`AclCanon.TextLimit`, `AclCanon.PrintParse`, `AclCanon.RoundTrip`,
  `AclCanon.TerseParses`, `AclCanon.PortLost`).

## Model

| member | source | states |
|---|---|---|
| RstpVector.WireOrder | datapath/common/rstp.c:98-104 | comparing two priority vectors byte by byte as the BPDU carries them is comparing root id, cost, bridge id and port id in turn |
| RstpNetwork.SpanningTree | datapath/common/rstp.c:458-555 | in any settled connected network: every bridge names the smallest id as root at the cost of a cheapest walk, every link has exactly one designated end, and the links neither end of which is blocked are exactly the root ports' links, reach every bridge and close no loop |
| RstpExample.RedundantLink | datapath/common/rstp.c:458-555 | two bridges with two links are such a network: one link forwards, the other's far end is an alternate |
| RstpNetwork.OneDesignatedEnd | datapath/common/rstp.c:500-535 | of a settled link's two ends exactly one is designated |
| RstpNetwork.ActiveIsTreeLink | datapath/common/rstp.c:458-555 | a link forwards at both ends exactly when it is some bridge's way to the root |
| RstpNetwork.ChooseIsLeast | datapath/common/rstp.c:458-489 | the loop over ports picks the least root vector any candidate offers, or the bridge itself |
| RstpNetwork.SupersedesIsChange | datapath/common/rstp.c:661-689 | a designated BPDU from elsewhere changes what a port knows exactly when its vector is better or comes from the same designated port and differs |
| RstpNetwork.StableGraph | datapath/common/rstp.c:418-424 | a settled network's bridges satisfy the local conditions the graph theorem starts from |
| RstpGraph.RootAgreed | datapath/common/rstp.c:458-555 | under those conditions every bridge names the smallest id |
| RstpGraph.RootPath | datapath/common/rstp.c:458-555 | and its cost is that of a cheapest walk, which its root ports follow |
| RstpGraph.ChildCost | datapath/common/rstp.c:458-489 | no addition along a root path wraps in 32 bits |
| RstpGraph.StableIsLoopless | datapath/common/rstp.c:458-555 | every closed walk over tree links turns back somewhere |
| RstpGraph.StableIsTree | datapath/common/rstp.c:458-555 | the root ports' links are a spanning tree |
| RstpSafety.RootChangeSyncs | datapath/common/rstp.c:526-553 | a selection that changes the root or its cost leaves every live designated non-edge port discarding, agreed with nobody and its forward delay unset |
| RstpSafety.RunPromises | datapath/common/rstp.c:777-873 | after a run: excluded interfaces forward; any other that learns or forwards is live and root or designated; one root port at most; a tripped port discards while its link holds |
| RstpSafety.StepsKeepInv | datapath/common/rstp.c:777-873 | every received BPDU, interface change, configuration and run keeps the bridge's invariant |
| RstpSafety.EveryRunIsSafe | datapath/common/rstp.c:777-873 | from start-up, after any history, every run keeps those promises for every interface |
| RstpSafety.GuardHolds | datapath/common/rstp.c:608-622 | a tripped BPDU guard stays tripped and discarding through any history without a lost link, an exclusion, leaving the tree or reconfiguration |
| RstpSafety.RunSyncs | datapath/common/rstp.c:777-873 | so a whole run that changes them leaves every such port agreed with nobody and waiting: discarding with its delay unset or running from that run, or learning with both delays to go |
| RstpSafety.ForwardDelay | datapath/common/rstp.c:746-768 | a designated non-edge port that waits since t0 does not forward before two whole forward delays, through any history in which nobody agrees with it |
| RstpSafety.RootChangeHolds | datapath/common/rstp.c:526-553 | after a run that changes the root or its cost, whatever is received or configured: a port that stays designated and no edge does not forward before two whole forward delays, unless it was sent an agreement naming the root in force |
| RstpSafety.AgreementNamesRoot | datapath/common/rstp.c:691-696 | a port that was not agreed with and ends a run designated and agreed was sent an agreement naming the root in force after that run |
| RstpProgress.RunForwards | datapath/common/rstp.c:732-757 | after every run the root port forwards, and so does every live designated port that is an edge or agreed with |
| RstpProgress.RunMoves | datapath/common/rstp.c:763-768 | in a run that leaves the root, proposes nothing and disputes nothing, any other designated port waits out the delay in hand or starts one, and when it is over learns, or forwards if it was learning |
| RstpProgress.Forwards | datapath/common/rstp.c:746-768 | so through any such history it forwards from the third of any three runs a forward delay apart, whatever else is received or configured |
| RstpHeard.HeardDesignated | datapath/common/rstp.c:661-690 | a run that hears a believable designated BPDU, better than what the port knows or from whom it knows it, leaves the port knowing its vector and times for three hellos, a proposal answered, and no edge; or designated, exactly when its bridge offers no worse and the port is not its way to the root |
| RstpHeard.InfoLives | datapath/common/rstp.c:661-690 | what a port knows it knows through any history that says nothing to it, while that time is not over and it is not designated |
| RstpHeard.HeardLasts | datapath/common/rstp.c:689-690 | so a vector heard at t is known after every run before t and three hellos |
| RstpHeard.RunAges | datapath/common/rstp.c:837-839 | at the first run from then on the port is designated with its bridge's own vector |
| RstpHeard.AgreementOpens | datapath/common/rstp.c:691-696 | a designated port sent an agreement naming its bridge's root forwards by the end of that run, if it still offers the same |
| RstpHeard.DisputeBlocks | datapath/common/rstp.c:678-685 | one told by a learning port that it too is designated, with worse to offer, is not forwarding after the run |
| RstpHeard.LoopSeen | datapath/common/rstp.c:649-659 | a port that hears itself becomes a backup, discarding, if and only if the vector come back is better than what its bridge offers now; else it stays designated |
| RstpHeard.LoopUnseen | datapath/common/rstp.c:649-659 | so one come back as it was sent leaves it forwarding |
| RstpHeard.AloneLoops | datapath/common/rstp.c:649-659 | a root bridge with one port that hears itself goes on forwarding on it |
| RstpEdge.RunComesUp | datapath/common/rstp.c:811-826 | a port coming up has heard nothing, waits three seconds for a bridge, and forwards at once if configured as an edge |
| RstpEdge.SilentIsEdge | datapath/common/rstp.c:747-750 | through any history that says nothing to it, it is an edge exactly from the first run those three seconds later, and forwards |
| RstpEdge.ProposalSyncs | datapath/common/rstp.c:735-738 | a proposal on the root port leaves every live designated port that is no edge and not agreed with discarding |
| RstpEdge.AgreesSynced | datapath/common/rstp.c:739-742 | a root port that comes to agree does so with no designated port forwarding but as an edge or agreed with |
| RstpHandshake.HelloGoesOut | datapath/common/rstp.c:859-861 | a live designated port sends at the first run its hello is due: its bridge's vector and the root's times, the next due a hello later |
| RstpHandshake.RunProposes | datapath/common/rstp.c:759-762 | a designated port that has to wait proposes to a neighbour that speaks RSTP |
| RstpHandshake.Replies | datapath/common/rstp.c:715-742 | a root, alternate or backup port proposed to sends its agreement in that run, if it had not agreed |
| RstpHandshake.RapidTransition | datapath/common/rstp.c:343-413 | two bridges on a link: a proposal, its answer, and one more run, and the proposing port forwards, as does the other if it is a root port, with no forward delay waited out |
| RstpMeet.TwoBridgesMeet | datapath/common/rstp.c:343-413 | two one-port bridges switched on at the ends of a link are an instance: 200 ms after the proposal both ends forward, 15 s before the forward delay would have ended |
| RstpRequests.Follows | datapath/common/rstp.c:458-498 | a bridge that comes to follow a port takes its root, its cost and the port's own, and its times a second older |
| RstpRequests.FollowsNobody | datapath/common/rstp.c:490-494 | one that follows nobody is the root at its own times |
| RstpRequests.RootGuardHolds | datapath/common/rstp.c:478-523 | a port under root guard is never the root port; better than its bridge's own makes it a discarding alternate |
| RstpRequests.GuardTrips | datapath/common/rstp.c:608-622 | a port under BPDU guard that hears any BPDU trips |
| RstpRequests.RoleChangeWaits | datapath/common/rstp.c:537-543 | a port that becomes designated starts from discarding with a whole forward delay to wait |
| RstpRequests.NewOfferTold | datapath/common/rstp.c:528-543 | a designated port with something new to offer sends it in the same run |
| RstpRequests.InferiorAnswered | datapath/common/rstp.c:686-687 | and one that hears worse answers in the same run |
| RstpRequests.EdgeConfigured | datapath/common/rstp.c:1077-1081 | a port configured as an edge that has heard no bridge forwards with the next run that finds it designated |
| RstpRequests.SetIs | datapath/common/rstp.c:979-1039 | a request is refused, changing nothing, exactly when its times are out of range or relation; else times, defaults included, id and on are as asked |
| RstpRequests.ConfigureIs | datapath/common/rstp.c:1071-1081 | a port's configuration is what was asked for, its tripped guard lets go, and all else is left to the next run |
| RstpRequests.TimesStayGood | datapath/common/rstp.c:990-1010 | whatever is asked for, hello, forward delay and max age stay in range and in relation |
| RstpRequests.OnAndOff | datapath/common/rstp.c:1011-1035 | turned on every switched port discards; turned off every one forwards and no run changes that |
| RstpRequests.ChangeAnnounced | datapath/common/rstp.c:569-590 | a topology change is announced on every live non-edge root and designated port for a hello and a second, but where it came from, and nowhere else |
| RstpRequests.StartAnnounced | datapath/common/rstp.c:769-774 | a port that starts to forward and is no edge is one |
| RstpBridge.SpanningTree.SyncTree | datapath/common/rstp.c:428-440 | in place, every designated port not agreed with and no edge goes back to discarding |
| RstpBridge.SpanningTree.Synced | datapath/common/rstp.c:442-456 | exactly whether every other live port is synced |
| RstpBridge.SpanningTree.SelectRoles | datapath/common/rstp.c:458-555 | the in-place selection is the specification's |
| RstpBridge.SpanningTree.TopologyChange | datapath/common/rstp.c:569-590 | which ports announce a change and for how long |
| RstpBridge.SpanningTree.Receive | datapath/common/rstp.c:595-700 | a pending BPDU's whole effect: guards, verdict, agreement, dispute, topology change |
| RstpBridge.SpanningTree.Transition | datapath/common/rstp.c:705-775 | a port's state transition, with the sync a root port asks of the others |
| RstpBridge.SpanningTree.Run | datapath/common/rstp.c:777-873 | in place, a run is admission, selection, lowering, raising and sending in that order; it keeps the invariant, leaves no selection due, keeps every promise of RunPromises for every interface, and hands over just the BPDUs RunSends says |
| RstpSafety.LastBpduCounts | datapath/common/rstp.c:908-959 | a BPDU with a vector replaces whatever was waiting, and changes nothing a port does before the next run |
| RstpSafety.LeftForwards | datapath/common/rstp.c:1145-1166 | an interface that leaves the tree forwards, and no run counts it live, through any history until it joins again |
| RstpSafety.ConfigureReleases | datapath/common/rstp.c:1041-1086 | a configured port is live after the next run exactly when switched, linked and not excluded, tripped guard or not |
| RstpSafety.LiveExactly | datapath/common/rstp.c:799-823 | after a run an interface is live exactly when switched, linked, not excluded and its guard had not tripped |
| RstpBridge.SpanningTree.Set | datapath/common/rstp.c:979-1039 | the bridge's configuration with its defaults and the relation among its times; a refused one changes nothing, and the invariant is kept |
| RstpAge.WholeSeconds | datapath/common/rstp.c:176-177 | whole seconds survive the wire encoding exactly |
| RstpAge.WireLoss | datapath/common/rstp.c:176-177 | no time is raised by the encoding and one that fits loses less than 5 ms |
| RstpAge.HopGains | datapath/common/rstp.c:490-498 | a hop adds at least 996 ms exactly when the age is below 255 s, and never raises max age |
| RstpAge.LongAgeWraps | datapath/common/rstp.c:402-405 | an age of 255 s comes back as none |
| RstpAge.VectorDies | datapath/common/rstp.c:644-645 | a vector believed at every hop has been relayed fewer than max age / 996 ms times |
| RstpAge.RelayIsSelection | datapath/common/rstp.c:495-498 | the age relayed is that of the times role selection takes from the port followed |
| MlagPair.FloodsArriveOnce | datapath/common/mlag.c:775-837 | in every state of every run, no side has its peer-link block lifted while the other has released its floods and both carry, if the settling time is longer than the reach of an acknowledgement |
| MlagPair.StepKeeps | datapath/common/mlag.c:329-344 | every tick, delivery and passage of time keeps the invariant: an acknowledgement is under way or believed only if sent before its sender took the other half to be down |
| MlagTiming.SettlingIsExact | datapath/common/mlag.c:846-900 | with ticks at least the sleep and at most the longest tick apart, no run copies a flood if and only if the settling time is longer than that reach, where the dead time is longer too |
| MlagPair.ReachBound | datapath/common/mlag.c:846-900 | the reach is less than hello + 2 ticks + delay |
| MlagTiming.OnTime | datapath/common/mlag.c:855-856 | with ticks every 200 ms, a hello a second and no delay it is 1200 ms |
| MlagTiming.Copies | datapath/common/mlag.c:795-796 | for every settling time within reach, a run from start-up, its ticks so spaced, that copies one: a half that goes down and is back at its side's last tick before the other lifts its block |
| MlagTiming.DeadIsLonger | datapath/common/mlag.c:1006-1007 | the dead time, at least two hellos, is longer than the reach when a hello is at least two ticks and the delay |
| MlagPair.InvIsSafe | datapath/common/mlag.c:562-584 | the invariant and the timing rule out a copied flood |
| MlagRoles.RunKnows | datapath/common/mlag.c:703-744 | in every run a side that hears its peer is primary if and only if its priority is the smaller, or equal and its MAC the smaller; its LACP system is then its own MAC, else the peer's; it is shut exactly when it hears its peer only off the peer-link and was secondary |
| MlagSettled.LiftIsSettled | datapath/common/mlag.c:768-796 | in every run a block is lifted only the settling time after any state in which this half was down at its evaluation or the peer's last hello said the other was not down |
| MlagSettled.KnowsTheLastHello | datapath/common/mlag.c:402-489 | in every run what a side knows of its peer, and since when, is what the last hello received said |
| MlagSettled.AliveIs | datapath/common/mlag.c:710-710 | it is alive exactly while that is younger than the dead time and the peer-link is up, and alive elsewhere by its heartbeats |
| MlagSettled.HeldUntilAcknowledged | datapath/common/mlag.c:800-836 | while both hear each other a half that carries lets out no flood until acknowledged, and is held just so long |
| MlagSettled.NewsTravels | datapath/common/mlag.c:781-825 | a half that comes, goes, is ready or changes its block is told of at the next tick |
| MlagRoles.OnePrimary | datapath/common/mlag.c:722-744 | exactly one of two sides that know each other is primary |
| MlagRoles.SplitBrain | datapath/common/mlag.c:586-606 | from a state where both hear each other, while both stay in touch: one primary, one LACP system, and a side is shut exactly when it does not lead and has lost the peer-link |
| MlagRoles.OnePartner | datapath/common/mlag.c:1148-1158 | both sides present one system and key per id and never share a port number |
| MlagFrame.BuildFrame | datapath/common/mlag.c:295-363 | the bytes written are the frame of that hello, at most 1498 even with 64 interfaces |
| MlagFrame.ParseBuilt | datapath/common/mlag.c:402-489 | a frame as built, padded or not, parses to the hello it was built from |
| MlagFrame.ParsePunted | datapath/common/mlag.c:402-489 | and so it does with the tag the chip punts it with |
| MlagFrame.EntryAt | datapath/common/mlag.c:436-455 | each interface is read from its own place, version 1's three bytes as up or not and acknowledged |
| MlagFrame.OnlyOurs | datapath/common/mlag.c:402-424 | nothing else is taken for a hello |
| MlagSync.SendFrames | datapath/common/mlag.c:295-363 | one frame a chunk, in order, one even for an empty list |
| MlagSync.Reassembled | datapath/common/mlag.c:466-486 | frames delivered in order, without loss, leave exactly the sender's list, marked complete |
| MlagSync.SyncTable.Withdraw | datapath/common/mlag.c:675-690 | what the peer no longer lists goes from table and chip, and nothing else |
| MlagSync.SyncTable.ApplySync | datapath/common/mlag.c:675-699 | the recorded keys are those kept plus those reachable, without duplicates, and equal the peer's list when all can be installed |
| MlagSync.IdsFollow | datapath/common/mlag.c:608-616 | recorded ids agree with the peer's list exactly when no address already installed changed its id |
| MlagSync.StaleId | datapath/common/mlag.c:696-697 | one address listed for one id and then for another stays recorded for the first |
| MlagSwitch.ReportedIs | datapath/common/mlag.c:430-465 | of an id the last entry that names it counts, and one no entry names is not listed |
| MlagSwitch.MacOrder | datapath/common/mlag.c:723-724 | comparing MACs byte by byte is comparing them as numbers |
| MlagSwitch.Switch.Receive | datapath/common/mlag.c:402-489 | a frame's effect on a switch: peer, every half it lists or fails to list, and the MAC list |
| MlagSwitch.Switch.Evaluate | datapath/common/mlag.c:703-844 | in place: alive, role, system and shut by the peer's numbers, and every half's block as the specification has it |
| LacpState.FindPort | datapath/common/lag.c:537-543 | the first member on that port, or none |
| LacpSafety.MuxDist | datapath/common/lag.c:345-405 | a member distributes exactly when selected, not held, and its partner is in sync and collecting |
| LacpSafety.TickDecides | datapath/common/lag.c:345-405 | after a tick, exactly the members that are up, unheld, with an unexpired aggregatable, synchronised, collecting partner of the same system and key as the first such member's, distribute |
| LacpSafety.TrunkIsEarned | datapath/common/lag.c:407-488 | in every run the trunk table is exactly the members flagged distributing; under LACP each had earned it at the last evaluation and any two face one system and key |
| LacpHistory.KnowsWhatItWasTold | datapath/common/lag.c:537-565 | in every run what a member with a partner knows -- who, what it takes us for, until when -- is what the last LACPDU on its port said, received while it was a member under LACP as it has been since; three seconds or ninety by the timeout asked for then |
| LacpHistory.TrunkEarnedByPdus | datapath/common/lag.c:345-405 | so under LACP every port in the table earned it at the last evaluation by such an LACPDU, aggregatable, in sync, collecting and not out of date, any two from one system and key |
| LacpMeet.Meet | datapath/common/lag.c:345-480 | two active LAGs that have not met, joined by a link: after five ticks in turn both distribute over it, having sent each time |
| LacpMeet.ActorBits | datapath/common/lag.c:368-393 | which state bits a member shows, one by one |
| LacpMeet.LossTold | datapath/common/lag.c:357-364 | a partner not heard in time is given up and told so at once |
| LacpMeet.ChangeTold | datapath/common/lag.c:388-391 | so is any change of state |
| LacpMeet.ReadyIs | datapath/common/lag.c:381-403 | how many are ready is how many are chosen, held back or not |
| LacpMeet.NextSend | datapath/common/lag.c:455-478 | having sent, the next is due in a second, or thirty if the partner asks for no more |
| LacpSafety.StepKeeps | datapath/common/lag.c:680-695 | ticks, LACPDUs, joins, leaves, mode changes, options, linkscan and removal all keep that |
| LacpPair.PassiveWaits | datapath/common/lag.c:453-480 | two passive LAGs joined by links, neither knowing a partner: in every run in which both stay passive, whatever links, members and modes do, no LACPDU is ever sent and under LACP neither trunk ever has a member |
| LacpLag.Channel.State | datapath/common/lag.c:210-247 | the published table is the distributing members' ports in order |
| LacpLag.Channel.Evaluation | datapath/common/lag.c:345-405 | the two in-place passes, with the partner found as it goes, are selection against the first candidate |
| LacpLag.Channel.OnTick | datapath/common/lag.c:407-488 | sampling, evaluation, speaking, and the table stated again exactly when something in it moved |
| LacpLag.Channel.OnPdu | datapath/common/lag.c:514-565 | an LACPDU's effect; a static LAG ignores it |
| LacpLag.Channel.OnLeave | datapath/common/lag.c:801-829 | the last member takes the place of the one gone and the table is stated without it |
| LacpLag.Channel.OnMode | datapath/common/lag.c:680-695 | a change of mode starts every member again with an empty table |
| VlanTables.AgreementMeans | datapath/common/vlan.c:65-85 | untagged is within members; for a user VLAN the chip has what the bitmaps say; a port is in its own service VLAN exactly when unclaimed and in no VLAN; a LAG's member is exactly where the LAG's record says |
| VlanTables.IfaceMeans | datapath/common/vlan.c:78-85 | `switched` counts the interface's user VLANs, at most one is untagged, and a tunnel port is in its service VLAN untagged and in nothing else |
| VlanTables.ClaimsMean | datapath/common/lag.c:583-594 | a claim names the one LAG whose list has the port, and flood-block pairs are exactly the ordered pairs of different members of one LAG |
| VlanTables.LeftAgrees | datapath/common/vlan.c:318-381 | leaving a VLAN keeps every table agreeing, with the interface's VLANs less that one |
| VlanTables.EnteredAgrees | datapath/common/vlan.c:437-503 | joining one keeps them agreeing, with that one more |
| VlanTables.Reclaimed | datapath/common/lag.c:607-656 | a port changing hands keeps them agreeing, its bits following its LAG's |
| VlanTables.NoAccount | datapath/common/vlan.c:528-532 | no assignment of VLANs accounts for tables in which a member port is out of a VLAN its LAG's record has |
| VlanLag.Switching.Leave | datapath/common/vlan.c:318-381 | the whole effect of leaving a VLAN, back to the service VLAN if it was the last |
| VlanLag.Switching.PortSet | datapath/common/vlan.c:383-503 | refused exactly for an unknown name, a LAG member, a VLAN that does not exist or another tunnel; else the interface is in the VLAN as asked, native in no other, and all tables agree |
| VlanLag.Switching.Tunnel | datapath/common/vlan.c:509-544 | the VLAN becomes the interface's only one, untagged; the tables still agree if and only if it is not a member of a LAG in another VLAN |
| VlanLag.Switching.PortDel | datapath/common/vlan.c:574-591 | out of the VLAN; the tables still agree if and only if it is not a member of a LAG in that VLAN |
| VlanLag.MemberTakenOut | datapath/common/vlan.c:587-588 | a LAG made, given two ports and put in a VLAN, then one port taken out by name: nothing accounts for the tables |
| VlanLag.MemberTunnelled | datapath/common/vlan.c:528-532 | the same LAG, one port made a tunnel port of another VLAN: nothing accounts for them |
| VlanLag.Switching.VlanAdd | datapath/common/vlan.c:260-305 | refused exactly when out of range, reserved, or the datapath's own |
| VlanLag.Switching.VlanDel | datapath/common/vlan.c:593-650 | refused exactly while it has a routed interface; else every interface is out of it |
| VlanLag.Switching.TakeOn | datapath/common/vlan.c:657-688 | a new member's bits become the LAG's in every VLAN of a switched LAG |
| VlanLag.Switching.GiveUp | datapath/common/vlan.c:690-715 | a leaving member's are taken back |
| VlanLag.Switching.Forget | datapath/common/vlan.c:718-731 | a LAG is out of every VLAN |
| VlanLag.Switching.FloodBlock | datapath/common/lag.c:583-594 | exactly the pairs between a member and the others are set or cleared |
| VlanLag.Switching.MemberJoin | datapath/common/lag.c:607-633 | a routed port becomes the LAG's last member, all tables agreeing |
| VlanLag.Switching.MemberLeave | datapath/common/lag.c:635-656 | a member is a routed port again, all tables agreeing |
| VlanLag.Switching.LagAdd | datapath/common/lag.c:667-750 | an empty LAG, if there was none |
| VlanLag.Switching.LagMembers | datapath/common/lag.c:752-831 | all or nothing: refused with nothing changed exactly when a name is no port, listed twice, another LAG's or switched, or there are too many; else the members are exactly those asked for |
| VlanLag.Switching.LagDel | datapath/common/lag.c:833-877 | no LAG, no members, no VLANs, and its ports routed |
| DmaBlocks.Round64Holds | datapath/common/dmapool.c:37-40 | rounding keeps every byte exactly up to 64 short of the top, where it wraps to nothing |
| DmaBlocks.PayloadsApart | datapath/common/dmapool.c:32-35 | payloads lie in the region at multiples of 64 and do not overlap |
| DmaBlocks.TakeTiles | datapath/common/dmapool.c:144-159 | taking and splitting a block keeps the exact tiling with no two free neighbours |
| DmaBlocks.GiveTiles | datapath/common/dmapool.c:219-240 | freeing and merging keeps it |
| DmaBlocks.TakeGive | datapath/common/dmapool.c:203-240 | freeing what was just taken restores the list exactly |
| DmaBlocks.FitsIffLargest | datapath/common/dmapool.c:90-102 | a size can be met exactly when it is at most the largest free block |
| DmaBlocks.EveryByte | datapath/common/dmapool.c:90-102 | bytes in use, free bytes and free headers make up the region |
| DmaLedger.AlwaysBalanced | datapath/common/dmapool.c:104-243 | after any sequence of allocations and frees: the tiling; `used` is the live headers and payloads; and for each name outstanding bytes and allocs less frees are those of its live blocks |
| DmaLedger.PeakReached | datapath/common/dmapool.c:164-166 | after any history the peak is the most that was ever in use at once |
| DmaLedger.Tallied | datapath/common/dmapool.c:127-168 | and a name's allocations and failures are the requests made in it, met and refused |
| DmaLedger.FailuresCounted | datapath/common/dmapool.c:127-129 | the pool's failures are all the requests refused |
| DmaLedger.AllocSucceeds | datapath/common/dmapool.c:118-125 | an allocation succeeds exactly when its rounded size is at most the largest free block, and takes the lowest-addressed fit |
| DmaLedger.HugeAllocWraps | datapath/common/dmapool.c:37-40 | a size within 63 of the top is granted the lowest free block, cut down to nothing if it has 128 bytes and whole if it has fewer |
| DmaLedger.LargestOfAll | datapath/common/dmapool.c:118-125 | the largest size there is, asked of a fresh 1 KiB pool, is granted an empty block |
| DmaLedger.AllocMakesLive | datapath/common/dmapool.c:104-181 | the payload returned, and no other, becomes live |
| DmaLedger.FreeEndsLife | datapath/common/dmapool.c:183-243 | freeing a live payload ends its life and no other's; anything else changes nothing |
| DmaLedger.FreeTwice | datapath/common/dmapool.c:203-213 | a repeated free changes nothing |
| DmaLedger.AllocFree | datapath/common/dmapool.c:183-243 | freeing what was just allocated restores blocks and bytes in use |
| DmaLedger.FreeAll | datapath/common/dmapool.c:219-240 | freeing every live payload in any order leaves the one initial block |
| DmaPool.Allocator.constructor | datapath/common/dmapool.c:60-87 | one free block over the region, or nothing mapped if it cannot hold one |
| DmaPool.Allocator.StatIndex | datapath/common/dmapool.c:42-58 | the name's slot, made if there is room, else the catch-all |
| DmaPool.Allocator.FreeSurvey | datapath/common/dmapool.c:90-102 | walking the links finds the free bytes and the largest free block |
| DmaPool.Allocator.Split | datapath/common/dmapool.c:144-159 | the four header writes leave memory holding exactly the split list |
| DmaPool.Allocator.Absorb | datapath/common/dmapool.c:223-240 | the header writes of a merge leave memory holding exactly the merged list |
| DmaPool.Allocator.Alloc | datapath/common/dmapool.c:104-181 | the linked allocator does to blocks and accounts what the ledger says, and returns that payload |
| DmaPool.Allocator.Free | datapath/common/dmapool.c:183-243 | and so does its free, refusing what is no live payload |
| Masks.MaskInjective | datapath/common/l3sync.c:1088-1088 | two routes with one key are one prefix |
| L3Routes.ResolvedIs | datapath/common/l3sync.c:1088-1125 | resolving gives the egresses of all the hops with a gateway and an egress, in order, and of no others |
| L3Routes.GroupLimitIsExact | datapath/common/l3sync.c:1042-1043 | with each prefix listed once, what is programmed is what resolves if and only if the groups there are and the distinct sets the listing needs are at most 64 together |
| L3Routes.OneTooMany | datapath/common/l3sync.c:1042-1043 | 65 routes over 17 neighbours with as many sets, as the kernel can list them, all resolving: not all are programmed |
| L3Mirror.RouteCache.EcmpFind | datapath/common/l3sync.c:1025-1065 | the one group of these members, made once, unless the cache is full |
| L3Mirror.RouteCache.Install | datapath/common/l3sync.c:1144-1171 | the chip still mirrors the cache exactly when there was room to record the route |
| L3Mirror.RouteCache.Refresh | datapath/common/l3sync.c:1138-1161 | a known route is marked seen, and replaced in the chip if it moved |
| L3Mirror.RouteCache.Sweep | datapath/common/l3sync.c:841-868 | the entries kept are exactly those seen, unmarked, keys unique, and the chip mirrors them |
| L3Mirror.RouteCache.Poll | datapath/common/l3sync.c:1174-1191 | after a poll the cache mirrors the chip if and only if every prefix cached or asked for fitted it; the chip's routes are then exactly those asked for, each by its one egress or the group of exactly its resolved next hops; that is what resolves if and only if the groups fitted, and then a listed prefix is in the chip exactly when one of its hops can be had, by the egresses of all of those in order |
| L3Mirror.TooManyRoutes | datapath/common/l3sync.c:1163-1170 | one listing of 1025 routes, none of them the default or to 0.0.0.0, leaves the chip with one the cache does not have |
| AclBits.LeadingOnesOf | datapath/common/acl.c:535-544 | a prefix length is counted back from its mask |
| AclBits.Ones6Of | datapath/common/acl.c:546-559 | the same for sixteen bytes |
| AclText.TokensJoin | datapath/common/acl.c:407-425 | words written with single blanks are read back |
| AclText.NumberDecimal | datapath/common/acl.c:365-373 | a printed number reads back as itself, within the limit |
| AclText.PrefixRoundTrip | datapath/common/acl.c:302-345 | a printed prefix of either family is one word of that family and parses to itself |
| AclText.ParsedCanonical | datapath/common/acl.c:302-345 | whatever parses has a mask of some length and no address bits outside it |
| AclGrammar.ParseIs | datapath/common/acl.c:395-500 | the parser takes a text exactly when its words say clauses about one family, with L4 ports only for TCP or UDP, and the rule is what the last clause of each kind says, for every spelling of family, number, protocol, port and prefix |
| AclGrammar.TokensAre | datapath/common/acl.c:407-425 | the words of a text are those it is made of, however they are spaced |
| AclGrammar.NumberIs | datapath/common/acl.c:365-373 | a number is read exactly if spelt in digits after blanks and a sign, if any, within bounds |
| AclGrammar.ParsePrefix4Is | datapath/common/acl.c:302-320 | an IPv4 prefix is read exactly as the address's first bits, as many as the length after the slash says or all |
| AclGrammar.ParsePrefix6Is | datapath/common/acl.c:322-344 | and so is an IPv6 one |
| AclGrammar.BareAddress | datapath/common/acl.c:306-326 | an address by itself is that one host |
| AclGrammar.NothingAfterSlash | datapath/common/acl.c:310-313 | a slash with nothing after it reads as every address there is |
| AclRules.ProtoRoundTrip | datapath/common/acl.c:502-518 | every protocol 0-255 reads back from its name or number |
| AclRules.ParsedSound | datapath/common/acl.c:395-500 | a rule that parsed has one family, ports only with TCP or UDP, and everything in range |
| AclCanon.TextLimit | datapath/common/acl.c:566-608 | the canonical text of a rule that parsed has at most 160 characters, and 160 exactly when nothing in it could be longer |
| AclCanon.PrintParse | datapath/common/acl.c:566-608 | as the buffer holds it, it parses to the rule it was printed from if and only if something in that could be longer; else to the rule with its destination port divided by ten |
| AclCanon.RoundTrip | datapath/common/acl.c:1047-1050 | for every text that parses, the canonical form written and read back gives the same rule if and only if something in it could be longer; and it is its own canonical form either way |
| AclCanon.TerseParses | datapath/common/acl.c:431-435 | such a rule spelt `ip6` has 159 characters and parses |
| AclCanon.PortLost | datapath/common/acl.c:1047-1050 | TCP between the all-ones address and itself, both ports 65535, in by a port with a name of 15: accepted, and read back for destination port 6553 |
| AclParser.Tokenise | datapath/common/acl.c:407-425 | the tokenising loop finds exactly the words |
| AclParser.ParseRule | datapath/common/acl.c:395-500 | the parsing loop is the parser, error by error |
| AclParser.ReadNumber | datapath/common/acl.c:365-373 | blanks, sign and digits, read in place, are the number |
| AclParser.FindPort | datapath/common/acl.c:375-388 | the search finds the first port of that name |
| AclParser.ReadProto | datapath/common/acl.c:282-300 | the table is searched, and else a number read |
| AclParser.ReadPrefix6 | datapath/common/acl.c:322-344 | address and mask, byte after byte, are the prefix |
| AclParser.PrefixLen4 | datapath/common/acl.c:535-544 | the shifting loop counts leading ones |
| AclParser.PrefixLen6 | datapath/common/acl.c:546-559 | byte after byte |
| AclParser.RuleText | datapath/common/acl.c:566-608 | the text appended part by part leaves in 160 bytes what fits of the canonical form, and no write starts beyond them |
| SviTx.FrameHash | datapath/common/tapbridge.c:651-659 | the 12 address bytes folded in 32 bits |
| SviTx.HashIs | datapath/common/tapbridge.c:651-659 | which is the bytes as digits in base 31, modulo 2^32 |
| SviTx.PickSpreads | datapath/common/lag.c:1029-1036 | hashes one after another pick one distributing member after another |
| SviTx.SameConversation | datapath/common/tapbridge.c:651-659 | frames with the same two addresses take the same member |
| SviTx.FloodMask | datapath/common/lag.c:1038-1065 | of the ports given, exactly those in no LAG and each LAG's picked member are left |
| SviTx.TxSvi | datapath/common/tapbridge.c:710-755 | a frame goes only to forwarding members, at most one a LAG; a flood to every forwarding port in no LAG and each LAG's picked forwarding member; a known unicast to its one port or nowhere |
| SviTx.KnownStays | datapath/common/tapbridge.c:717-734 | that port is kept if behind a trunk or in no LAG, and otherwise exactly when it is the one picked |
| SviTx.SentNowhere | datapath/common/tapbridge.c:731-734 | a destination learned on one port of a two-member LAG whose hash picks the other: nothing is sent |
| SviTx.OneCopy | datapath/common/lag.c:1029-1036 | of a LAG's ports exactly the picked one is left |
| Checksum.ComplementFolds | datapath/common/gateway.c:226-235 | a sum with the complement of its folding folds to 0xffff |
| Checksum.Fold | datapath/common/gateway.c:231-232 | the folding loop ends, in 32 bits, at the folded sum |
| Checksum.Total | datapath/common/tapbridge.c:696-702 | the words of pseudo-header and message, odd lengths included, added up without overflow |
| Checksum.AdvertisementFields | datapath/common/gateway.c:208-224 | its fields where a host looks for them: addresses, hop limit 255, router and override set, solicited or not, target and MAC option |
| Checksum.GwNa | datapath/common/gateway.c:201-237 | the 86 bytes are that advertisement, and the message verifies |
| Checksum.LinkLocalIs | datapath/common/tapbridge.c:689-693 | the SVI's own address is fe80:: and the MAC with ff:fe in it and one bit turned over |
| Checksum.NdFromOwn | datapath/common/tapbridge.c:677-708 | a solicitation or advertisement from a gateway address leaves from the SVI's own with only source and checksum changed, and verifies; any other frame is untouched |

## Left out

- RstpBridge.SpanningTree.Transition: does not model the chip's spanning-tree group writes that `set_state` makes; the branch for blocked ports is LowerPort.
- RstpBridge.SpanningTree.TopologyChange: does not model the flushes of learned addresses.
- RstpBridge.SpanningTree.Set: takes a priority already in range, as part of the bridge id.
- MlagSwitch.Switch.Evaluate: does not model the spanning-tree exclusion, the repointing of addresses and the MAC sync that `evaluate` sets off; the sync is MlagSync.
- RstpBridge.SpanningTree.Run: whether a BPDU could be sent is an input (sent, refused or no port); what it says is modelled, but for the acknowledgement of a topology change, and its bytes are not.
- RstpBridge.SpanningTree.Rx: starts from a decoded BPDU; the length test that relies on minimum-frame padding is not modelled.
- RstpBridge.SpanningTree.Configure: takes values already in range.
- RstpSafety.RootChangeHolds: is about a change of root; a dispute discards without unsetting the forward delay, and nothing is claimed from there.
- RstpNetwork.SpanningTree: is about settled networks; that a network settles is not shown.
- MlagPair.FloodsArriveOnce: is for one id, configured on both sides throughout, over a peer-link that keeps order and loses nothing, judged at each side's last evaluation.
- MlagSync.Reassembled: assumes no chunk is lost; the source does not detect a lost middle chunk.
- MlagSync.SyncTable.ApplySync: each address's destination is given; moving installed addresses when a half changes is not modelled.
- MlagTiming.SettlingIsExact: asks that the dead time be longer than the reach, which `nosaic_mlag_set` does not; lets a half come back at any moment, even between a hello and the evaluation that follows it; how fast a LAG can do so is not modelled.
- LacpSafety.TrunkIsEarned: says nothing of a LAG being removed, whose members go one at a time before its table does.
- VlanLag.Switching.PortSet: does not model PVIDs, learning, ingress filtering, tag protocol ids or double-tag modes; ports are named by their taps, and MLAG, which writes the same flood-block table, is off.
- VlanLag.Switching.LagAdd: does not model the trunk, the tap and the router interface it makes, or a failure to make them.
- DmaPool.Allocator.Free: assumes callers do not write a header's magic number where a header could be.
- L3Mirror.RouteCache.Poll: starts from a cache that mirrors the chip; which hops resolve, the limit of 8 a route and leaving out the default route are in its inputs.
- AclCanon.RoundTrip: takes the C library's address conversions to be inverses on what is printed.
- SviTx.TxSvi: takes each LAG's distributing members to be members; the frame's tag and padding are not modelled.
- IPv6 routes, hosts and next-hop resolution in `l3sync.c`: the same shape as the IPv4 routes.
- The gateway table of `gateway.c`, statistics sorting in `dmapool.c`, queries and printing, sockets, netlink, threads and locks: easy members, or nothing to state.
- `datapath/helix4`, `datapath/td2`, `datapath/tdp`, `cli/` and `cmd/`: hardware bring-up and request plumbing.
