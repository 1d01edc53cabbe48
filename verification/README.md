# A verified model of VAST_NC

VAST_NC is a peer-to-peer publish/subscribe overlay. Matchers divide a virtual
world among themselves along a Voronoi diagram, hand shared objects over to one
another as those move, and are found through a gateway and through relays; below
them a message layer cuts frames out of byte streams, a scheduler shares the upload
bandwidth out, and a network-coding layer orders and selects packets.

The project models the protocol logic of these parts in Dafny and proves what it
is meant to guarantee, or exactly when it does. Each part comes in three layers:
functions on values that say what every handler does; lemmas about those functions
over every run, every arrival order or every byte string; and a class with the
program's own fields whose methods update them in place, loop as the program
loops, and are proved equal to the functions.

The functions follow the code, so they are not left to speak for themselves: the
modules named `...Runs` and `...Outcomes`, and `MessageDelivery`, say what every step
or run comes to in terms of the messages, checks and clocks before it: who owns,
who is told what, which frames come out, when a countdown, a share or a record is
what it is.

| part | modules |
|---|---|
| ownership hand-over between matchers | `Ownership`, `OwnershipNet`, `OwnershipTimed`, `OwnershipConservation`, `OwnershipRuns`, `VsoPeers` |
| message layer | `Framing`, `Reassembly`, `MessageLayer`, `MessageDelivery`, `FullQueue` |
| gateway registry | `Registry`, `RegistryRuns`, `RegistryOutcomes`, `Gateways` |
| subscriber visibility and replicas | `Visibility`, `Replicas`, `ReplicaOutcomes` |
| relay tables and greedy search | `Relay`, `RelayRuns`, `RelayOutcomes`, `RelaySearch`, `RelayHandlers` |
| VON neighbour tables | `Von`, `VonRuns`, `VonOutcomes`, `VonPeers` |
| bandwidth scheduler | `Scheduler`, `SchedulerRuns`, `SchedulerOutcomes`, `BandwidthSenders` |
| network coding: order, pool, codec | `Ordering`, `OrderingRuns`, `PacketPool`, `CodedMessages`, `UdpncMessages` |

`Options`, `OrderedKeys` and `Sequences` hold what they share: a C++ map is walked
in ascending key order, so `Ascending` turns a key set into that walk.

## What the proofs assume

- **Ownership.** A network state holds the clock, every peer's record of one object
  and the bags of travelling orders and acknowledgements. Copies may be lost,
  repeated and overtaken, and each check may see any Voronoi view. The timed result
  names the delays it needs (`OwnershipTimed.Timely`): an accepted order is accepted
  in less than VSO_TIMEOUT_TRANSFER after its release, every acknowledgement arrives
  in less than that after the acceptance, and nobody claims merely because the object
  sits in its region. Three lemmas break one delay each and end with two owners. The
  conservation result needs no clock at all.
- **Gateway.** The gateway believes its matchers. The runs are those in which a
  matcher claims only the world a MATCHER_INIT last named to it, and reports no other
  unless it has been replaced there since (`RegistryRuns.Honest`). It need not have
  heard of its replacement: a claim may cross the message that refuses it and may be
  repeated (`ClaimsMayBeRepeated`), until the matcher registers anew.
  `ShiftingClaimsShareAnOrigin` shows what one that shifts its claim can cause. World
  ids are resolved and not zero.
- **Message layer.** Nothing is assumed about the chunks. Whether every frame starts
  in a chunk longer than a header is shown to be exactly the condition under which
  no byte leaks to the sockets.
- **Relays.** Distances are real numbers and may be anything. A query can be thrown in
  a circle exactly when a relay with a lower id is farther off by less than
  EQUAL_DISTANCE (`RelaySearch.QueriesCycleIff`); what needs that not to be so says so.
- **VON.** The diagram is a set of sites; which neighbours are relevant is any set.
  VON_HELLO carries its sender's id and VON_EN comes from known neighbours
  (`VonRuns.Polite`); that the latter is needed is proved both ways.

## What the proofs found

Where the code does not do what its comments or names promise, the model keeps the
code and a lemma says what happens.

- A clean release and a late acknowledgement are enough for two owners, since the
  acknowledgement carries no sequence number and acceptance does not clear the
  in-transit time (`LateAckDuplicates`, `LateAcceptanceDuplicates`).
- A disconnect keeps the half-received frame. What a reconnecting sender says comes out
  as it was said if and only if there was none; else its first bytes complete the half
  frame and a frame nobody sent comes out (`DisconnectIsHarmlessIff`, `HalfIsFilledUp`,
  `ReconnectMixesFrames`).
- A flush clears the UDP buffers of hosts whose address is not known without sending
  them (`FlushIsPointwise`), and of 256 orders or more released to one target in one
  check some are never sent (`AllOrdersAreSentIff`).
- The gateway's sweep never retires an origin, because only regular matchers expire;
  an origin's disconnect goes unnoticed exactly while it is being promoted, and then its
  clients wait on until it reports;
  candidates whose MATCHER_INIT cannot be sent stay PROMOTING; answering a request
  that names an unknown matcher records a blank entry that later shuts it out,
  and nothing else of another's report does (`SweepIs`, `MissedIffPromoting`,
  `WaitingGoesOn`, `PromoteTakes`, `ShutOutIff`).
- The relay state JOINING is never entered (`RelayRuns.TablesAgree`).
- `VONPeer::leave` clears neither the diagram nor the drop times, so a peer that comes
  back anywhere else has tables that disagree (`RejoinAgreesIff`).
- `net_emu::disconnect` returns true on success, so `net_emu_bl::disconnect` returns
  before it clears the queue; the queue left over then keeps a later round going for
  ever when bandwidth is to spare (`LeftOverIff`, `LeftOverSpins`).
- Ordering numbers tolerate nine packets lost in a row and no more. A packet that comes
  late or twice is handed on again exactly when it belongs to the round before the
  present one, or opens the present one while the numbers are about to wrap
  (`GapIsSafeIff`, `LateIsReplayedIff`).
- The decoder's loop erases while it counts up, so coded packets at odd places are
  passed over, and a failing call halves the queue (`OddPlaceIsMissed`,
  `FailureHalves`).
- `UDPNCMessage::sizeOf` is too small for messages with more than one packet, and a
  message object that is used again does not restore what it reads
  (`SizeOfIsExactIff`, `RestoresIffBlank`).
- `copyObject` records objects as copied even when they were not sent: its record stays
  true if and only if nothing new was recorded or the full part went, fewer than 256
  known objects, to a known neighbour (`CopyIsFaithfulIff`, `UnknownTargetIsRecorded`).

## Model

| member | source | states |
|---|---|---|
| OwnershipTimed.SingleOwnership | VAST/VSOPeer.cpp:541-686 | over every run within the named delays, from one settled owner, no state has two owners, and in each some peer owns the object or holds it in transit |
| OwnershipTimed.StepKeepsInv | VAST/VSOPeer.cpp:541-778 | every check, delivery, acknowledgement, insertion, update, departure, loss and passing of time within the delays keeps the invariant behind single ownership |
| OwnershipTimed.ReadyToRelease | VAST/VSOPeer.cpp:562-592 | when an owner's countdown has run out nobody is in transit, no acknowledgement for it travels, and every older order is too late to be accepted |
| OwnershipTimed.AcceptableOrder | VAST/VSOPeer.cpp:689-760 | an order that can still be accepted is the latest release, its target holds nothing in transit, and the releaser has not reclaimed the object |
| OwnershipTimed.Reclaim | VAST/VSOPeer.cpp:625-629 | when the in-transit countdown runs out the order was never accepted, so the claim makes the releaser the only owner |
| OwnershipTimed.TwoPeersSettled | VAST/VSOPeer.cpp:930-963 | the state the three counterexamples start from meets the main result's assumption |
| OwnershipTimed.RegionClaimDuplicates | VAST/VSOPeer.cpp:599-616 | a claim made only because the object is in the claimer's region gives two owners, all else in time |
| OwnershipTimed.LateAckDuplicates | VAST/VSOPeer.cpp:200-215 | an acknowledgement that takes too long gives two owners, all else in time |
| OwnershipTimed.LateAcceptanceDuplicates | VAST/VSOPeer.cpp:738-760 | an order accepted too late gives two owners, all else in time |
| OwnershipConservation.Conservation | VAST/VSOPeer.cpp:562-628 | over every run that delivers no order twice to its target, owners plus travelling plus queued orders never exceed those at the start plus the claims and direct grants so far |
| OwnershipConservation.StepConserves | VAST/VSOPeer.cpp:541-778 | no single step creates a right to the object that it does not count as a claim or a grant |
| OwnershipConservation.SettledWeighsOne | VAST/VSOPeer.cpp:930-963 | a state with one owner and nothing in flight holds exactly one right |
| OwnershipConservation.OnlyNamedAccepts | VAST/VSOPeer.cpp:689-760 | whoever becomes owner without a claim or grant was named by an order travelling to it or queued at it |
| OwnershipConservation.QueuesStayNamed | VAST/VSOPeer.cpp:712-722 | over every run an order is queued only at the peer it names |
| OwnershipRuns.ReleasesIff | VAST/VSOPeer.cpp:560-623 | over every run a check releases the object if and only if it is out of the owner's region, nearer to another, and every check of the owner since one at least VSO_TIMEOUT_TRANSFER ago found it out of the region; exactly one order then goes, to the peer nearest now |
| OwnershipRuns.ClaimsIff | VAST/VSOPeer.cpp:599-629 | over every run a check claims an unowned object if and only if its transit has gone on for three timeouts, or it is in the region and a deadline set five timeouts after a check that found it there, or by a departure, has passed and was not dropped since |
| OwnershipRuns.RegionClaimsTakeTime | VAST/VSOPeer.cpp:599-616 | without a departure or transit, whoever claims an object found it in its region five timeouts before, and at every check since that found it unowned |
| OwnershipRuns.InTransitIff | VAST/VSOPeer.cpp:562-629 | over every run an object is in transit exactly since a release that was not followed by an acknowledgement, a deletion, a claim, or a check three timeouts later |
| OwnershipRuns.QueuedOrdersCount | VAST/VSOPeer.cpp:930-963 | over every run an inserted object is owned if and only if it comes so or an order for it arrived since its last insertion, and the last such order is acknowledged |
| OwnershipRuns.OrdersAreAccepted | VAST/VSOPeer.cpp:689-760 | a delivered order makes exactly the joined peer it names, if that knows the object, its owner, and is acknowledged to a named previous owner |
| OwnershipRuns.OtherStepsOwn | VAST/VSOPeer.cpp:968-1007 | of the other steps only an update that says so and a deletion change ownership, and only being told it changes the nearest peer |
| OwnershipRuns.TimeIsRenewedIff | VAST/VSOPeer.cpp:738-778 | an object's time is renewed exactly by insertion, update, acceptance and claim |
| VsoPeers.CheckFirstIsPointwise | VAST/VSOPeer.cpp:553-629 | the loop over all objects acts on each object as the check of that object in the old state, and on no other |
| VsoPeers.CheckFirstSends | VAST/VSOPeer.cpp:562-628 | the orders collected by the loop are exactly those the objects' old states release |
| VsoPeers.CheckFirstSendsOnce | VAST/VSOPeer.cpp:562-628 | each object is released at most once, in id order |
| VsoPeers.GroupedByTarget | VAST/VSOPeer.cpp:575-582 | each target's batch is exactly the orders addressed to it, in order, and only targets with an order have one |
| VsoPeers.AllOrdersAreSentIff | VAST/VSOPeer.cpp:640-682 | each target with orders gets one message, addressed to it and the enclosing neighbours, with the first of its orders up to their number modulo 256, so all of them if and only if there are fewer than 256 |
| VsoPeers.ReceiveFirstIsPointwise | VAST/VSOPeer.cpp:689-735 | a batch naming each object once acts on each as that one order would, and leaves all others alone |
| VsoPeers.MissingAreQueued | VAST/VSOPeer.cpp:708-735 | the objects asked for are exactly the unknown ones handed to this peer, and exactly their orders are queued, the last for each |
| VsoPeers.AcksAreSent | VAST/VSOPeer.cpp:689-760 | for any batch exactly one acknowledgement goes out for each order that names this joined peer, a known object and a previous owner, in batch order |
| VsoPeers.DepartFirstIsPointwise | VAST/VSOPeer.cpp:236-249 | a departure sets the reclaim deadline of exactly the objects last closest to the departed |
| VsoPeers.VsoPeer.CheckOwnershipTransfer | VAST/VSOPeer.cpp:541-686 | the in-place check yields the loop's new maps and, for each target, one batch sent to it and to the enclosing neighbours; nothing happens before joining |
| VsoPeers.VsoPeer.CheckCountdowns | VAST/VSOPeer.cpp:560-623 | the region tests and the release and reclaim countdowns of one object, on the maps |
| VsoPeers.VsoPeer.ProcessTransfer | VAST/VSOPeer.cpp:689-735 | a whole VSO_TRANSFER message: new maps, the acknowledgements sent and the objects to ask for |
| VsoPeers.VsoPeer.AcceptTransfer | VAST/VSOPeer.cpp:738-760 | acceptance keeps the in-transit time, stops the reclaim countdown and acknowledges to a named previous owner |
| VsoPeers.VsoPeer.ClaimOwnership | VAST/VSOPeer.cpp:764-778 | a claim makes the peer owner and clears both the in-transit time and the reclaim countdown |
| VsoPeers.VsoPeer.HandleAck | VAST/VSOPeer.cpp:200-215 | an acknowledgement clears the in-transit time of a known object whatever release it answers |
| VsoPeers.VsoPeer.HandleDisconnect | VAST/VSOPeer.cpp:236-249 | a departure makes the reclaim deadlines of the departed's objects zero |
| VsoPeers.VsoPeer.InsertSharedObject | VAST/VSOPeer.cpp:930-963 | inserting an unknown object applies an order queued for it, else nothing but the object changes |
| VsoPeers.VsoPeer.UpdateSharedObject | VAST/VSOPeer.cpp:968-990 | an update renews the time and hands ownership over only when told to |
| VsoPeers.VsoPeer.DeleteSharedObject | VAST/VSOPeer.cpp:994-1007 | deletion removes the object and leaves its countdowns and queued order behind |
| Framing.ParseStream | VASTnet/VASTnet.cpp:233-256 | decoding whole frames run together with part of another gives back exactly those frames and that part |
| Framing.ParsePrefix | VASTnet/VASTnet.cpp:428-475 | decoding any prefix of a stream gives its first frames and a proper part of the next |
| Framing.HeaderOfFrame | VASTnet/VASTnet.cpp:233-243 | a frame's first bytes read back as its type, size and both marks |
| Framing.HeaderLayout | common/VASTnet.h:92-98 | the four header bytes in terms of kind and size, low bits first, with the two marks at the ends |
| Reassembly.FeedIsParse | VASTnet/VASTnet.cpp:405-493 | however one sender's bytes are cut, if none went to the sockets the frames and the half buffer are what decoding the bytes run together gives |
| Reassembly.NoRawIff | VASTnet/VASTnet.cpp:428-460 | nothing leaks to the sockets if and only if every frame starts with more than a header's worth of bytes in one piece, leftovers included |
| Reassembly.ChunkingIndependence | VASTnet/VASTnet.cpp:405-493 | pieces of a stream of frames deliver exactly the frames, in order, if and only if every start is long enough |
| Reassembly.DisconnectIsHarmlessIff | VASTnet/VASTnet.cpp:420-426 | after a disconnect a sender's frames, cut with long enough starts, come out as they were sent if and only if no half message was left behind |
| Reassembly.HalfIsFilledUp | VASTnet/VASTnet.cpp:431-475 | a half message left behind takes its missing bytes from whatever comes next, disconnects and new frames or not, and that is the first frame to come out |
| Reassembly.ReconnectMixesFrames | VASTnet/VASTnet.cpp:420-426 | one case in full: a reconnecting sender's first frame of the right length completes the half message into one nobody sent, and nothing else comes out |
| MessageLayer.RunProjects | VASTnet/VASTnet.cpp:405-493 | for every interleaving of senders, the loop produces for each what that sender's pieces alone produce |
| MessageLayer.RunInBatches | VASTnet/VASTnet.cpp:405-493 | calling the loop after each batch of arrivals is calling it once after all |
| MessageLayer.ProcessDelivers | VASTnet/VASTnet.cpp:405-493 | for any queue from any senders, a sender's complete frames are delivered in order and no byte leaks, exactly when its frames start long enough |
| MessageLayer.Run | VASTnet/VASTnet.cpp:412-490 | the loop ends with an empty queue, and every half buffer is strictly shorter than its frame |
| MessageLayer.SplitStream | VASTnet/net_udp_handler.cpp:131-208 | a datagram of nonempty frames is split into exactly those frames |
| MessageLayer.EncodingsLongStarts | VASTnet/net_udp_handler.cpp:131-208 | one piece for each frame is safe if and only if no frame is empty |
| MessageLayer.SplitThenFeed | VASTnet/net_udp_handler.cpp:131-208 | splitting one datagram first delivers the same frames as queueing it whole |
| MessageLayer.DatagramsAreDelivered | VASTnet/net_udp_handler.cpp:131-208 | of any datagrams from any senders, built from frames that are not empty and split first, every sender's frames are delivered, all of them, in order, with no leak and nothing left over |
| MessageLayer.FlushIsPointwise | VASTnet/VASTnet.cpp:313-400 | a flush empties every buffer and sends exactly the nonempty ones of known targets, each whole; what the others held is lost |
| MessageLayer.StreamSnoc | VASTnet/VASTnet.cpp:224-256 | appending a frame to a send buffer appends it to the stream the receiver sees |
| MessageDelivery.GoesBehind | VASTnet/VASTnet.cpp:224-256 | a frame goes behind the frames its target's buffer holds and into no other buffer |
| MessageDelivery.BufferHoldsSince | VASTnet/VASTnet.cpp:189-263 | over every sequence of sends and flushes a buffer holds exactly the frames to its target since the last flush, in sending order |
| MessageDelivery.FlightsAreBatches | VASTnet/VASTnet.cpp:313-400 | each flush lets out to a reached target, in one piece, exactly the frames sent to it since the flush before |
| MessageDelivery.ComesOutInOrder | VASTnet/VASTnet.cpp:189-493 | from end to end: whatever one host sends and flushes, in whatever pieces it arrives and mixed with whatever others, the whole frames come out in sending order if every start is long enough, and all of them once everything is flushed and has arrived |
| MessageDelivery.BatchesComeOut | VASTnet/net_udp_handler.cpp:131-208 | from end to end in datagrams: exactly the batches flushed while the target's address was known come out, in sending order |
| MessageDelivery.CutDatagram | VASTnet/net_udp_handler.cpp:131-208 | a datagram cut inside a frame yields the whole frames before the cut and runs over if and only if more than the cut frame's header is left |
| MessageLayer.VastNet.SendMessage | VASTnet/VASTnet.cpp:189-263 | a message to oneself is delivered, one to an unconnected host is dropped, any other is encoded behind its target's TCP or UDP buffer; the result is the size each case reports |
| MessageLayer.VastNet.Flush | VASTnet/VASTnet.cpp:313-400 | the two in-place loops send every nonempty TCP buffer and the UDP buffers of known addresses, and empty all |
| MessageLayer.VastNet.MsgReceived | VASTnet/net_udp.cpp:387-412 | a chunk is queued behind the others, or in front when it is pushed back |
| MessageLayer.VastNet.Receive | VASTnet/net_udp.cpp:313-336 | the first chunk is taken off the queue; an empty queue stays empty |
| MessageLayer.VastNet.TakeIn | VASTnet/VASTnet.cpp:428-485 | one chunk fills the sender's half buffer, delivers the frame it completes and puts the rest back in front |
| MessageLayer.VastNet.Process | VASTnet/VASTnet.cpp:405-493 | the loop with its push-back ends and computes the whole pass over the queue |
| MessageLayer.VastNet.ProcessInput | VASTnet/net_udp_handler.cpp:131-208 | the pointer walk queues exactly the pieces of the datagram and reports a frame that runs past its end |
| FullQueue.PriorityFifo | VASTnet/VASTnet.cpp:1110-1133 | over every run of storing and receiving, within a priority nothing is lost, repeated or overtaken, and the queue stays in priority order |
| FullQueue.Queue.StoreVastMessage | VASTnet/VASTnet.cpp:1110-1133 | a message goes behind all of its own and better priorities, and its sender is the host it came from when it names none |
| FullQueue.Queue.ReceiveMessage | VASTnet/VASTnet.cpp:268-310 | while active and with time left the front message is handed out and removed, else nothing changes |
| RegistryRuns.OriginsAlwaysFine | VAST/VASTMatcher.cpp:282-314 | after every message and sweep no matcher is origin of two worlds, each origin is on record and PROMOTING or ORIGIN, and an ORIGIN one records that very world |
| RegistryRuns.ListsOnlyWhilePromoting | VAST/VASTMatcher.cpp:571-631 | in every reachable state a waiting list exists only while that world's origin is PROMOTING, is not empty and holds nobody twice |
| RegistryRuns.ListStaysOrIsAnswered | VAST/VASTMatcher.cpp:472-493 | each step either keeps a waiting list as a prefix of the new one or answers all of it, once, with the address of that world's origin |
| RegistryRuns.NobodyIsLost | VAST/VASTMatcher.cpp:472-493 | over every run a waiting client goes on waiting until it is told |
| RegistryRuns.OncePerJoin | VAST/VASTMatcher.cpp:571-645 | over every run a client told about a world twice has joined again in between |
| RegistryRuns.OnlyJoinersWait | VAST/VASTMatcher.cpp:1844-1862 | nobody comes to wait except by a JOIN of its own |
| RegistryRuns.OnlyWaitersAreTold | VAST/VASTMatcher.cpp:472-493 | nobody is told about a world without waiting for it or joining it |
| RegistryRuns.JoinOutcome | VAST/VASTMatcher.cpp:539-645 | exactly when a JOIN's client waits, is told at once, or is turned away |
| RegistryRuns.PromotePicks | VAST/VASTMatcher.cpp:571-610 | the promotion loop fails if and only if no candidate can be reached, and else ends at the lowest reachable one |
| RegistryRuns.PromoteTakes | VAST/VASTMatcher.cpp:1733-1757 | the loop uses up exactly the candidates up to the chosen one, or all of them |
| RegistryRuns.SweepIs | VAST/VASTMatcher.cpp:1494-1531 | a sweep forgets exactly the regular matchers that stopped reporting; it retires no origin, promotes nobody and sends nothing |
| RegistryRuns.MissedIffPromoting | VAST/VASTMatcher.cpp:1830-1841 | the disconnect of an origin changes nothing if and only if it is PROMOTING, and then nothing is sent |
| RegistryRuns.WaitingGoesOn | VAST/VASTMatcher.cpp:1044-1067 | over every run clients keep waiting for the same origin as long as it sends no report, its own disconnect included |
| RegistryRuns.ClaimsMayBeRepeated | VAST/VASTMatcher.cpp:441-470 | a claim the runs allow stays allowed after it is made, refused or not, so the run results cover claims that cross their refusal |
| RegistryRuns.ShiftingClaimsShareAnOrigin | VAST/VASTMatcher.cpp:441-510 | without the assumption on matchers two worlds come to share an origin |
| RegistryRuns.ShutOutIff | VAST/VASTMatcher.cpp:393-405 | after another's report a matcher not on record is shut out if and only if the report asked for the world's address and named that matcher as origin |
| RegistryOutcomes.BackupTakesOver | VAST/VASTMatcher.cpp:1697-1719 | a confirmed origin that disconnects is replaced by the lowest regular matcher of its world, which becomes ORIGIN and alone is told; all other records, origins and lists stay |
| RegistryOutcomes.WorldIsLeft | VAST/VASTMatcher.cpp:1723-1730 | without a regular matcher of the world the origin and the world's entry go, and nothing is sent |
| RegistryOutcomes.OthersGoUnnoticed | VAST/VASTMatcher.cpp:1044-1067 | the disconnect of anybody who is not a confirmed origin changes and sends nothing |
| RegistryOutcomes.OriginChangesIff | VAST/VASTMatcher.cpp:1685-1730 | a step replaces or loses a world's origin if and only if it is that confirmed origin's disconnect, and loses it if and only if no regular matcher of the world is left |
| RegistryOutcomes.JoinNames | VAST/VASTMatcher.cpp:571-610 | a JOIN for a new world names the lowest reachable candidate, tells it alone, and makes the client wait; exactly that candidate and the lower ones become PROMOTING |
| RegistryOutcomes.JoinNamesNobody | VAST/VASTMatcher.cpp:571-610 | when no candidate can be reached all become PROMOTING, nothing is sent and no origin is recorded |
| RegistryOutcomes.RefusedIff | VAST/VASTMatcher.cpp:405-470 | a report is answered by the name of the world's origin if and only if that is another matcher and the reporter claims to be it or is not on record |
| RegistryOutcomes.GrantedIff | VAST/VASTMatcher.cpp:443-507 | a claim makes or keeps the reporter a confirmed origin if and only if its world has no other origin |
| RegistryOutcomes.RegularOutcome | VAST/VASTMatcher.cpp:510-521 | a report without a claim makes candidates, promoted and unknown matchers regular ones and leaves every other state alone |
| RegistryOutcomes.AskersAreTold | VAST/VASTMatcher.cpp:393-405 | whoever asks is told, first of all, the world and the address on record for the origin it names; nobody else is |
| RegistryOutcomes.SweptIff | VAST/VASTMatcher.cpp:1498-1531 | over every run a sweep removes a matcher if and only if it is a regular one and its last report is older than the limit |
| RegistryOutcomes.JoinTellsAddress | VAST/VASTMatcher.cpp:612-645 | over every run a client joining a world with a confirmed origin is sent, alone and at once, the address in that origin's last report, which was about that world |
| Gateways.Gateway.HandleCandidate | VAST/VASTMatcher.cpp:282-314 | an unknown matcher is recorded as a candidate, a known one is ignored |
| Gateways.Gateway.HandleAlive | VAST/VASTMatcher.cpp:355-521 | the in-place handler makes the changes and sends the messages of the report function |
| Gateways.Gateway.FindCandidate | VAST/VASTMatcher.cpp:1733-1757 | the lowest candidate is set PROMOTING and returned, or none is and nothing changes |
| Gateways.Gateway.StoreRequestingClient | VAST/VASTMatcher.cpp:1844-1862 | a client is appended to its world's list unless it is on it |
| Gateways.Gateway.HandleJoin | VAST/VASTMatcher.cpp:539-645 | the in-place handler with its promotion loop ends and does what the JOIN function says |
| Gateways.Gateway.OriginDisconnected | VAST/VASTMatcher.cpp:1685-1730 | the origin is forgotten and the lowest active matcher of its world replaces it, or the world loses its origin |
| Gateways.Gateway.HandleDisconnect | VAST/VASTMatcher.cpp:1044-1067 | only the disconnect of a recorded origin changes the registry |
| Gateways.Gateway.ListExpired | VAST/VASTMatcher.cpp:1498-1513 | the removal list holds exactly the expired matchers in id order |
| Gateways.Gateway.RemoveExpiredMatchers | VAST/VASTMatcher.cpp:1494-1531 | working the list off while the registry changes gives the registry of the sweep function |
| RelayRuns.TablesAgree | VAST/VASTRelay.cpp:1003-1096 | in every reachable state, the node's own coordinate changing or not, the index holds each known relay once in the order of its recorded distances, the contact is none or known, and the state is JOINED exactly when the current relay is the node itself or a known one; JOINING never occurs |
| RelayRuns.CleanupKeepsNearest | VAST/VASTRelay.cpp:1123-1159 | the reverse walk stays inside the index, exactly `limit` relays are left, the current one among them, and none removed is nearer than one kept, the current one aside |
| RelayRuns.WalkStaysInside | VAST/VASTRelay.cpp:1133-1150 | the walk from the back finds as many surplus relays as it needs before it runs off the front |
| RelayRuns.RemoveIs | VAST/VASTRelay.cpp:1051-1096 | removal takes the relay out of both tables and changes the join state only if it was the current one |
| RelayRuns.ContactIsKnown | VAST/VASTRelay.cpp:945-998 | the next contact is a known relay, and there is none only if none is known |
| RelayRuns.StepKeepsInv | VAST/VASTRelay.cpp:771-853 | every message, failed send, clean-up and timer step keeps the tables in agreement |
| RelayOutcomes.AddRecords | VAST/VASTRelay.cpp:1004-1047 | a learnt relay is recorded with the present time and stands in the index, once, under its distance from this node; nothing else changes |
| RelayOutcomes.PlacedBehindEquals | VAST/VASTRelay.cpp:1046 | an index entry goes in front of the first farther one, behind its equals |
| RelayOutcomes.IndexIsMeasured | VAST/VASTRelay.cpp:1004-1159 | over every run in which no position changes, every index entry is the distance between its relay's recorded position and this node |
| RelayOutcomes.CleanupDropsFarthest | VAST/VASTRelay.cpp:1123-1159 | there the clean-up drops no relay nearer to this node than one it keeps, the current one aside |
| RelayOutcomes.StaleAfterMoveIff | VAST/VASTRelay.cpp:1003-1047 | a relay's new position leaves the index right if and only if its distance is the old one |
| RelayOutcomes.GoesRound | VAST/VASTRelay.cpp:945-998 | successive calls contact the relays one after the other in index order, and after as many as there are relays the contact is the old one |
| RelayOutcomes.EachIsContactedOnce | VAST/VASTRelay.cpp:945-998 | as many calls as there are relays contact each known relay exactly once, from the nearest on when there was no contact |
| RelayOutcomes.NextIsTried | VAST/VASTRelay.cpp:771-800 | trying the next relay forgets it if and only if it cannot be sent to, and loses the current relay only if it is that one |
| RelayOutcomes.AnswerJoinsIff | VAST/VASTRelay.cpp:533-560 | an answer joins a node if and only if it had not joined and is to be a relay or is accepted by a known one |
| RelayOutcomes.PingOutcome | VAST/VASTRelay.cpp:696-770 | a due ping learns the entry points if no relay is known and forgets exactly the relays that could not be sent to |
| RelayOutcomes.AdvanceOutcome | VAST/VASTRelay.cpp:771-853 | a tick joins a node to itself if and only if it is absent and knows no relay, and starts querying if and only if it is absent, knows one and has its place |
| RelayOutcomes.FoundOutcome | VAST/VASTRelay.cpp:435-531 | the answer to its query makes a node learn of that relay, and of itself if it is to be one, before it tries the next |
| RelaySearch.ClosestIsNearest | VAST/VASTRelay.cpp:914-941 | the relay found is the nearest of the node itself and all it knows, ties going to the lower id |
| RelaySearch.ClosestOfTwo | VAST/VASTRelay.cpp:914-941 | of itself and one known relay, a node finds that relay if and only if it is nearer, or has the lower id and is farther by less than a millionth |
| RelaySearch.RouteEnds | VAST/VASTRelay.cpp:1101-1120 | the retry loop ends after at most as many failed sends as there are known relays |
| RelaySearch.RouteLosesOnlyLost | VAST/VASTRelay.cpp:377-433 | no relay that can be reached is forgotten by the retries |
| RelaySearch.RouteIsNearestReachable | VAST/VASTRelay.cpp:377-433 | a query goes to the nearest reachable relay, or is answered here, and exactly the nearer ones have been forgotten |
| RelaySearch.NoQueryCycles | VAST/VASTRelay.cpp:914-941 | every forward goes strictly nearer in (distance, id), whatever each relay knew, so none is met twice |
| RelaySearch.QueriesEnd | VAST/VASTRelay.cpp:377-433 | a query is forwarded fewer times than there are relays |
| RelaySearch.QueriesCycleIff | VAST/VASTRelay.cpp:926-937 | a query can go round in a circle if and only if some relay with a lower id is farther off by less than EQUAL_DISTANCE |
| RelayHandlers.RelayHandler.AddRelay | VAST/VASTRelay.cpp:1004-1047 | a relay is recorded under its present distance and its old index entry goes |
| RelayHandlers.RelayHandler.RemoveRelay | VAST/VASTRelay.cpp:1051-1096 | the relay leaves both tables, the contact and, if it was current, the join state |
| RelayHandlers.RelayHandler.SetJoined | VAST/VASTRelay.cpp:1244-1274 | joining succeeds with oneself or a known relay, and with nobody else |
| RelayHandlers.RelayHandler.NextRelay | VAST/VASTRelay.cpp:945-998 | the contact moves to the next relay in distance order, going round |
| RelayHandlers.RelayHandler.ClosestRelay | VAST/VASTRelay.cpp:914-941 | the scan of the index finds what the search function says |
| RelayHandlers.RelayHandler.HandleQuery | VAST/VASTRelay.cpp:377-433 | the retry loop ends for all distances and computes the route |
| RelayHandlers.RelayHandler.CleanupRelays | VAST/VASTRelay.cpp:1123-1159 | the in-place clean-up computes the cleaned tables |
| RelayHandlers.RelayHandler.HandleJoinReply | VAST/VASTRelay.cpp:533-560 | an accepted reply joins its sender, any other tries the next relay |
| RelayHandlers.RelayHandler.PostHandling | VAST/VASTRelay.cpp:696-860 | one tick: pings, the join state machine, clean-up |
| VonRuns.TablesAgree | VAST/VONPeer.cpp:816-907 | between a first join and a leave the five tables describe one node set, the list names each once with the peer itself first, and every site is where the node table has it |
| VonRuns.EnclosingAgreesIff | VAST/VONPeer.cpp:393-440 | VON_EN leaves the tables in agreement if and only if its sender is known |
| VonRuns.RejoinAgreesIff | VAST/VONPeer.cpp:60-115 | leaving and joining again leaves the tables in agreement if and only if the peer was alone and comes back to the same place |
| VonRuns.ContactNewKeepsInv | VAST/VONPeer.cpp:571-633 | after the trial insertions of new neighbours the diagram holds the neighbours' sites again and no other |
| VonRuns.RemoveNonOverlappedIs | VAST/VONPeer.cpp:764-812 | exactly the irrelevant neighbours past their drop time go, from all tables; only relevant ones are put off; the peer itself stays |
| VonRuns.ClosestIsNearest | VAST/VSOPeer.cpp:1109-1137 | the result is a neighbour other than the peer with none nearer, and 0 exactly when the peer is alone |
| VonRuns.UpdatesKeepLatest | VAST/VONPeer.cpp:878-907 | any updates in any order leave each neighbour, in table and diagram, with the last of its latest records |
| VonRuns.ArrivalOrderDoesNotMatter | VAST/VONPeer.cpp:459-507 | with distinct times every order of arrival ends in the same position |
| VonRuns.HearingKeepsLatest | VAST/VONPeer.cpp:509-532 | the batch of nodes heard of keeps the latest record of each too |
| VonRuns.TimesNeverFall | VAST/VONPeer.cpp:878-907 | over every run a neighbour's recorded time never goes back between its insertion and its deletion |
| VonRuns.ClosestIsFirst | VAST/VSOPeer.cpp:1109-1137 | of equally near neighbours the one first in the list is found |
| VonOutcomes.RelevantBecomePotential | VAST/VONPeer.cpp:571-633 | of a batch heard of, exactly the nodes that are not neighbours and are relevant, in the diagram of the neighbours' new positions and everyone heard of, become potential neighbours |
| VonOutcomes.ByeForgets | VAST/VONPeer.cpp:841-873 | a departed neighbour is in none of the five tables and nobody else is taken out |
| VonOutcomes.StepLeaves | VAST/VONPeer.cpp:369-633 | over every step: exactly who is a neighbour afterwards, each with the later of the record held and the one reported, what it is known to know, its drop time, and whether it is marked inserted, updated or deleted |
| VonOutcomes.StepHears | VAST/VONPeer.cpp:509-569 | the batch heard of grows by VON_NODE alone and lasts until the next tick, and a potential neighbour goes when it answers |
| VonOutcomes.HearingIsNews | VAST/VONPeer.cpp:509-532 | a node not heard of before is heard of if and only if a record of it comes, and then with the last of its latest records |
| VonOutcomes.OrderOfArrival | VAST/VONPeer.cpp:816-873 | the neighbour list keeps those who stay in order and puts a new one at the end |
| VonOutcomes.DroppedIff | VAST/VONPeer.cpp:764-812 | over every run a clean-up drops a neighbour if and only if it is not the peer, is not relevant, and its grace since the last clean-up that found it relevant, if any did, is over |
| VonPeers.VonPeer.InsertNode | VAST/VONPeer.cpp:816-838 | an unknown node enters all tables, a known one changes nothing |
| VonPeers.VonPeer.DeleteNode | VAST/VONPeer.cpp:841-873 | a known node leaves all tables |
| VonPeers.VonPeer.UpdateNode | VAST/VONPeer.cpp:877-907 | a report is refused only if the node is unknown or the report earlier |
| VonPeers.VonPeer.HandleHello | VAST/VONPeer.cpp:369-440 | the greeter is inserted or updated and its list recorded |
| VonPeers.VonPeer.HandleNodes | VAST/VONPeer.cpp:509-532 | of each node heard of the later record is kept |
| VonPeers.VonPeer.ContactNewNeighbors | VAST/VONPeer.cpp:571-633 | the loops of trial insertion, greeting and removal compute the batch function |
| VonPeers.VonPeer.RemoveNonOverlapped | VAST/VONPeer.cpp:764-812 | the in-place clean-up removes what the clean-up function says and counts it |
| VonPeers.VonPeer.GetClosestEnclosing | VAST/VSOPeer.cpp:1109-1137 | the scan of the neighbour list finds what the search function says |
| Scheduler.RoundIsPaidFor | VASTnet/net_emu_bl.cpp:215-290 | a round never charges more than the upload cap, and what it charges is exactly what the accounts grow by and the debts shrink by |
| Scheduler.RoundEndsIff | VASTnet/net_emu_bl.cpp:215-290 | the wrapping loop ends if and only if every queued destination is connected, or the connected ones use the bandwidth up |
| SchedulerRuns.AccountsBalance | VASTnet/net_emu_bl.cpp:225-275 | in every reachable state the bytes charged to a destination are those delivered plus `_sendspace`, `_sendspace` is below the first message's size, and delivery is first-in-first-out |
| SchedulerRuns.LeftOverIff | VASTnet/net_emu_bl.cpp:53-83 | a step leaves a queue without a connection if and only if it cuts a queued destination from this side |
| SchedulerRuns.RoundRunsIff | VASTnet/net_emu_bl.cpp:169-307 | a call divides by no zero and ends if and only if nothing is queued, or some connection exists and either its share is nothing or the round can end |
| SchedulerRuns.RoundsEnd | VASTnet/net_emu_bl.cpp:169-307 | as long as no queue is left over a round can always be run and ends |
| SchedulerRuns.NoCutsNothingLeftOver | VASTnet/net_emu_bl.cpp:53-83 | over every run without such a cut no queue is left over |
| SchedulerRuns.LeftOverSpins | VASTnet/net_emu_bl.cpp:215-290 | with a queue left over and bandwidth to spare no round ends |
| SchedulerOutcomes.ShareIs | VASTnet/net_emu_bl.cpp:181-198 | the share is the cap divided by the fewer of connections and queued destinations, rounded down, less whole multiples of 4 GiB |
| SchedulerOutcomes.VisitPays | VASTnet/net_emu_bl.cpp:230-285 | a visit pays the least of what the first message lacks, the share and what is left of the cap, delivers the message if and only if that is all it lacks, and stops the round when less than 32 bytes are left |
| SchedulerOutcomes.VisitsInTurn | VASTnet/net_emu_bl.cpp:215-290 | destinations are visited one after the other, and again from the first |
| SchedulerOutcomes.TakesItsPlace | common/net_msg.h:72-93 | a message goes behind all that are not later, in front of the later ones at the end, and never in front of the first |
| SchedulerOutcomes.StepLeaves | VASTnet/net_emu_bl.cpp:53-156 | over every step: exactly who is connected, whose queue takes a message, whose is thrown away with its account, and that a round only lets messages of connected destinations out from the front |
| BandwidthSenders.BandwidthSender.Send | VASTnet/net_emu_bl.cpp:85-156 | a message to a connected, known receiver joins its queue in time order behind the first |
| BandwidthSenders.BandwidthSender.AppendTo | common/net_msg.h:72-93 | the insertion loop puts a message where the queue order says |
| BandwidthSenders.BandwidthSender.Disconnect | VASTnet/net_emu_bl.cpp:53-83 | a cut made here keeps the queue; only a disconnect that finds no connection clears it |
| BandwidthSenders.BandwidthSender.ServeOne | VASTnet/net_emu_bl.cpp:230-275 | one visit delivers the first message when the rest of it can be paid for, else pays the quota |
| BandwidthSenders.BandwidthSender.ClearQueue | VASTnet/net_emu_bl.cpp:169-307 | the in-place round ends, leaves the accounts of the round function and returns what it charged, at most the cap |
| Ordering.KthPacketCarriesK | VASTnet/net_udpNC_handler.cpp:36-77 | the k-th packet to a destination, keep-alives included, carries k modulo 256 whatever is sent to others |
| Ordering.GapIsSafeIff | VASTnet/net_udpnc_consumer.cpp:119-168 | a gap is accepted wherever the numbers stand if and only if it is at most ten |
| Ordering.GapsUpToTenLoseNothing | VASTnet/net_udpnc_consumer.cpp:119-168 | arrivals in sending order with gaps up to ten lose no nonempty packet, for any mix of senders |
| Ordering.EndToEnd | VASTnet/net_udpNC_handler.cpp:36-77 | what one node sends to another, nine in a row possibly lost, is handed on completely and in order |
| Ordering.ElevenApartIsLost | VASTnet/net_udpnc_consumer.h:10-11 | packets eleven apart can be lost, so ten is the largest bound |
| Ordering.HandedOnRise | VASTnet/net_udpnc_consumer.cpp:146-168 | without sync packets the numbers handed on for a sender rise strictly between resets |
| OrderingRuns.HandedIff | VASTnet/net_udpnc_consumer.cpp:119-168 | over every run a packet is handed on if and only if it is empty, names no sender, is the first handed on from its sender, or its number is above the last one handed on from it or wraps round |
| OrderingRuns.PoolIsClearedIff | VASTnet/net_udpnc_consumer.cpp:144-150 | the decoder's pool is cleared exactly when a nonempty packet numbered below 10 follows one of its sender numbered 240 or more |
| OrderingRuns.SyncStartsAgain | VASTnet/net_udpnc_consumer.cpp:123-168 | whatever was received before, an empty packet is handed on, and so are all later packets of its sender that skip no more than nine numbers, whatever others send |
| OrderingRuns.KeepaliveIff | VASTnet/net_udpNC_handler.cpp:36-46 | a keep-alive precedes a message if and only if the interval has passed since the start and since every keep-alive before |
| Ordering.LateIsRefusedIff | VASTnet/net_udpnc_consumer.cpp:144-160 | exactly which numbers the test takes for old ones, for every last number and every lateness up to 255 |
| Ordering.LateIsReplayedIff | VASTnet/net_udpnc_consumer.cpp:119-168 | after any steady arrivals, a packet up to 255 places late is refused if and only if it is of the present round and, once the numbers have reached 240, not one of its first ten; else it is handed on and the receiver falls back to it |
| Ordering.Sender.SendMessage | VASTnet/net_udpNC_handler.cpp:36-46 | a keep-alive precedes a message when the interval has passed, and both are counted |
| Ordering.Sender.SendHelper | VASTnet/net_udpNC_handler.cpp:48-84 | the counter of the destination goes on modulo 256 and the packet carries its old value |
| Ordering.Consumer.OrderInput | VASTnet/net_udpnc_consumer.cpp:119-168 | the in-place test keeps the latest numbers, hands the packet on or not and counts it, as the ordering function says |
| Ordering.Consumer.FilterInput | VASTnet/net_udpnc_consumer.cpp:79-117 | a packet whose first address is this host is ordered; one with another is only counted, by how it came; one with none changes nothing |
| PacketPool.FetchPicks | VASTnet/udpNC_decoder.cpp:90-176 | a packet is picked if and only if one at an even place lacks exactly one pooled id, and then the first such; the pool loses exactly its ids, and every pooled packet of it is yielded under its place |
| PacketPool.AlreadyIs | VASTnet/udpNC_decoder.cpp:114-126 | counted as decoded already are exactly the packets at even places before the picked one that lack nothing |
| PacketPool.PoolHolds | VASTnet/udpNC_decoder.cpp:28-176 | over every run the pool holds exactly the small plain packets taken in, under their ids, that were neither used by a fetch nor cleared since |
| PacketPool.OneIsMissing | VASTnet/udpNC_decoder.cpp:128-142 | a picked packet has exactly one place without a pooled packet, and all others are yielded |
| PacketPool.FetchAccounts | VASTnet/udpNC_decoder.cpp:100-160 | survivors, already decoded, undecodable and picked packets add up to the old queue |
| PacketPool.SurvivorsKeepOrder | VASTnet/udpNC_decoder.cpp:100-160 | the survivors are those at odd places before the picked one and all behind it, in their old order |
| PacketPool.FailureHalves | VASTnet/udpNC_decoder.cpp:114-160 | a call that picks nothing halves the queue |
| PacketPool.OddPlaceIsMissed | VASTnet/udpNC_decoder.cpp:114-160 | a decodable packet behind an undecodable one is not found |
| PacketPool.SearchIsFetch | VASTnet/udpNC_decoder.cpp:98-163 | erasing and counting up at once, as the loop does, examines exactly the even places of the original queue |
| PacketPool.Decoder.AddMessage | VASTnet/udpNC_decoder.cpp:28-76 | small plain packets go into the pool, coded ones into the queue, and a different packet under a pooled id is an error |
| PacketPool.Decoder.ClearPacketPool | VASTnet/udpNC_decoder.cpp:78-83 | pool and queue are emptied |
| PacketPool.Decoder.FetchFromPacketPool | VASTnet/udpNC_decoder.cpp:90-176 | the in-place search returns true exactly when it picked, with the packets and the missing place, and leaves pool, queue and counters as the fetch function says |
| CodedMessages.RoundTrip | VASTnet/udpncmessage.cpp:140-260 | a fresh object restores the very message written, takes exactly the bytes written, and is contentEquals to it |
| CodedMessages.ReadsBackInto | VASTnet/udpncmessage.cpp:191-260 | reading back adds the entries to those already there, whatever follows in the buffer |
| CodedMessages.RestoresIffBlank | VASTnet/udpncmessage.cpp:286-302 | an object used again restores a message if and only if its lists are empty |
| CodedMessages.AcceptedIsWritten | VASTnet/udpncmessage.cpp:191-260 | whatever bytes are accepted are the writing of a well-formed message |
| CodedMessages.SizeOfIsExactIff | VASTnet/udpncmessage.cpp:123-138 | sizeOf is the number of bytes written if and only if the count is 1, and too small for more |
| CodedMessages.HeaderRoundTrip | VASTnet/udpnc_packet_factory.h:15-28 | the bit-packed header reads back as written |
| CodedMessages.EntryRoundTrip | common/VASTTypes.h:775-805 | packet id, sender and address read back as written |
| CodedMessages.HeaderWords | VASTnet/udpnc_packet_factory.h:15-28 | the header is two little-endian words of bit fields in the declared order |
| CodedMessages.LowBytesFirst | VASTnet/udpncmessage.cpp:140-189 | a number's bytes are written low ones first |
| CodedMessages.MessageStands | VASTnet/udpncmessage.cpp:140-189 | at which place of the written bytes the checksum, each packet's id, sender and receiver, and the payload stand |
| CodedMessages.RefusedWhen | VASTnet/udpncmessage.cpp:191-260 | exactly which bytes are empty, foreign, too large or read, in terms of their marks, count and size fields |
| UdpncMessages.UncodedIsWellFormed | VASTnet/net_udpNC_handler.cpp:54-88 | the message a sender builds meets the codec's assumptions and its sizeOf is right |
| UdpncMessages.UdpncMessage.PutPacketId | VASTnet/udpncmessage.cpp:55-60 | the id joins the list and the 8-bit count follows when asked |
| UdpncMessages.UdpncMessage.Serialize | VASTnet/udpncmessage.cpp:140-189 | the caller's buffer holds the written message and is untouched behind it; lists of different lengths are an error |
| UdpncMessages.UdpncMessage.QuerySize | VASTnet/udpncmessage.cpp:140-144 | asked without a buffer, the size is that of what would be written if and only if the count is 1, and too small for more |
| UdpncMessages.UdpncMessage.Deserialize | VASTnet/udpncmessage.cpp:191-260 | the object becomes what the read outcome says, and the result is the bytes taken, 0 or -1 |
| Visibility.SecondRoundIsQuiet | VAST/VASTMatcher.cpp:1298-1359 | a second round with nothing moved reports no change |
| Visibility.ChangesAreReported | VAST/VASTMatcher.cpp:1298-1359 | who is in view after a round, in terms of ownership, layer, region and area, and that inserted, deleted and updated are exactly the changes |
| Visibility.RoundsReportMoves | VAST/VASTMatcher.cpp:1298-1359 | over two rounds with any moves, arrivals and departures in between, inserted, deleted and updated are exactly who came into view, went out of it, or changed its area in view |
| Visibility.Matcher.RefreshSubscriptionNeighbors | VAST/VASTMatcher.cpp:1298-1359 | the half-matrix loop, clearing each row as it goes, leaves every subscription as checking it against all others would: an owned one sees itself and all in its sight, an unowned one only itself, and exactly the changes since the last round are reported |
| Replicas.SplitIsAPartition | VAST/VASTMatcher.cpp:1882-1928 | each listed object is copied in full or updated, once for each mention; full are exactly the unrecorded ones, each once, and all are recorded afterwards |
| Replicas.CopyIsFaithfulIff | VAST/VASTMatcher.cpp:1882-1928 | for objects never copied before, the replica record stays true if and only if nothing new is recorded or the full part goes to a known neighbour, all of it on record, fewer than 256 |
| Replicas.GettingThroughIsFaithful | VAST/VASTMatcher.cpp:1248-1294 | under that guard the record stays true whatever was copied before |
| Replicas.UnknownTargetIsRecorded | VAST/VASTMatcher.cpp:1882-1928 | a copy to an unknown matcher is recorded, and the next one is an update without a full copy before it |
| Replicas.FullBeforeUpdate | VAST/VASTMatcher.cpp:1882-1928 | over every run whose recorded copies get through, an update reaches a neighbour only after a full copy since the record was last cleared, and after it within one call |
| Replicas.RelayChangeForcesFullCopy | VAST/VASTMatcher.cpp:1222-1240 | a new relay learnt by the owner makes the next copy that gets through to any neighbour send the object in full |
| ReplicaOutcomes.UpdateIsTaken | VAST/VASTMatcher.cpp:1194-1244 | an update not earlier leaves the new centre, the radius and height that are given, its time and its relay, and clears the record exactly when an owned object has a new relay; nothing else changes |
| ReplicaOutcomes.HeededIff | VAST/VASTMatcher.cpp:1194-1210 | over any updates of an object one is heeded if and only if it has no time or none before it was later |
| ReplicaOutcomes.LastHeededCounts | VAST/VASTMatcher.cpp:1194-1220 | the object is where the last update heeded says |
| ReplicaOutcomes.TransferIs | VAST/VASTMatcher.cpp:1248-1294 | a transfer sends the listed objects on record, in order, up to their number modulo 256, so all of them if and only if they are fewer than 256 |
| ReplicaOutcomes.UpdateCopySends | VAST/VASTMatcher.cpp:1882-1928 | an update that gets through sends each object once for each mention, in full exactly the first time if it was not recorded, and records exactly the listed objects |
| ReplicaOutcomes.FullCopyRecordsNothing | VAST/VASTMatcher.cpp:1882-1928 | a copy that is no update sends every object in full and records nothing |
| Replicas.ReplicaMatcher.UpdateSubscription | VAST/VASTMatcher.cpp:1194-1244 | an earlier update is refused; a new relay learnt by the owner clears the replica record |
| Replicas.ReplicaMatcher.TransferSubscription | VAST/VASTMatcher.cpp:1248-1294 | only known objects go, to a known neighbour, as many as the 8-bit count says |
| Replicas.ReplicaMatcher.CopyObject | VAST/VASTMatcher.cpp:1882-1928 | the in-place split records, copies and updates as the copy function says |

## Left out

- MessageLayer.VastNet.ProcessInput: stops and reports `overrun` where a frame announces more bytes than its datagram has, because the source's unsigned counter then wraps and it reads past the datagram.
- UdpncMessages.UdpncMessage.Deserialize: requires the announced lists and payload to lie inside the buffer, because the source reads past its end without a check; the value-level outcome says exactly when.
- BandwidthSenders.BandwidthSender.ClearQueue: requires a connection to share the cap among and a round that can end, because the source divides by zero or loops for ever otherwise; `RoundRunsIff` says exactly when.
- Sockets, threads, event loops and timers: arrivals, failed sends and expired timers are inputs of the steps.
- Voronoi geometry: only the set of sites and a relevance set; insertion order inside the diagram, radii and floating-point coordinates are not modelled, distances are reals.
- VONPeer::isOverlapped, the lists of missing enclosing neighbours and all VON messages sent: they do not touch the tables.
- The `_obj_requested` times of requestObjects (which objects are asked for is modelled), refreshObjects, and the candidate and promotion messages of VSOPeer: load balancing, not ownership.
- The policy's decision whether an update carries ownership: an input of `UpdateSharedObject`.
- Connection tables, address maps and host look-ups of the network layer, handshakes and id assignment.
- The counter that resolves JOIN for world 0 to a fresh id: the resolved id is the input.
- Ping tables, Vivaldi coordinates, the forwarding of a RELAY_QUERY reply to its requester (a failed send is a step of its own) and the random choice of relays to list.
- Network-coding arithmetic and the checksum algorithm: the checksum is a stored number.
- Statistics, logging, capture and replay, simulators and the demo programs.
