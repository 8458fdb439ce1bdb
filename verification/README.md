# A verified model of the peer-to-peer core

The crate `mdcore` connects a user's devices directly: over WebSockets, over a hole-punched UDP
path, or over a WebRTC data channel. This project models its stateful parts in Dafny 4.11 and
proves what they guarantee, over every input, every run and every interleaving. Where the code
does not keep a promise for all inputs, the exact condition under which it does is proved, together
with an input or a run that breaks it.

`dafny verify dfyconfig.toml` checks everything.

## What is modelled

* **Chunked datagrams** (`Chunking`, `PunchLinks`, `ChunkRuns`, `Redelivery`, `LinkRuns`, `WireRuns`,
  `PunchDrivers`). A frame is
  cut into numbered chunks; the receiver keeps a bounded table of partial messages with
  first-write-wins slots, a counter, and a rule that drops the whole table when a new id meets a full
  one. `PunchLinks` and `PunchDrivers` follow the code step by step; `ChunkRuns`, `Redelivery`, `LinkRuns` and
  `WireRuns` reason about traces of datagrams.
* **The punch handshake** (`Handshake`, `HandshakeProtocol`). The two timed loops of one endpoint, and
  the protocol of two endpoints over a network that loses, repeats, delays and reorders.
* **The live registry** (`LiveTables`, `Registry`, `EventConservation`, `EventOrder`, `SlotOwnership`,
  `LinkLiveness`, `Takeover`, `ConnIds`, `Heartbeat`,
  `BeatSteps`). `ws_conns` and `p2p_conns` shared by the WebSocket, punch and WebRTC drivers,
  the ping and goodbye handlers and the heartbeat. Each region under one lock is one step; an emission
  that is still to come is part of a thread's program counter.
* **The connection ladder** (`Ladder`, `Waiters`). The rungs one ladder climbs, and the matching of
  answers to offers between many ladders and the threads that deliver answers.
* **STUN** (`Stun`). The attribute scan of a Binding response against a specification that reads the
  message as an attribute list (RFC 5389, sections 6, 15, 15.1 and 15.2), with an encoder it inverts.
* **Clipboard gossip** (`Clipboard`, `ClipboardRaces`, `ClipboardEchoes`), as a system of many devices: once with each
  operation as one step, and once with every operation taken apart into its atomic regions.
* **LAN discovery** (`Discovery`), as a system of many devices.

## What the proofs found

* A frame of more than 65535 chunks is sent with a chunk count truncated to 16 bits. Unless the count
  is a multiple of 65536 the receiver hands out a proper prefix of the frame as if it were whole
  (`OversizeIsTruncated`); `NoMixingExactly` and `FifoLinkIsIdentity` give the exact conditions.
* A WebSocket peer that sends a second Hello with another node id makes the driver forget its first
  slot (`SecondHelloLeaks`); ownership holds exactly as long as this does not happen
  (`OwnershipStepExactly`). The leaked slot stays, with nobody behind it, until a WebRTC channel of that
  node opens over it, and nothing else removes or adopts it (`OrphanStepExactly`).
* A link that takes over the slot of another may not survive it, although the comment at
  src/transport/punch.rs:204 says the newer link wins: the replaced driver drops the live entry the new
  one depends on. A step leaves established links without their live entry exactly if it removes the
  entry under one (`BackedStepExactly`). If the new link is established before the replaced driver has
  dropped the peer, this is bound to happen (`TakeoverIsUndercut`), and the new link then falls unless
  somebody marks the peer live again in time (`UndercutLinkFalls`); a link that is not undercut stays
  (`LinkSurvives`). `NewerLinkMayFall` and `NewerLinkMaySurvive` give a run of each kind.
* Events are conserved but not ordered: the last event emitted may say "disconnected" while the peer
  is live (`LastEventMayBeStale`). A step disturbs the order exactly if it changes a peer's entry while
  an earlier change is still to be announced (`OrderlyStepExactly`); without such steps the last event
  is true whenever nothing is pending (`LastEventIsTrue`), and after any such step merely announcing what
  is pending can leave it false (`OvertakingExactly`).
* A live link is not an agreement: one side may be live while the other has given up
  (`LiveIsNotAgreed`). Each side establishes the link exactly if a pong reaches it while it is
  confirming (`ConfirmedExactly`, `BothLiveExactly`).
* A message whose chunks are repeated may be handed out again: `m` times for some order of arrival
  exactly if each of its chunks arrives at least `m` times (`RedeliveryExactly`).
* The driver's ids come round after 2^32 frames. Up to then nothing but queued frames comes out of a
  link, whatever it loses, repeats or reorders (`OnlyFramesComeOut`); beyond, two frames of the same
  number of chunks can be mixed chunk by chunk (`RepeatedIdsMix`, exactly `HandOutsExactly`).
* The STUN scan checks attribute values against the datagram and not against the declared length
  (`LengthDecidesExactly`), and neither the magic cookie nor the transaction id (`CookieAndIdIgnored`).
* The clipboard does not echo as long as its operations are atomic (`GossipDoesNotEcho`), but in the
  code they are not. In a fresh system a device can broadcast something although nobody ever copies
  anything if and only if it has a clipboard and some device reads another text than it does
  (`EchoFromNothingExactly`); if both hold some text it can do so twice (`FreshSystemsCanEcho`), and
  one copy by another user can be echoed twice as well (`PushesCanEcho`). Region by region, which steps
  make a device owe more broadcasts is decided, for given texts, by `RaisesExactly`, and whatever the
  texts, by a guard on where the watcher is and what is half written (`DisturbsExactly`,
  `AccountedStepExactly`). Only a step that leaves a device owing more than its user copied leads to an
  echo (`TearsAreEchoes`), and runs without such steps, and so runs in which no step meets that guard,
  keep the bound (`UntornGossipDoesNotEcho`, `UndisturbedGossipDoesNotEcho`).

## Model

| member | source | states |
|---|---|---|
| Chunking.ChunkRoundTrip | src/transport/punch.rs:54-84 | the receiver reads back exactly the header and payload sent, and refuses precisely the chunks whose index is not below their count |
| Chunking.DecodeExactly | src/transport/punch.rs:75-84 | a datagram is taken as a chunk if and only if it is the encoding of one whose index is below its count |
| Chunking.ChunkLayout | src/transport/punch.rs:54-61 | byte for byte: the tag "mdck", then id, count and index in network byte order, then the payload |
| Chunking.FeedKeepsInv | src/transport/punch.rs:75-111 | for any datagram whatever: at most 256 partial messages, one slot a chunk, the counter counts the filled slots and at least one is missing; neither `?` can fire, and a message comes out exactly when the last missing slot is filled |
| Chunking.FeedFrame | src/transport/punch.rs:87-102 | feeding a chunk leaves every other message untouched unless it sheds |
| Chunking.ShedExactly | src/transport/punch.rs:87-92 | a feed drops the other messages if and only if a new id meets 256 pending ones |
| Chunking.FeedKnown | src/transport/punch.rs:93-109 | a chunk whose count disagrees or whose slot is taken changes nothing; another fills its own slot, and the last one hands out all slots in order and removes the entry |
| Chunking.FeedNew | src/transport/punch.rs:89-109 | the only chunk of a message is handed out at once, the first of several opens an entry with this chunk alone |
| PunchLinks.PunchLink.ReasmFeed | src/transport/punch.rs:75-111 | the in-place reassembler changes its table and hands out messages exactly as the value specification says, and keeps the invariant |
| PunchLinks.PunchLink.Assemble | src/transport/punch.rs:104-108 | the concatenation loop yields all slots in index order, or nothing if one is empty |
| PunchLinks.PunchLink.SendChunked | src/transport/punch.rs:46-64 | sends the chunks of the frame in order to the peer; stops at the first refused datagram and says so |
| PunchLinks.PunchLink.Flush | src/transport/punch.rs:226-239 | sends the whole queue under consecutive wrapping ids, or exactly the prefix the socket accepted |
| PunchLinks.PunchLink.OnDatagram | src/transport/punch.rs:245-264 | probes, and nothing else, are answered, to where they came from; probes, pongs and chunks that complete a frame, and nothing else, refresh the live entry and move the peer address; everything but probes and pongs goes to the reassembler |
| PunchDrivers.RunDriver | src/transport/punch.rs:223-277 | it stops exactly when the link is no longer wanted or the socket refuses a datagram; keepalives aside, the wire is exactly the chunks of the queued frames in order, up to the refused one, those of each turn addressed to where the latest sign of life came from; a probe goes out for each keepalive due and a pong for each probe heard; the frames dispatched are what the received datagrams make, and the live entry is refreshed once for each probe, pong and frame |
| PunchDrivers.RunLink | src/transport/punch.rs:223-277 | two drivers end to end over a link that loses, repeats and reorders: an unhindered driver makes all its turns; nothing but queued frames is dispatched, if they fit and no id has come round twice; what is dispatched is an initial part of them if the link only stops delivering; and once all has arrived it is exactly the queue if and only if all of it fits |
| WireRuns.HandOutsExactly | src/transport/punch.rs:46-111 | what a receiver can hand out of a wire of fitting frames is exactly what lies on it chunk by chunk under one id |
| WireRuns.OnlyFramesComeOut | src/transport/punch.rs:229-232 | for up to 2^32 frames under wrapping ids, only frames come out |
| WireRuns.RepeatedIdsMix | src/transport/punch.rs:229-232 | of two frames of equal chunk count that share an id, any mixture by chunks can come out |
| ChunkRuns.JoinInvertsSplit | src/transport/punch.rs:46-50 | concatenating all the slices of a frame, empty or not, gives the frame back |
| ChunkRuns.AnyOrderRoundTrip | src/transport/punch.rs:75-111 | any arrival order, any duplicates, any other traffic, no shedding: a chunk of a message hands something out exactly when it is the last missing one, then the frame itself, and no entry stays |
| ChunkRuns.CompleteUnderCap | src/transport/punch.rs:87-108 | if no new id meets a full table, every message all of whose chunks arrived has been handed out |
| ChunkRuns.NoMixing | src/transport/punch.rs:46-111 | loss, duplication, reordering, interleaving and shedding never make anything but sent frames come out |
| ChunkRuns.NoMixingExactly | src/transport/punch.rs:46-111 | a set of messages can never be mixed up if and only if each has at most 65535 chunks or a multiple of 65536 |
| ChunkRuns.OversizeIsTruncated | src/transport/punch.rs:52-59 | every other over-long frame is handed out cut short |
| ChunkRuns.InOrder | src/transport/punch.rs:46-111 | sent alone and in order, a frame within the limit comes out with its last chunk and leaves the table empty |
| ChunkRuns.Conservation | src/transport/punch.rs:98-109 | each hand-out of a message uses up one arrival of each of its chunks, shedding or not, for any traffic |
| Redelivery.ScarcestChunkBounds | src/transport/punch.rs:98-109 | a message is handed out no more often than its scarcest chunk arrives |
| Redelivery.DuplicateIsRedelivered | src/transport/punch.rs:98-109 | any frame within the limit sent m times over is handed out m times |
| Redelivery.RedeliveryExactly | src/transport/punch.rs:98-109 | for given numbers of arrivals of its chunks, a message can be handed out m times if and only if each chunk arrives at least m times |
| LinkRuns.ReactIsFeed | src/transport/punch.rs:247-254 | intercepting probes and pongs does not change what the reassembler sees |
| LinkRuns.FifoLinkIsIdentity | src/transport/punch.rs:223-264 | over a lossless ordered link, with keepalives anywhere and ids wrapping, the frames dispatched are the frames queued if and only if all of them fit the limit; then the table ends empty |
| Handshake.HolePunch | src/nat/punch.rs:14-43 | the probe loop sends and returns what `PunchRun` says, which the next two rows characterise |
| Handshake.FirstProbeWins | src/nat/punch.rs:27-40 | it returns the source of the first datagram that starts with the magic, having probed all candidates in each due turn up to then, and acknowledges it there |
| Handshake.NoProbeNoPath | src/nat/punch.rs:27-43 | without such a datagram it gives up, having only probed all candidates in each due turn |
| Handshake.ConfirmRoundTrip | src/transport/punch.rs:172-198 | the ping loop follows the latest ping's source, answers pings, and returns the source of the first pong |
| Handshake.ConfirmationNeedsPong | src/transport/punch.rs:172-198 | it succeeds exactly if a pong is heard before the deadline, and sends pongs only to addresses it heard a ping from |
| Handshake.ConfirmSays | src/transport/punch.rs:179-195 | all it sends: a ping whenever one is due, to where the latest ping came from, and a pong back for each ping, up to the first pong |
| HandshakeProtocol.CausalStep | src/transport/punch.rs:166-208 | every pong ever sent answers a ping received before, and an endpoint goes live only after hearing a pong: kept by every step |
| HandshakeProtocol.ConfirmedMeansRoundTrip | src/transport/punch.rs:166-208 | in every run a live endpoint's ping reached the peer, after which the peer's pong came back |
| HandshakeProtocol.OneWayPathIsNeverLive | src/transport/punch.rs:200-208 | if one direction delivers nothing, neither side goes live |
| HandshakeProtocol.ConfirmedExactly | src/transport/punch.rs:172-208 | in every run a side has established the link if and only if a pong was delivered to it while it was confirming, and it is closed if and only if it was closed since |
| HandshakeProtocol.BothLiveExactly | src/transport/punch.rs:172-208 | both sides are live if and only if each got a pong while confirming and neither has closed |
| HandshakeProtocol.HearingExactly | src/transport/punch.rs:185-196 | what a datagram does to the endpoint that hears it, loop by loop: whom it answers, whom it takes for its peer, and when it goes on |
| HandshakeProtocol.CanStillConfirm | src/transport/punch.rs:172-208 | a confirming endpoint can always go live by one ping and its pong as long as the other is confirming or live |
| HandshakeProtocol.LiveIsNotAgreed | src/transport/punch.rs:172-198 | one side may go live while the other gives up |
| LiveTables.LiveRegistry.MarkLive | src/transport/mod.rs:68-88 | refreshing keeps the kind, and the known address unless a new one comes; no other entry changes; the first sight and only it emits PeerConnected |
| LiveTables.LiveRegistry.TouchLive | src/transport/mod.rs:91-95 | creates no link and changes no other; the link touched keeps its kind and address and no heartbeat within the next 15 s removes it |
| LiveTables.LiveRegistry.DropLive | src/transport/mod.rs:98-103 | removes the link and emits PeerDisconnected exactly if it was there |
| LiveTables.LiveRegistry.BestProto | src/transport/mod.rs:158-166 | a registered slot always wins, otherwise the directed setting |
| LiveTables.LiveRegistry.OnPing | src/features/p2p_ping.rs:21-34 | ping and pong both refresh the sender; only a ping is answered, and an anonymous one does nothing |
| LiveTables.LiveRegistry.HeartbeatTick | src/engine.rs:273-290 | one undisturbed tick leaves exactly the WebSocket links and those seen in the last 15 s, pings exactly the latter, and reports exactly the others |
| LiveTables.SweepIsOrderless | src/engine.rs:280-289 | the outcome does not depend on the order of the snapshot |
| LiveTables.TickSplitsTable | src/engine.rs:280-289 | links that are not WebSocket links are dropped once if last seen more than 15 s ago and pinged once otherwise; WebSocket links are left alone |
| Heartbeat.FreshLinkSurvives | src/engine.rs:265-292 | a link refreshed at least every 15 s is present after every step of every timeline, with its kind unchanged |
| Heartbeat.SilentLinkIsEvicted | src/engine.rs:265-292 | a connectionless link last refreshed at t is evicted by a tick between t+16 and t+20, is there before it and stays gone |
| Heartbeat.WsLinkStays | src/engine.rs:281-283 | a WebSocket link is there after every step of every timeline, refreshed or not |
| BeatSteps.UndisturbedBeat | src/engine.rs:265-292 | the heartbeat that looks at each link in a step of its own, if undisturbed, leaves the same table as the tick in one step |
| ConnIds.IdsDistinctExactly | src/transport/ws.rs:20 | ids of the three wrapping counters are pairwise distinct if and only if no counter has reached another's range; the first 999,999 WebSocket and 1,000,000 punch ids are safe |
| EventConservation.AdvanceConserves | src/transport/mod.rs:68-103 | each locked region and each emission moves the count of events exactly as it moves the table |
| EventConservation.EventsAreConserved | src/transport/mod.rs:68-103 | in every reachable state, connections minus disconnections, emitted or pending, is 1 for a live peer and 0 otherwise |
| EventConservation.QuiescentSinkAgrees | src/transport/mod.rs:68-103 | when no emission is pending the events add up to the live table |
| EventConservation.KindIsFixed | src/transport/mod.rs:63-83 | no step of any thread changes the kind of a link that stays |
| EventConservation.EntryStep | src/transport/mod.rs:63-95 | what a step does to the entry of a peer: only packets of its punched link and marking refresh it, and what kind and address it then has |
| EventOrder.OrderlyStepExactly | src/transport/mod.rs:85-102 | from a state in which the newest word on a peer agrees with the table, a step keeps that if and only if it does not change the peer's entry while an earlier change is still to be announced |
| EventOrder.LastEventIsTrue | src/transport/mod.rs:85-102 | in runs without such steps, with nothing pending about a peer, the last event about it is a connection if and only if it is live |
| EventOrder.OvertakingExactly | src/transport/mod.rs:85-102 | after a step, announcing what is pending can end with a false last event if and only if the step changed the peer's entry before an earlier change was announced |
| EventOrder.LastEventMayBeStale | src/transport/mod.rs:85-87 | a reachable state in which the last event is a disconnection although the peer is live and nothing is pending |
| SlotOwnership.AdvanceSlots | src/transport/ws.rs:48-99 | a step leaves the slots alone, claims one for the acting driver or removes one of its own |
| SlotOwnership.OwnershipStepExactly | src/transport/ws.rs:53-64 | from a state where every slot has a working owner, a step keeps that if and only if it is not a driver claiming a second slot over one it still owns |
| SlotOwnership.SlotsAreOwned | src/transport/ws.rs:48-99 | with one Hello per connection every slot in every reachable state belongs to a driver that registered it and has not finished cleanup |
| SlotOwnership.NoDanglingSenders | src/transport/mod.rs:152-166 | while the chooser finds a slot its receiver exists, and once all drivers are done there is no slot |
| SlotOwnership.OnlyOwnersRelease | src/transport/rtc.rs:202-213 | a slot is removed only by its one owner and replaced only by an opening WebRTC channel |
| SlotOwnership.SecondHelloLeaks | src/transport/ws.rs:53-64 | two Hellos on one connection leave a slot behind with every thread finished |
| SlotOwnership.OrphanStepExactly | src/transport/rtc.rs:136-142 | a slot without an owner stays so through a step if and only if the step is not a WebRTC channel of that node opening |
| LinkLiveness.BackedStepExactly | src/transport/mod.rs:98-103 | from a state in which an established link finds its peer live, a step keeps that if and only if it does not remove the live entry under such a link |
| LinkLiveness.EstablishedLinksAreLive | src/transport/punch.rs:265-277 | in runs without such steps established links always find their peer live |
| LinkLiveness.LinkStepExactly | src/transport/rtc.rs:160-172 | a backed link is over after a step if and only if the link left by itself or a WebRTC channel opened over it |
| LinkLiveness.LinkSurvives | src/transport/rtc.rs:160-172 | a link that is not undercut lasts through every run in which neither happens |
| LinkLiveness.UndercutLinkFalls | src/transport/punch.rs:265-277 | a datagram link whose peer is gone and not marked again leaves its loop within its next steps |
| Takeover.TakeoverIsUndercut | src/transport/punch.rs:278-285 | if a link of a peer is established while a replaced driver has still to drop that peer, every run that gives that driver its steps removes the live entry under the new link |
| Takeover.NewerLinkMayFall | src/transport/punch.rs:265-285 | a run in which nothing fails and the new link is torn down by the replaced driver |
| Takeover.NewerLinkMaySurvive | src/transport/punch.rs:265-285 | a run in which the replaced driver drops the peer early and the new link survives |
| Ladder.WaitLive | src/engine.rs:953-962 | polls until the peer is seen, at most ms/100 + 1 times |
| Ladder.RunLadder | src/engine.rs:993-1095 | every rung whose condition holds is announced in order; the ladder ends at the rung in whose time the peer is first seen and otherwise fails after 1 + 21 + 31 + 81 + 121 + 121 polls, counting the rungs whose set-up worked |
| Ladder.LadderIsSound | src/engine.rs:993-1095 | stages rise strictly in rung order with at most one terminal event, and failure is reported exactly when no poll saw the peer |
| Waiters.DisciplinedStep | src/engine.rs:1046-1091 | waiter, taken sender, queued answer and received answer are one token per sid: kept by every step of every ladder and signal thread |
| Waiters.WaitersBelongToOffers | src/engine.rs:1046-1091 | each waiter belongs to the ladder that drew its sid, still in that rung's offer and wait |
| Waiters.AnswersReachTheirLadderOnce | src/engine.rs:864-890 | an answer reaches only the ladder that drew its sid, and each sid at most once |
| Waiters.FinishedLaddersLeaveNothing | src/engine.rs:1046-1091 | a ladder past the negotiating rungs leaves no waiter, whatever the others do; when all are, both maps are empty |
| Waiters.AnswerIsDelivered | src/engine.rs:864-890 | an answer that finds the waiter of a waiting ladder gets to that ladder in three steps |
| Waiters.NegotiationSucceeds | src/engine.rs:1046-1091 | a ladder that offers under a new sid and is answered in time has the answer and no waiter left, from any disciplined state |
| Stun.ParseMapped | src/nat/stun.rs:32-75 | on every byte string the answer is what the first IPv4 address attribute of a success response carries, masked bits flipped exactly where the cookie has ones, and nothing if there is none |
| Stun.SampleAnswer | src/nat/stun.rs:32-75 | the sample response of RFC 5769 section 2.2 gives 192.0.2.1, port 32853 |
| Bytes.XorBits | src/nat/stun.rs:54-62 | a bit of an exclusive-or is set if and only if the two bits differ |
| Stun.ReadInvertsEncode | src/nat/stun.rs:44-72 | an encoded attribute list is read back wherever it lies |
| Stun.ParseInvertsEncode | src/nat/stun.rs:32-75 | for any attribute list and any trailing bytes the parser answers with its first address |
| Stun.AddressRoundTrip | src/nat/stun.rs:53-70 | a plain or masked address among any other attributes comes back unchanged |
| Stun.LengthDecidesExactly | src/nat/stun.rs:40-51 | appended bytes never matter if and only if no address attribute straddles the end |
| Stun.WellFormedIgnoresTrailing | src/nat/stun.rs:40-72 | padded attributes that tile the declared length are read the same whatever follows |
| Stun.CookieAndIdIgnored | src/nat/stun.rs:32-42 | the answer does not depend on the magic cookie or the transaction id |
| Clipboard.ClipboardSync.WatcherTick | src/engine.rs:224-248 | broadcasts new non-empty text while sync is on, and then has nothing more to say |
| Clipboard.ClipboardSync.HandlePush | src/features/clipboard.rs:24-38 | without sync nothing changes; with it the text is there and the watcher has nothing to say, whatever it had before |
| Clipboard.ClipboardSync.PullFrom | src/engine.rs:641-664 | request, answer and pull together: this device ends up with the other's text and nothing to broadcast, the other unchanged, and no pull left waiting |
| Clipboard.ClipboardSync.HandleResponse | src/features/clipboard.rs:55-59 | hands the text to the waiting pull once |
| Clipboard.ClipboardSync.EnableSync | src/engine.rs:624-631 | sync is on, the clipboard untouched, and the watcher has nothing to say until the next copy |
| Clipboard.ClipboardSync.FinishPull | src/engine.rs:657-664 | the pulled text is there and the watcher has nothing to say |
| Clipboard.GossipDoesNotEcho | src/engine.rs:224-248 | in every run of N devices no device broadcasts more often than its own user copies |
| Clipboard.CopySpreads | src/engine.rs:224-248 | a new text copied at one device is broadcast once and is then at another that receives it, both quiet |
| Clipboard.OffIsSilent | src/engine.rs:633-635 | a device whose sync is switched off and stays off broadcasts nothing |
| ClipboardRaces.RaisesExactly | src/engine.rs:224-248 | for given texts, which regions of which operations make a device owe more broadcasts |
| ClipboardRaces.DisturbsExactly | src/engine.rs:224-248 | in a given situation a region can make its device owe more, for some texts, if and only if a guard on the watcher's place, the half-done writes and the switch holds |
| ClipboardRaces.AccountedStepExactly | src/engine.rs:224-248 | a region keeps every device accounted for in all systems in which it meets the same situation, whatever the texts, if and only if that guard does not hold |
| ClipboardRaces.SpentStepExactly | src/engine.rs:224-248 | for a device without a copy to spare, a step keeps the account if and only if it raises nothing |
| ClipboardRaces.UndisturbedGossipDoesNotEcho | src/features/clipboard.rs:24-38 | in every run in which no step meets the guard no device broadcasts more often than its own user copies |
| ClipboardRaces.OwedIsBroadcast | src/engine.rs:224-248 | what a device owes is exactly what it broadcasts when it just finishes what it has begun |
| ClipboardRaces.TearsAreEchoes | src/engine.rs:224-248 | a device can exceed its user's copies by just finishing if and only if the last step tore |
| ClipboardRaces.UntornGossipDoesNotEcho | src/engine.rs:224-248 | in every run without tearing steps no device broadcasts more often than its own user copies |
| ClipboardRaces.OffIsSilent | src/engine.rs:633-635 | the same region by region, if nothing was going on when it was switched off |
| ClipboardEchoes.TornPushEchoes | src/features/clipboard.rs:25-29 | a watcher that reads between the two writes of another device's push makes the device broadcast twice without any copy |
| ClipboardEchoes.TornTickEchoes | src/engine.rs:230-242 | so does a pull from a device with another text that falls between the watcher's look and its comparison |
| ClipboardEchoes.TornPullEchoes | src/engine.rs:662-663 | and a watcher's turn between the two writes of a pull broadcasts the pulled text |
| ClipboardEchoes.FreshSystemsCanEcho | src/engine.rs:624-631 | in a fresh system in which two devices hold different texts, either can broadcast twice although nobody has copied anything |
| ClipboardEchoes.PushesCanEcho | src/features/clipboard.rs:24-38 | after one copy by another user, and no other, a device that holds some text can broadcast twice |
| ClipboardEchoes.EchoFromNothingExactly | src/engine.rs:224-248 | in a fresh system a device can broadcast although nobody copies anything if and only if it has a clipboard and some device reads another text |
| Discovery.Discoverer.OnBeacon | src/discovery.rs:107-136 | records any other device, ignores itself, and answers announces only |
| Discovery.TrafficShrinks | src/discovery.rs:101-137 | every delivery or loss strictly lowers the cost of what is in flight |
| Discovery.TrafficDrains | src/discovery.rs:101-137 | without new announces the number of deliveries is bounded by that cost |
| Discovery.DiscoveryIsMutual | src/discovery.rs:91-137 | once a reply arrives both devices know each other, and nobody records itself |
| Discovery.AnnounceAndReply | src/discovery.rs:101-137 | an announce that arrives is answered, and once the reply has arrived both devices know each other and where to find them |
| Discovery.ScanDiscovers | src/discovery.rs:73-89 | a scan reaches each receiver, which is then discovered and discovers the scanner |

## Left out

- Sockets, HTTP, tungstenite, str0m, threads, channels and clocks: they appear as inputs of steps, datagram traces and queues.
- Encryption and JSON: frames are byte strings, control messages are datatype values; a malformed JSON message is not part of this model.
- src/registry.rs, src/platform.rs, src/capabilities.rs, src/services, src/wire, and the notification, call and app-list handlers: they would only add easy members.
- The driver loops of src/transport/ws.rs and src/transport/rtc.rs, and the life cycle of the punch driver, are steps of the transition system in `Registry` rather than loops, so that their locked regions can interleave; the ferrying loop of the punch driver itself is `RunDriver`.
- A control message that a driver thread handles itself is modelled as a handler thread of its own, which allows more interleavings than the code has.
- `struct Reasm` lives in its map by value, so the table is a field of type `map` that the methods reassign; sharing of slot vectors is not modelled because the source cannot share them.
- Datagrams longer than a receive buffer: truncation by the operating system is not modelled.
- HandshakeProtocol: what a live endpoint reassembles is not modelled; whether a datagram completes a frame, which moves the peer address, is left open in `Deliver`.
- Third parties on the network: in `HandshakeProtocol` only the two endpoints send, and in the WebSocket model a peer's node id is whatever it says.
- `stun_binding` and `gather_candidates`: request sending, timeouts and candidate lists.
- `best_proto`: trimming and case folding of the directed setting are reduced to whether it says TCP.
- `apply_registry_peers`, `remove_peer` and manual peers: removals from the peer map are not part of `Discovery`, whose devices only learn.
- `Clipboard` takes each watcher tick, push, enable and final pull write as one step; `ClipboardRaces` takes them apart. `WholePush` and its neighbours tie the two together operation by operation.
- ClipboardRaces: a pull is modelled from the answering device's look at its clipboard on; the request, the timeout and the failure of sending it are not steps, and answers and pushes may be lost.
- Concurrent pulls from one peer: `clip_pending` is keyed by peer and not by request.
- The heartbeat theorems take each tick as one step with no other thread removing links; the registry model lets the heartbeat act on an old snapshot as the code does.
