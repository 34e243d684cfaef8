# The control plane, modelled and proved

A Dafny model of the path from a peer's bytes, through the relay, to the host's roster, and of the handoff that
moves the host role from one participant to another. It covers the relay and its two client links, the
authenticated control connection, the replicated roster with its succession order and failover loop, the CPace
handshake and its encodings, the rate limiters, the quality governor and the STUN decoder.

Check everything with `dafny verify dfyconfig.toml`.

## How the model is laid out

| files | what they model |
|---|---|
| `RelayWire`, `RelayRoom`, `Relay`, `RelayEvents`, `RelayHandoff`, `RelayServer`, `RateWindow`, `RelayRates` | the relay: frames, one room, the registry of rooms and sockets, the handoff window, the mutable `Relay`, the per-address windows and what they mean for the relay's answers |
| `RelayLink`, `HostLinkObject`, `PeerLink`, `Streams` | the host's link and its virtual transports, the peer's link, and what a stream of frames says |
| `Multiplexer`, `MultiplexerProof`, `MultiplexerHosts`, `MultiplexerReads`, `MultiplexerRelay`, `MultiplexerClaims`, `MultiplexerTheorems`, `MultiplexerProgress` | a whole room end to end: every socket, the relay's room and every host's link, joined by FIFO channels; one proof file per kind of step, then the theorems, and that things arrive |
| `RelayProjection`, `PeerHandlers` | the registry's runs as runs of that room, and the way from a peer's socket to its message handler |
| `FrameCodec`, `Connection`, `Listeners`, `ConnectionObject` | frames over an idealised AEAD, and the timing of keys and listeners on a connection |
| `Sorting`, `Succession`, `Roster`, `Signaling`, `SignalingServer`, `HostTransfer` | the roster, its deltas and mirrors, the succession order, graceful transfer |
| `Failover`, `FailoverInstance`, `RoomSession`, `Epochs` | the promotion loop for one peer and for a group, sessions through handoffs, one host per epoch |
| `Lv`, `Cpace`, `Handshake` | length-value strings, the PAKE over a prime-order group, the two handshake machines |
| `RateLimit`, `Governor`, `MediaPlane`, `GovernorRuns`, `Stun` | the backoff limiter, the quality governor, its wiring and whole runs of both, the STUN codec |
| `Bytes`, `Arithmetic` | bytes and big-endian integers, remainders modulo a prime |

Code that the program writes as expressions is a function here. Code that changes fields is a class (`Relay`,
`RelayHostLink`, `RelayPeerLink`, `Roster`, `SignalingServer`, `SignalingClient`, `Connection`, `FrameEncoder`,
`FrameDecoder`, `Failover`, `RoomSession`, `RateLimiter`, `Governor`, `SfuMediaPlane`, `HostSide`, `PeerSide`)
whose methods, loops included, are proved to compute the step functions that the lemmas are about.

## What is assumed of the environment

The code does not enforce these; they are guards of the steps or preconditions of the lemmas that need them.

- **E.** After the relay closes a socket it takes no further frame from it, and a socket is used once. This is the
  `severed` guard of `Multiplexer`. The registry invariant, the handoff results and the rate results do not need it.
- **S.** The relay takes nothing from a superseded host. `MultiplexerTheorems.StaleFrameIsHarmlessExactlyWhen` says
  which frames break nothing without S: all but a kick of a member and data for one. `StaleKickBreaksView` and
  `StaleDataBreaksPipe` say exactly which members those two harm. `GuardsAreHypotheses` shows that the guards of the
  steps ask for nothing beyond E, S and the next point, and `RelayProjection.Fair` states all of them on the events
  of the whole registry.
- A socket says hello once, which `server/src/index.ts:95-109` sees to.
- connIds stay below 2^32, random peer ids are distinct, and the clock of the two limiters never goes back.
- No transport delivery falls between attaching a listener and its flush. `SeenExactlyWhenNothingOvertook` says what
  holds without it.
- The AEAD, the hashes and the MAC are symbolic: a ciphertext opens only under what sealed it, and a digest is
  determined by, and determines, what was hashed. The hash to the group is any function that avoids the identity.
- `Epochs.OneHostPerEpoch` asks that no two successors be named for one epoch. `EpochsRiseExactlyWhen` needs no such
  thing; `TwoNamesTwoHosts` is a run where it fails, and `HostTransfers.RepeatedTransfersAgree` says when the
  signaling server keeps to it.
- The probes of a failover are arbitrary, except in the group theorems, where `Sound` lists what is assumed.

## Where the code does not do what its comments say

- `src/main/signaling/rate-limit.ts:78-87` drops "stale" buckets, and with them the count of overflows: the backoff of
  a returning address starts over. `RateLimit.SweepIsInvisibleExactlyWhen` gives the exact condition for that to be
  invisible.
- `src/main/net/frame-codec.ts:14-18` calls gaps in the counter never legitimate; the decoder accepts them
  (`FrameCodec.InOrderIsAccepted`, `FrameCodec.GapsAreAccepted`).
- `src/main/net/relay-link.ts:273-278` says a late `onHandoffReady` fires immediately. On a link that has already been
  through a handoff it does not, because the old callback took the signal (`PeerLink.LaterHandoffs`).
- `src/main/net/relay-link.ts:349-359` buffers transports that come before the connection callback, but not their
  frames or their close (`RelayLink.HeardExactlyWhenWired`, `RelayLink.GoneBeforeWiringIsSilent`).
- `src/main/signaling/server.ts:178-191` wants a host that has named its successor to send the others nothing else. A
  late join or a settling probe is still announced (`HostTransfers.SendsExactlyWhen`).

No comment promises that a host which transfers twice names the same peer twice, and it need not: a probe that settles
in between can change the successor (`HostTransfers.ProbeMovesTheHeir`; `RepeatedTransfersAgree` has the exact condition).

## Model

| member | source | states |
|---|---|---|
| ClientWire.PeerToHostHop | server/src/wire.ts:101-123 | what a peer's link encodes, the relay decodes; what the relay re-tags, the host's link decodes to the same payload under that connId |
| ClientWire.HostToPeerHop | server/src/wire.ts:89-111 | the same from host to peer: the connId chosen by the host reaches the relay, and the peer's link gets the payload with no connId |
| ClientWire.KickHop | src/main/net/relay-wire.ts:139-144 | an encoded kick is read by the relay as a kick of that connId and as no data frame |
| ClientWire.HalvesAgree | src/main/net/relay-wire.ts:100-112 | the two hand-kept halves write the same bytes, and the client's single decoder reads exactly what one of the relay's two decoders reads |
| ClientWire.FramesOnTheWire | server/src/wire.ts:10-26 | every byte of the frames the clients write: type, big-endian connId, flag, payload |
| ClientWire.ReadsExactly | server/src/wire.ts:89-111 | what each decoder makes of any bytes at all, byte by byte |
| RelayWire.BuildDataToHost | server/src/wire.ts:113-123 | the buffer the relay writes is the tagged frame of the specification |
| ClientWire.BuildDataH | src/main/net/relay-wire.ts:127-137 | the buffer the host link writes is the tagged frame of the specification |
| ClientWire.BuildKick | src/main/net/relay-wire.ts:139-144 | the buffer the host link writes is the kick frame of the specification |
| RateWindow.PrunedEqualsFullHistory | server/src/relay.ts:286-300 | with a monotone clock the pruned table answers every question as a log of all grants ever given would |
| RateWindow.SweepsAreInvisible | server/src/relay.ts:318-323 | sweeps inserted or dropped anywhere change no later answer |
| RateWindow.GrantsPerWindowCapped | server/src/relay.ts:286-300 | after any run, every window of rateWindowMs holds at most cap grants per address and kind |
| RelayRoom.ClaimNoticesToHost | server/src/relay.ts:246-249 | a claim tells the new host one PEER_UP per surviving connId, ascending, and nothing else |
| RelayRoom.ClaimNoticesToPeer | server/src/relay.ts:246-249 | a claim sends one HOST_CLAIMED to each survivor and nothing to any other socket |
| RelayRoom.TeardownReaches | server/src/relay.ts:252-258 | a teardown sends one HOST_GONE to each peer and closes it, and touches nobody else |
| RelayRegistry.RegistryInvariant | server/src/relay.ts:96-107 | after any run of events at any times, with no hypothesis: every room member is attached as that peer of that room under that connId, connIds are below the next, a settled host is attached as host, and rooms and peers stay within the limits |
| RelayRegistry.OnePlacePerSocket | server/src/relay.ts:162-189 | no socket is in two rooms or under two connIds, or both a peer and a settled host |
| RelayEvents.OneRoomAtATime | server/src/relay.ts:96-160 | every socket event acts on at most one room, there as the room function that fits the event and the place of its socket; no attachment moves but those the change names; and when it acts on no room, only the asker hears of it |
| RelayEvents.SweepRemovesExpired | server/src/relay.ts:311-317 | a sweep removes exactly the rooms whose deadline has passed and changes no other |
| RelayProjection.EventProjects | server/src/relay.ts:96-189 | each event of the whole registry, under the stated hypotheses, is for one room nothing, or one enabled step of the end-to-end model: the same room, the same attachments, the same frames on its sockets |
| RelayProjection.RunProjects | server/src/relay.ts:96-189 | any run of the registry, the room's clients acting in between, is for that room a legal run of the end-to-end model, up to the room's end |
| RelayProjection.CreationStarts | server/src/relay.ts:193-225 | a hello that creates a room starts the two together |
| RelayHandoff.HandoffResolution | server/src/relay.ts:193-201 | from a pending handoff on, the room keeps its host and stays reserved until a claim strictly before the deadline then in force, or a sweep at or after it |
| RelayHandoff.ClaimResolves | server/src/relay.ts:240-250 | a claim in time gives READY then one PEER_UP per survivor to the new host, one HOST_CLAIMED to each survivor, and nothing to anyone else |
| RelayHandoff.SweepResolves | server/src/relay.ts:311-317 | an expiry removes the room and gives every survivor one HOST_GONE and a close |
| RelayHandoff.NeverBoth | server/src/relay.ts:193-201 | no event is both a claim and an expiry of the same handoff |
| RelayHandoff.PendingIsQuiet | server/src/relay.ts:143-180 | while a handoff is pending no peer frame is forwarded and the old host's close changes nothing but its own attachment |
| RelayHandoff.PendingStep | server/src/relay.ts:130-136 | one event leaves a pending room pending under the same host, or claims it, or expires it |
| RelayHandoff.HandoffReserves | server/src/relay.ts:130-136 | a HANDOFF from the room's host reserves the room for the next 8000 ms and tells nobody; from a superseded host it does nothing |
| RelayHandoff.KickDrops | server/src/relay.ts:120-129 | a host's KICK drops that member and closes its socket, and nothing else |
| RelayHandoff.DataIsRouted | server/src/relay.ts:138-158 | a host's data goes to the member it names, a peer's to its room's host under its own connId unless a handoff is pending, and nowhere else |
| RelayHandoff.PingIsAnswered | server/src/relay.ts:109-114 | any PING is answered with a PONG and changes nothing |
| RelayRates.AddressesAreCapped | server/src/relay.ts:286-300 | over any run from the start, sweeps and all, every stretch of rateWindowMs holds at most joinsPerWindow joins of an address answered READY, and at most roomCreatesPerWindow hellos that created a room or found it taken |
| RelayRates.JoinIsWelcomeExactlyWhen | server/src/relay.ts:260-279 | after any run a peer's first hello is answered READY exactly when the room exists and has a place and fewer than joinsPerWindow joins lie in the last rateWindowMs, and else told the first of these that fails |
| RelayRates.HostIsWelcomeExactlyWhen | server/src/relay.ts:193-225 | the same for a host: a claim in time is taken whatever was spent; otherwise room for another room, the window, and the room not existing, in this order |
| RelayRates.OddHelloIsRefused | server/src/relay.ts:96-107 | a second hello, or one of another version, is refused for that and spends nothing |
| RelayRates.SweepForgetsTheIdle | server/src/relay.ts:318-323 | a sweep forgets exactly the addresses that have spent nothing in the last rateWindowMs |
| RelayServer.Relay.OnHello | server/src/relay.ts:96-107 | the mutable relay takes exactly the registry's step for a hello |
| RelayServer.Relay.HostHello | server/src/relay.ts:193-225 | claim, limits, rate and creation, in the code's order |
| RelayServer.Relay.ClaimHandoff | server/src/relay.ts:240-250 | the claim's loop over the peers sends what the specification lists |
| RelayServer.Relay.PeerHello | server/src/relay.ts:260-279 | the mutable relay takes the registry's step for a joining peer |
| RelayServer.Relay.OnMessage | server/src/relay.ts:109-160 | routing, kick, handoff and ping, as the registry's step |
| RelayServer.Relay.OnClose | server/src/relay.ts:162-189 | the registry's step for a closed socket |
| RelayServer.Relay.TeardownRoom | server/src/relay.ts:252-258 | the teardown loop sends what the specification lists and deletes the room |
| RelayServer.Relay.AllowOne | server/src/relay.ts:286-300 | the mutable rate table answers and changes as the specification says |
| RelayServer.Relay.Sweep | server/src/relay.ts:311-324 | expired rooms and idle buckets go, nothing else changes |
| RelayLink.HandedOnceInOrder | src/main/net/relay-link.ts:382-389 | whenever the callback is wired, each PEER_UP is handed over exactly once, in arrival order |
| RelayLink.ClosedForGood | src/main/net/relay-link.ts:314-341 | a closed transport hears nothing more and has reported its close at most once, over every later run |
| RelayLink.ClosedIsSilent | src/main/net/relay-link.ts:309-324 | a closed transport sends nothing, and neither frames nor closes of others disturb it |
| RelayLink.TransportsAreArrivals | src/main/net/relay-link.ts:382-389 | a link's transports are its PEER_UPs, one each, in order |
| RelayLink.HeardExactlyWhenWired | src/main/net/relay-link.ts:393-395 | a data frame for a connId the link knows reaches that transport's handler, and nobody else, exactly when the connection callback is wired by then; any other bytes change nothing |
| RelayLink.WiredMissesNothing | src/main/net/relay-link.ts:423-430 | once the callback is wired no transport misses another frame |
| RelayLink.GoneBeforeWiringIsSilent | src/main/net/relay-link.ts:390-392 | a peer that leaves before wiring has its transport handed over closed, with its close never reported |
| RelayLink.ReportsExactlyWhen | src/main/net/relay-link.ts:309-341 | one event closes an open transport exactly if it is its PEER_DOWN, its own close or the socket's end, and then calls its handler once if it was handed over; nothing else ever calls it |
| RelayLink.ReportedExactlyWhen | src/main/net/relay-link.ts:309-341 | over any run a transport has reported once if and only if it closed after it was handed over, and never otherwise |
| RelayLink.MapsTheOpenOnRuns | src/main/net/relay-link.ts:382-392 | while no connId is announced twice, the link's map holds exactly its open transports |
| RelayLink.DepartureIsReported | src/main/net/relay-link.ts:390-392 | on such a run a peer's leaving, a transport's close or the socket's end leaves that transport closed and reported exactly once |
| RelayLink.TransmitsExactlyWhen | src/main/net/relay-link.ts:309-313 | an open transport of an open link sends each payload as one frame under its connId, a closed one nothing |
| RelayLink.ClosingKicks | src/main/net/relay-link.ts:314-324 | closing an open transport kicks its connId, forgets it and touches no other; closing it again does nothing |
| RelayLink.WiredAndClosedExactlyWhen | src/main/net/relay-link.ts:423-476 | over any run the link is wired exactly from the first registration on and closed exactly from its own close or the socket's end on |
| HostLinkObjects.RelayHostLink.OnRelayFrame | src/main/net/relay-link.ts:366-396 | the mutable link's frame handler is the link's step, and keeps its invariant |
| HostLinkObjects.RelayHostLink.OnConnection | src/main/net/relay-link.ts:423-430 | the flush loop hands over everything pending, in order |
| HostLinkObjects.RelayHostLink.CloseTransport | src/main/net/relay-link.ts:314-324 | closing a transport kicks it at the relay, forgets it and reports to its own handler |
| HostLinkObjects.RelayHostLink.OnSocketClosed | src/main/net/relay-link.ts:469-476 | the teardown loop drops every transport in the map, whatever its order |
| PeerLink.FirstHandoffFiresOnce | src/main/net/relay-link.ts:217-219 | the claim and the registration in either order call the first callback exactly once |
| PeerLink.LaterHandoffs | src/main/net/relay-link.ts:279-285 | after any past of claims and registrations, a claim that precedes the registration reaches the new callback exactly when none was ever registered before; the other way round it always does |
| PeerLink.LatchFollows | src/main/net/relay-link.ts:217-219 | over any run the link calls exactly the callbacks its claims and registrations make the latch call |
| PeerLink.FirstVerdictSettles | src/main/net/relay-link.ts:208-213 | the first READY, REJECT, end of the socket or timeout settles `open`, as that one says; without one it is still dialling |
| PeerLink.FirstEndReports | src/main/net/relay-link.ts:287-292 | the link ends with the first HOST_GONE, end of the socket or own close; the close handler is called once if it was there by then and the end was not the link's own |
| PeerLink.RelayPeerLink.OnFrame | src/main/net/relay-link.ts:203-221 | what each frame does to the link: READY or REJECT settles the opening once, data goes to the handler if there is one, HOST_GONE fails the link, HOST_CLAIMED is the latch's step |
| PeerLink.RelayPeerLink.FailLink | src/main/net/relay-link.ts:287-292 | the link closes, and reports it at most once and only to an installed handler |
| PeerLink.RelayPeerLink.Close | src/main/net/relay-link.ts:253-262 | closing it oneself reports nothing, and data still arriving is handed on |
| PeerLink.HeardFromListening | src/main/net/relay-link.ts:203-221 | over any run, its closing included, the handler hears every payload that arrives from the moment it is installed, in order |
| PeerLink.FrameCarries | src/main/net/relay-link.ts:214-215 | a data frame carries the payload it was made of, and anything else nothing |
| PeerLink.RelayPeerLink.OnHandoffReady | src/main/net/relay-link.ts:279-285 | registering is the latch's step and touches nothing else |
| MultiplexerTheorems.UpwardPipe | server/src/relay.ts:155-158 | in every reachable state a virtual transport has heard an unbroken, in-order slice of what the relay took in the tenure from the one socket behind its connId, a prefix if it missed nothing; for a member with no handoff pending that is all taken |
| MultiplexerTheorems.EverythingArrives | src/main/net/relay-link.ts:393-395 | once everything is taken and read, a transport that missed nothing has heard all its peer sent in the tenure |
| MultiplexerTheorems.DownwardPipe | server/src/relay.ts:138-142 | in every reachable state a peer's socket carries, in the tenure, exactly what the relay took from that host for its connId, in order |
| PeerHandlers.DownwardToHandler | src/main/net/relay-link.ts:203-221 | in every reachable state, a peer's message handler that was there when a tenure began has heard, in order, a prefix of exactly what the relay took from that host for its connId, and all of it once its socket is read |
| MultiplexerTheorems.EncodedIsSent | src/main/net/relay-wire.ts:118-137 | the payloads of an honest sender's encoded frames are the payloads it sent |
| MultiplexerTheorems.ViewAgreement | src/main/net/relay-link.ts:382-392 | in every reachable state, settling the undelivered PEER_UPs and PEER_DOWNs onto the host link's ids gives the relay's ids less those with a kick in flight |
| MultiplexerTheorems.HostStreamDiscipline | server/src/relay.ts:274-278 | on every host's stream READY is first and only first, no connId is announced twice, and every data frame follows its PEER_UP with no PEER_DOWN between |
| MultiplexerTheorems.ClaimAnnouncesMembers | server/src/relay.ts:240-250 | across a claim the members keep their connIds, the new host hears READY and exactly them, and each of them one HOST_CLAIMED |
| MultiplexerTheorems.StaleKickBreaksView | server/src/relay.ts:120-129 | a kick from a superseded host keeps the new host's view right if and only if its connId is no member any more, or is being kicked already |
| MultiplexerTheorems.StaleDataBreaksPipe | server/src/relay.ts:138-142 | data from a superseded host leaves a member's socket and its pipe as they were if and only if it is for another connId |
| MultiplexerTheorems.StaleFrameIsHarmlessExactlyWhen | server/src/relay.ts:120-142 | a frame from a superseded host changes nothing and reaches nobody if and only if it neither kicks a member nor carries data for one; a HANDOFF never does |
| MultiplexerTheorems.GuardsAreHypotheses | server/src/relay.ts:109-160 | in every reachable state the steps' guards are the environment hypotheses and no more |
| MultiplexerTheorems.NextKeepsInv | server/src/relay.ts:109-189 | every step of the end-to-end system keeps the invariant behind these results |
| MultiplexerProgress.UpGoesThrough | server/src/relay.ts:155-158 | in a quiet reachable room, what a member sends is taken, reaches the host's link and is heard by that member's transport and no other |
| MultiplexerProgress.DownGoesThrough | server/src/relay.ts:138-142 | what the host sends a member is put, untagged, on that member's socket and no other |
| MultiplexerProgress.KickGoesThrough | src/main/net/relay-link.ts:314-324 | closing a member's transport takes the member out of the room, ends its socket and sends nobody anything |
| MultiplexerProgress.SignalsGoThrough | server/src/relay.ts:109-136 | a handoff reserves the room for 8000 ms, a ping is answered, and neither reaches anyone else |
| MultiplexerProgress.JoinGoesThrough | server/src/relay.ts:274-278 | a newcomer is told its connId, joins under it and gets a transport of its own at the host's link |
| MultiplexerProgress.LeaveGoesThrough | server/src/relay.ts:183-188 | a member's end takes it out of the room and closes its transport at the host's link |
| MultiplexerProgress.LinkStepsAreTaken | src/main/net/relay-link.ts:423-476 | registering, closing and losing the socket take the link's own steps and touch nothing else |
| FrameCodec.FrameEncoder.Encode | src/main/net/frame-codec.ts:68-77 | the frame for the current counter, byte by byte, or the error, and the counter moves only with a frame |
| FrameCodec.FrameDecoder.DecodeFrame | src/main/net/frame-codec.ts:93-120 | the decoder's checks in order; a rejected frame leaves its counter as it was |
| FrameCodec.HeaderRoundTrip | src/main/net/frame-codec.ts:40-46 | the counter written into a header is the counter read from it, for all 64-bit counters |
| FrameCodec.FrameLayout | src/main/net/frame-codec.ts:40-53 | every byte of a frame's header, and the key, nonce and associated data its body is sealed under |
| FrameCodec.RefusedExactlyWhen | src/main/net/frame-codec.ts:93-120 | which frames are refused and for which reason, the first counting, and what the others are read as |
| FrameCodec.ReflectionIsRefused | src/main/net/frame-codec.ts:101-103 | a frame of the other direction is refused even under the same key and salt |
| FrameCodec.NoncesAreDistinct | src/main/net/frame-codec.ts:48-53 | one encoder's nonces are pairwise distinct for as many frames as the counter lasts, as section 8.2.1 of NIST SP 800-38D requires |
| FrameCodec.AcceptedExactlyWhen | src/main/net/frame-codec.ts:93-120 | against a network that cannot seal, a frame is accepted exactly when it is one that was sent, whole, with a counter above all accepted before |
| FrameCodec.AcceptedIsSubsequence | src/main/net/frame-codec.ts:104-119 | for any dropping, repeating, reordering or splicing, the accepted plaintexts are a subsequence of those sent, each at most once |
| FrameCodec.InOrderIsAccepted | src/main/net/frame-codec.ts:104-107 | frames in the order they were sent are all accepted, however many are missing between them |
| FrameCodec.WholeInOrder | src/main/net/frame-codec.ts:93-120 | delivered whole and in order, everything sent is received |
| FrameCodec.SurvivesExactlyWhen | src/main/net/connection.ts:71-77 | a connection, which a rejected frame closes, outlives a list of deliveries exactly when they are sent frames in sending order |
| FrameCodec.GapsAreAccepted | src/main/net/frame-codec.ts:104-107 | a frame after a lost one is accepted, which the file's own header denies |
| Connections.SeenExactlyWhenNothingOvertook | src/main/net/connection.ts:144-190 | for any schedule the connection survives exactly when the arrivals are well formed (at most 64 early frames, no late text), and consumers of a kind then see or have waiting each decoded arrival once and in order exactly when no delivery overtook a held one |
| Connections.TimingIsInvisible | src/main/net/connection.ts:102-123 | if no delivery falls between attaching and flush, every placement of the upgrade and every schedule of listeners gives consumers each decoded arrival once, in arrival order |
| Connections.SameAsListenersFirst | src/main/net/connection.ts:170-190 | two prompt schedules of the same arrivals show consumers the same events, one of them having listened throughout |
| Connections.GapOvertakes | src/main/net/connection.ts:65-69 | with something held, a delivery in the gap before the flush always overtakes it |
| Listeners.StayingListenerHearsAll | src/main/net/connection.ts:170-190 | a listener that attaches for good is handed every arrival of its kind, from the first on, once and in order, if no delivery fell in a gap |
| Listeners.DetachedHearsNothing | src/main/net/connection.ts:170-177 | after the listeners of a kind are detached, nothing of that kind is handed to anyone until another attaches |
| Listeners.ListenerTakesItsFill | src/main/net/connection.ts:179-190 | a listener for n events takes the n oldest held of its kind at the flush and leaves the rest held |
| Listeners.DeliveryFeeds | src/main/net/connection.ts:170-177 | one event goes to a listener that still takes one, which then takes one fewer, and is held otherwise |
| Listeners.AttachAdds | src/main/net/connection.ts:179-190 | a second listener makes the kind take as long as the hungrier of the two |
| ConnectionObjects.Connection.InstallKeys | src/main/net/connection.ts:102-123 | upgrading drains the early frames in order, stopping at the first that fails, and says which happened; a second upgrade is an error and changes nothing |
| ConnectionObjects.Connection.OnText | src/main/net/connection.ts:144-168 | a text frame is parsed and delivered, or is fatal after the upgrade |
| ConnectionObjects.Connection.OnBinary | src/main/net/connection.ts:144-165 | a binary frame is opened, held as one of at most 64 early ones, or fatal |
| ConnectionObjects.Connection.DeliverItem | src/main/net/connection.ts:171-177 | an item goes to a listener if there is one and is held otherwise |
| ConnectionObjects.Connection.FlushInbox | src/main/net/connection.ts:179-190 | the flush loop hands out what has a listener by then and holds the rest, in order |
| Sorting.StrictIsUnique | src/main/election/succession.ts:36-42 | two strictly ordered listings of the same elements are the same listing |
| Succession.CompareIsStrictTotalOrder | src/main/election/succession.ts:25-33 | the comparison is a strict total order on candidates with different ids |
| Succession.BeforeExactlyWhen | src/main/election/succession.ts:25-33 | verified peers come first, then those who joined earlier, then the smaller id |
| Succession.StrLessAtFirstDifference | src/main/election/succession.ts:25-33 | ids compare at the first unit in which they differ, a proper prefix coming first |
| Succession.RankedIsStrict | src/main/election/succession.ts:36-42 | the order lists exactly the eligible entries, strictly sorted |
| Succession.RankedIsUnique | src/main/election/succession.ts:36-42 | it is the only strictly sorted listing of them |
| Succession.OrderIsSetFunction | src/main/election/succession.ts:36-42 | every permutation of the roster gives the same order |
| Succession.RemovalOnlyDeletes | src/main/election/succession.ts:36-42 | removing peers only deletes them from the order |
| Succession.NextSuccessorIsHeirOfRest | src/main/election/succession.ts:53-58 | skipping exhausted peers names the designated heir of the roster without them |
| Succession.HeirIsLeast | src/main/election/succession.ts:45-47 | an eligible entry is the heir exactly when it comes before every other eligible one |
| Rosters.Roster.constructor | src/main/signaling/roster.ts:14-16 | the table starts with the host's entry under joinSeq 0 |
| Rosters.Roster.AllocateJoinSeq | src/main/signaling/roster.ts:18-20 | hands out the next joinSeq and advances it |
| Rosters.Roster.HasNickname | src/main/signaling/roster.ts:26-31 | true exactly when some entry's nickname folds to the same form |
| Rosters.Roster.Add | src/main/signaling/roster.ts:37-39 | a new id goes last, an existing one keeps its place |
| Rosters.Roster.Remove | src/main/signaling/roster.ts:41-45 | removes the id and returns the entry it had |
| Rosters.Roster.UpdateInbound | src/main/signaling/roster.ts:47-53 | patches an existing entry in place, and nothing for an unknown id |
| Rosters.SnapshotSorts | src/main/signaling/roster.ts:59-61 | a snapshot lists every entry once, in join order |
| Signaling.Convergence | src/main/signaling/client.ts:256-268 | in every reachable state, whatever the interleaving of joins, departures, settling probes, transfer, closing and reads: one host, distinct ids, joinSeqs and folded nicknames, never too many entries; and every linked peer, once it has read what is queued to it, holds exactly the host's sorted snapshot or has refused its epoch |
| Signaling.DrainedMirrorsNameTheHeir | src/main/election/succession.ts:45-47 | a linked peer with nothing left to read computes the heir the host would name |
| Signaling.AdmitKeeps | src/main/signaling/server.ts:343-400 | admitting, or refusing, a join keeps all of this |
| Signaling.AdmittedExactlyWhen | src/main/signaling/server.ts:343-400 | a join is refused as full exactly when the room is, else as a duplicate exactly when an entry folds to its nickname; otherwise the newcomer is listed last, unverified, and told so, and every other peer hears of it |
| Signaling.GoneKeeps | src/main/signaling/server.ts:477-506 | a departure keeps it, announced or, while closing, not |
| Signaling.ProbeKeeps | src/main/signaling/server.ts:422-438 | a settling inbound probe keeps it |
| Signaling.UpdateFollows | src/main/signaling/client.ts:258-265 | a delta that describes how the table changed takes a mirror of the old table to the new one |
| Signaling.ReadingDrains | src/main/signaling/client.ts:118-129 | a peer that reads on until nothing is queued holds the fold of everything queued, and nothing else changes |
| Signaling.TransferCloses | src/main/signaling/server.ts:168-228 | handing over marks the host as closing and names the heir, with the next epoch, to every linked peer, or drops all links if there is none |
| Signaling.ClosingIsFinal | src/main/signaling/server.ts:191 | once closing, always closing, in the same epoch |
| SignalingEndpoints.SignalingServer.Admit | src/main/signaling/server.ts:343-400 | capacity before nickname, then entry, link, `joined` to the newcomer and the delta to everyone else |
| SignalingEndpoints.SignalingServer.Broadcast | src/main/signaling/server.ts:240-249 | the loop appends the message to every link but the excepted one |
| SignalingEndpoints.SignalingServer.OnPeerGone | src/main/signaling/server.ts:477-506 | the departure's step, silent while closing |
| SignalingEndpoints.SignalingServer.ProbeInbound | src/main/signaling/server.ts:422-438 | the probe's step, ignored for a peer no longer linked |
| SignalingEndpoints.SignalingServer.TransferHost | src/main/signaling/server.ts:168-203 | names the heir of the current snapshot to every link, or closes when there is none |
| SignalingEndpoints.SignalingClient.OnMessage | src/main/signaling/client.ts:118-129 | the mirror follows the fold; a `joined` below minEpoch is refused and changes neither epoch nor id |
| HostTransfers.HeirLeads | src/main/signaling/server.ts:168-172 | the named successor is the entry that precedes every other non-host entry |
| HostTransfers.RepeatedTransfersAgree | src/main/signaling/server.ts:168-203 | from a closing host on, the successor is the same at every point of a run if and only if every probe that settles on it is harmless where it settles |
| HostTransfers.StepKeepsHeirExactlyWhen | src/main/signaling/server.ts:343-438 | one step of a closing host keeps the successor if and only if it is not a probe that moves it |
| HostTransfers.ProbeKeepsHeir | src/main/signaling/server.ts:422-438 | a settling probe leaves the successor the same if and only if the entry it rewrites does not overtake the heir's, or, being the heir's own, is not overtaken |
| HostTransfers.ProbeMovesTheHeir | src/main/signaling/server.ts:422-438 | a run of two admissions, a transfer, a settling probe and another transfer leaves two different names queued to one peer |
| HostTransfers.SendsExactlyWhen | src/main/signaling/server.ts:177-196 | which steps put something on a linked peer's connection, closing or not |
| Failovers.Run | parked/failover.ts:136-195 | the promotion loop over any probe oracle computes the loop's decision |
| Failovers.FirstStopDecides | parked/failover.ts:146-194 | the outcome is what the first stopping place says, and room-dead exactly when there is none |
| Failovers.FirstAnswerIsHeeded | parked/failover.ts:168-184 | the first candidate ahead that answers decides: reconnect if the host lives at an epoch no newer than ours, else go to that candidate expecting the newer of its epoch and our next |
| Failovers.OrderLists | parked/failover.ts:139-141 | for any roster, the order lists exactly the ids of its non-host entries, but for the one its first host goes by |
| Failovers.OrderFollowsPrecedence | parked/failover.ts:139-141 | in a roster of distinct peers, one entry has the earlier place exactly when it precedes the other |
| Failovers.PromotesExactlyWhen | parked/failover.ts:149-157 | for any probe results an instance promotes exactly when it is listed, verified and unanswered by everyone ahead |
| Failovers.SplitBrainExactlyWhen | parked/failover.ts:136-184 | for any probe results, two peers of one roster both promote exactly when both are verified, nobody ahead answers either, and the first does not answer the second |
| Failovers.OnePromotes | parked/failover.ts:136-184 | with sound probes, the live verified non-host entry that precedes every other such entry promotes itself to e+1, and every other live peer goes to its endpoint expecting e+1 |
| Failovers.SomeHeir | parked/failover.ts:136-184 | whenever some live non-host entry is verified, one of them precedes all others |
| Failovers.NobodyPromotes | parked/failover.ts:186-194 | with sound probes a live peer declares the room dead if and only if no live non-host entry is verified |
| Failovers.AtMostOnePromotes | parked/failover.ts:136-184 | with sound probes no two live peers promote |
| Failovers.SharedRosterIsFit | src/main/signaling/server.ts:426-429 | the snapshots of a reachable signaling host meet what the group theorems ask: distinct peers, and an endpoint exactly when verified |
| FailoverInstances.AtMostOneAction | parked/failover.ts:197-201 | however host loss, probes, timers, graceful transfers and cancellation interleave, an instance emits at most one action, and none after it finished |
| FailoverInstances.HostLossReachesTheOutcome | parked/failover.ts:77-86 | on every schedule free of outside interference, stray timers and late probes included, an instance that lost its host emits nothing or exactly the loop's decision, and has emitted it once answered as often as there are candidates |
| FailoverInstances.OnlyTheFirstActsAtOnce | parked/failover.ts:149-157 | a verified peer that is first in line promotes itself as soon as the host is lost, and any other only when its turn's timer fires |
| FailoverInstances.GracefulTransferDecides | parked/failover.ts:89-110 | handed the room by name, an unfinished instance promotes if it is named, goes to the named peer's endpoint, or gives up without one, and says nothing more |
| FailoverInstances.CancelSilences | parked/failover.ts:113-115 | called off before it has said anything, an instance never says anything |
| FailoverInstances.Failover.Loop | parked/failover.ts:146-194 | the loop from a place to its next await |
| FailoverInstances.Failover.OnProbe | parked/failover.ts:162-184 | the loop's continuation after a probe |
| FailoverInstances.Failover.OnTimer | parked/failover.ts:152-157 | the loop's continuation after the stagger delay |
| FailoverInstances.Failover.OnHostLost | parked/failover.ts:77-86 | starts at most one loop |
| FailoverInstances.Failover.OnGracefulTransfer | parked/failover.ts:89-110 | finishes the instance with the handed-over action |
| RoomSessions.RoomSession.HostTransfer | src/main/app/room-session.ts:520-528 | the named session promotes itself, any other re-homes, a busy or leaving one ignores it |
| RoomSessions.RoomSession.PromotionLinkOpened | src/main/app/room-session.ts:545-552 | with its host link open the promotion goes on to start the server, or stops if the user has left |
| RoomSessions.RoomSession.PromotionServerStarted | src/main/app/room-session.ts:554-567 | with its server up the promotion settles as host, unless the user left meanwhile |
| RoomSessions.RoomSession.LeaveRoom | src/main/app/room-session.ts:354-367 | leaving marks the session, whatever else is in progress |
| RoomSessions.RoomSession.Rehomed | src/main/app/room-session.ts:617-641 | re-homing settles under a host of at least the named epoch and fails under an older one |
| RoomSessions.NamedSessionHosts | src/main/app/room-session.ts:520-567 | a settled peer that is named comes to host under its own id at the named epoch |
| RoomSessions.OtherSessionRehomes | src/main/app/room-session.ts:520-641 | a settled peer that is not named settles with whoever admits it, unless that host is older than the named one |
| RoomSessions.BusyIgnoresNames | src/main/app/room-session.ts:520-522 | a session that is leaving or already changing hosts ignores a name |
| RoomSessions.LeavingGoesNowhere | src/main/app/room-session.ts:548-560 | whoever left meanwhile starts no server and settles nowhere |
| Epochs.PhasesTell | src/main/app/room-session.ts:520-641 | over any run, every session's phase shows what it is: hosting, in a room or on its way to one, or out |
| Epochs.OneHostPerEpoch | src/main/app/room-session.ts:520-573 | over any number of handoffs in one room incarnation, with one name for each epoch, the hosts' epochs strictly increase if and only if no claim came from a session that was not named; each host after the first is then the one named for its epoch |
| Epochs.EpochsRiseExactlyWhen | src/main/app/room-session.ts:520-573 | whoever is named and however often, the hosts' epochs strictly increase if and only if no claim was unnamed and none came from a session named for an epoch that had already begun |
| Epochs.LateClaimNeedsTwoNames | src/main/signaling/server.ts:192-196 | such a late claim is possible only where two successors were named for one epoch |
| Epochs.TwoNamesTwoHosts | src/main/signaling/server.ts:168-203 | a run where the host names two peers and both come to host at epoch 1 |
| Epochs.SettledEpochsRise | src/main/app/room-session.ts:548-641 | over any run, stray claims included, every session settles on ever higher epochs, promoted and re-homed alike |
| Epochs.HandoffCompletes | src/main/app/room-session.ts:520-641 | with nobody in its way a handoff leaves the named peer hosting at the next epoch under the id it was named by, and another peer settled under it |
| Epochs.LeftMidwayEndsTheRoom | src/main/app/room-session.ts:548-560 | a successor that left while dialling, or while its server started, takes the room down with it |
| Epochs.StraysCanTake | server/src/relay.ts:193-201 | an unnamed newcomer can claim a pending room, which it then hosts at epoch 0 |
| Epochs.FoundedIsInv | src/main/app/room-session.ts:293-301 | a freshly hosted room satisfies what the two results above start from |
| Epochs.PromotesToNext | src/main/signaling/server.ts:192-196 | a session that promotes itself is always about to open the very next epoch |
| Lv.EncodeLeb128 | src/main/crypto/lv.ts:13-26 | the loop computes LEB128 |
| Lv.LvLen | src/main/crypto/cpace.ts:68-76 | the counting loop gives the length of the LEB128 encoding, for every number |
| Lv.PrependLen | src/main/crypto/lv.ts:29-35 | the array filled by offset is length then bytes |
| Lv.BuildLvCat | src/main/crypto/lv.ts:38-48 | the array filled by offset is the concatenation of the prefixed fields |
| Lv.ConcatBytes | src/main/crypto/lv.ts:50-59 | the array filled by offset is the concatenation |
| Lv.LebSelfDelimiting | src/main/crypto/lv.ts:13-26 | a number's encoding gives it back, and what follows it, whatever follows |
| Lv.LvCatRoundTrip | src/main/crypto/lv.ts:38-48 | every field list of any length comes back from its string |
| Lv.LvCatIsInjective | src/main/crypto/lv.ts:38-48 | no two field lists share a string, as section 4.2 of draft-irtf-cfrg-cpace-21 intends |
| Cpace.GeneratorString | src/main/crypto/cpace.ts:60-65 | the zero padding computed from the field lengths |
| Cpace.GeneratorStringIsInjective | src/main/crypto/cpace.ts:60-65 | the string tells apart every password, channel and session id |
| Cpace.ChannelTellsApart | src/main/crypto/cpace.ts:53-58 | the channel id gives back the version and the room |
| Cpace.GeneratorTellsApart | src/main/crypto/cpace.ts:78-85 | no two rooms, versions, sessions or passwords share a generator string |
| Cpace.TextsAre | src/main/crypto/cpace.ts:33-34 | the domain separators, the two tags and the channel prefix are the texts the program spells out |
| Cpace.FirstFieldsFillABlock | src/main/crypto/cpace.ts:60-65 | the first three fields fill exactly 128 bytes if and only if separator and password fields total at most 127 |
| Cpace.SharedPointsAgreeExactlyWhen | src/main/crypto/cpace.ts:180-183 | in a group of prime order the two sides' shared points agree exactly when their generators do |
| Cpace.NeverIdentity | src/main/crypto/cpace.ts:113-125 | no honest share or shared point is the identity |
| Cpace.MacBindsTranscript | src/main/crypto/cpace.ts:131-133 | one side's confirmation never passes for the other's, and it binds the key, the session and both shares |
| Handshakes.IskIsInjective | src/main/crypto/cpace.ts:97-111 | equal session keys mean equal session id, shared point and both shares |
| Handshakes.SameKeyExactlyWhen | src/main/crypto/cpace.ts:179-196 | both sides derive the same key exactly when their generators agree |
| Handshakes.Agreement | src/main/signaling/handshake.ts:115-167 | however deliveries interleave, neither side comes up unless room, version, cost and generator agree; then, once nothing is in flight, both are up with one key and matching opposite directions |
| Handshakes.PasswordsDecide | src/main/signaling/handshake.ts:185-243 | unless the group hash collides on the two strings themselves, equal passwords bring both sides up and different ones bring up neither |
| Handshakes.CompletesExactlyWhen | src/main/signaling/handshake.ts:115-243 | in one room the five messages settle it, whatever else is delivered between: with equal generators the peer comes up with the fourth and the host with the fifth, neither before; with different ones each fails just there |
| Handshakes.HostUpExactlyWhen | src/main/signaling/handshake.ts:115-167 | whatever messages it gets, the host comes up exactly on a hello for its version and room, a good share and the right confirmation of that share's transcript, in this order; its keys and everything it sent are stated |
| Handshakes.PeerUpExactlyWhen | src/main/signaling/handshake.ts:185-243 | the same for the peer: an acknowledgement of its version at an acceptable cost, then a good share with the right confirmation |
| Handshakes.PeerShares | src/main/signaling/handshake.ts:210-240 | a good share is always answered with the confirmation, even before failing; a bad one with a rejection |
| Handshakes.HostHangsUp | src/main/signaling/handshake.ts:119-126 | a hello for another room or version is rejected before the host hangs up, and nothing else is |
| Handshakes.HostSide.Receive | src/main/signaling/handshake.ts:115-167 | the host's steps in order, each failure with what it sends |
| Handshakes.PeerSide.Receive | src/main/signaling/handshake.ts:185-243 | the peer's steps in order; it answers the host before it fails |
| RateLimit.RateLimiter.TakeKey | src/main/signaling/rate-limit.ts:46-71 | blocked, overflowing or granted, and the bucket that results |
| RateLimit.RateLimiter.Sweep | src/main/signaling/rate-limit.ts:79-87 | the loop drops exactly the idle buckets |
| RateLimit.BurstPerWindow | src/main/signaling/rate-limit.ts:57-70 | between clears, sweeps or not, every window holds at most `burst` grants of a key |
| RateLimit.GrantedExactlyWhen | src/main/signaling/rate-limit.ts:46-71 | after any run an attempt is granted exactly when its key is not blocked and had fewer than burst grants in the last windowMs |
| RateLimit.RefusalStands | src/main/signaling/rate-limit.ts:55-66 | a key told to wait is refused, counting down, until just then, whatever happens meanwhile, and then is blocked no longer |
| RateLimit.OverflowCounts | src/main/signaling/rate-limit.ts:55-70 | an attempt while blocked changes nothing, a grant neither blocks nor counts, and an overflow blocks for its wait and is counted |
| RateLimit.SweptExactlyWhen | src/main/signaling/rate-limit.ts:79-87 | a sweep forgets exactly the keys past their block with no grant in the last windowMs |
| RateLimit.ClearedIsNew | src/main/signaling/rate-limit.ts:74-76 | clearing a key gives it its whole burst back and touches no other |
| RateLimit.NthOverflowWaits | src/main/signaling/rate-limit.ts:59-66 | a bucket's nth overflow, from 0, waits min(base * 2^n, max), and every overflow is counted |
| RateLimit.SweepIsInvisibleExactlyWhen | src/main/signaling/rate-limit.ts:79-87 | dropping an idle bucket changes no later answer if and only if it never overflowed or the backoff is flat |
| RateLimit.OverflowTellsThemApart | src/main/signaling/rate-limit.ts:79-87 | otherwise burst + 1 attempts at one moment tell a swept bucket from a kept one |
| Governors.Governor.Evaluate | src/main/sfu/governor.ts:125-159 | the evaluation updates every stream and returns, in the order of the streams, a directive for exactly those whose level changed |
| Governors.Governor.EvaluateEach | src/main/sfu/governor.ts:127-157 | the loop over the streams computes both |
| Governors.Governor.EvaluateStream | src/main/sfu/governor.ts:128-151 | one stream's step, its worst loss found by the loop over its subscribers |
| Governors.StrainLowers | src/main/sfu/governor.ts:128-142 | a stream with some loss over the threshold, or its publisher at full pressure, goes one level down as far as the ladder goes, and says why |
| Governors.CalmNeverLowers | src/main/sfu/governor.ts:128-151 | with every loss at or under the threshold and the publisher below full pressure it never goes down |
| Governors.SitsOut | src/main/sfu/governor.ts:128 | a paused or unreported stream is left as it is |
| Governors.DirectiveOfLevel | src/main/sfu/governor.ts:172-190 | a directive asks for the level's share of the base bitrate to the nearest kilobit, at its frame rate and scale |
| Governors.LowerAsksForLess | src/main/sfu/governor.ts:27-33 | the lower a stream is, the less is asked for |
| Governors.GaugeMovesByTicks | src/main/sfu/governor.ts:127-151 | only an evaluated window moves a stream's level and streak, and by one tick |
| Governors.RisesExactlyWhen | src/main/sfu/governor.ts:143-150 | quality rises exactly on the recoveryWindows-th healthy window in a row since the last bad window or change, and drops exactly on a bad one above the bottom |
| Governors.RisesAreRare | src/main/sfu/governor.ts:143-150 | n evaluated windows hold at most n / recoveryWindows rises |
| Governors.HealthyWindowsRestore | src/main/sfu/governor.ts:143-150 | the exact level after k healthy windows from any state |
| Governors.RestoredInTime | src/main/sfu/governor.ts:143-150 | healthy windows bring any level back to the top within level * recoveryWindows |
| GovernorRuns.RisesAreRareOnRuns | src/main/sfu/governor.ts:125-159 | in any run of the media plane, pauses and departures interleaved, a published stream rises at most once per recoveryWindows of its evaluated windows, counting those already behind it |
| GovernorRuns.RisesSincePublishing | src/main/sfu/governor.ts:125-159 | from its publication on, a stream's n evaluated windows hold at most n / recoveryWindows rises |
| GovernorRuns.RestoredOnRuns | src/main/sfu/governor.ts:125-159 | in any such run a stream whose last level * recoveryWindows windows were all healthy is back at the top |
| GovernorRuns.LossIsAnswered | src/main/sfu/media-plane.ts:109-113 | in any reachable state, a loss over the threshold reported about a watched stream lowers it at the next evaluation and its owner is told |
| GovernorRuns.PressureIsAnswered | src/main/sfu/media-plane.ts:109-113 | so does a publisher's full pressure |
| GovernorRuns.DepartureLeaves | src/main/sfu/media-plane.ts:98-101 | a departing peer takes its streams, subscriptions and samples along, and pauses what it was the last to watch |
| GovernorRuns.PausedExactlyWhenUnwatched | src/main/sfu/media-plane.ts:63-81 | from the first time somebody watches a stream it is paused exactly while nobody does, its owner then having been told to send nothing |
| MediaPlanes.OwnerStaysInStep | src/main/sfu/media-plane.ts:51-81 | over any run, once an owner has been told anything about a stream, the last it was told is zero if the stream is paused and the current level's directive otherwise; and a paused stream has no subscriber |
| MediaPlanes.PauseAndResume | src/main/sfu/media-plane.ts:63-81 | losing the last subscriber and gaining another restores the level, streak and all |
| MediaPlanes.OddRequestsChangeNothing | src/main/sfu/router.ts:102-162 | watching or ending what is not published, or twice, or publishing what is, changes nothing |
| MediaPlanes.StreamsComeAndGo | src/main/sfu/media-plane.ts:51-61 | a stream starts at full quality with nothing known or said about it, and ends with nothing left of it |
| MediaPlanes.DemandIsKept | src/main/sfu/router.ts:154-280 | subscribing and unsubscribing change that subscription, and no other stream's level, samples or pause |
| MediaPlanes.SfuMediaPlane.OnDemandChanged | src/main/sfu/media-plane.ts:63-81 | pauses with the zero directive, or resumes at the current level |
| MediaPlanes.SfuMediaPlane.RunGovernorOnce | src/main/sfu/media-plane.ts:109-113 | sends the directives of one evaluation, each once and in the order of the streams |
| MediaPlanes.SendingInOrder | src/main/sfu/media-plane.ts:109-113 | sent in whatever order, the directives of one evaluation leave each owner with its own |
| Stun.DecodeMappedAddress | src/main/net/stun.ts:54-94 | the loop terminates on every input and computes the attribute walk |
| Stun.DecodeInvertsEncode | src/main/net/stun.ts:54-94 | from any success response, whatever other attributes it has, whatever follows them and wherever it is cut short, the first XOR-MAPPED-ADDRESS (section 14.2 of RFC 8489) that is whole comes back, else the first MAPPED-ADDRESS (section 14.1), else an error |
| Stun.MaskedMeans | src/main/net/stun.ts:105-112 | a masked address is read exactly as the address whose every bit is the value's, flipped where cookie and transaction id have a one |
| Stun.PlainMeans | src/main/net/stun.ts:96-130 | an unmasked one is read exactly as its bytes say; a value too short is malformed |
| Stun.EveryAddressCanBeMasked | src/main/net/stun.ts:105-112 | every address of either family has such a value |
| Stun.RejectedExactlyWhen | src/main/net/stun.ts:59-69 | what is too short, of another type, without the cookie or of another transaction is refused as that, by its bytes |
| Stun.BadAddressFails | src/main/net/stun.ts:80-88 | an address attribute that says no address, before any that answers, is an error |
| Stun.XorInPlace | src/main/net/stun.ts:110-112 | the in-place loop masks every byte |
| Stun.EncodeBindingRequest | src/main/net/stun.ts:42-52 | the request's twenty bytes, or an error for a transaction id of another length |

## Left out

- Sockets, TLS, timers, HTTP and process wiring: channels are FIFO queues and time is a parameter.
- JSON and zod parsing: READY, REJECT, PEER_UP, PEER_DOWN and the control messages are datatypes; DATA_H, DATA_P, KICK, frame headers, LEB128 and STUN are bytes.
- Host tokens: random, sent once and never read back by the relay.
- The insides of AES-GCM, SHA, HMAC, Argon2id and ristretto255, the `randomScalar` rejection loop and the `constantTimeEqual` loop; MACs are compared as terms.
- `SfuRouter`'s negotiations, which await between check and insert: only an atomic subscriber relation that emits its events.
- Aliasing: rooms and virtual transports are records held by one object rather than shared objects. The relay's room events each touch one room, and a transport is named by its place in the link's list.
- Heartbeats, `MAX_CONCURRENT_HANDSHAKES`, IP bookkeeping, streams and `bye` handling in the signaling server and client: they queue messages that a mirror ignores, which the model keeps as one step.
- A join whose connection closes between its `join` message and its admission, in the same turn of the event loop.
- Formatting of STUN addresses as text, retransmission and server lists.
- Floating point: losses, pressures and bitrate factors are reals. `baseBackoffMs * 2 ** n` overflows to infinity in the program for very large n, which the cap absorbs unless the base is 0.
- A graceful handoff's room is one incarnation in `Epochs`: a successor that finds the room already gone creates a new one, which starts another history.
- `heartbeat.ts` (pings and the count of missed ones), `openWithRetry` (dials again a few times), `enter` (joins, or hosts where there is no room yet), `relay-config.ts` (reads the relay's address), `argonParamsAcceptable` (bounds on the cost a host may ask for) and the code under `parked/` other than the failover algorithm.
- The order of a survivor's first frames at a new host: older frames of the same peer, still in flight at the claim, can arrive before its hello, so the model claims no such order.
