# NATMesh: a verified model

NATMesh joins machines behind NATs into virtual networks. A control server registers nodes, gives each a
virtual address and forwards packets between them; two clients punch a direct UDP path and secure it with a
Noise-style handshake; a UDP relay carries packets when punching fails. This project models the stateful core
of the program and proves what it promises over whole runs. `dafny verify dfyconfig.toml` checks all of it.

## How the model is built

Objects the program updates in place are classes with the same fields, and loops are loops. Each method is
proved against a function of the old state; the main results are lemmas about all runs of those functions. Every
handler of the server, of the relay and of the client's I/O thread runs on one thread, so one handler is one
step. Clocks, random draws, what the network does and what a library answers are parameters of the steps.

| file | component |
|---|---|
| `Basics.dfy` | bytes, machine integers, octet order, character search |
| `Noise.dfy` | the handshake object, over abstract DH, hash, HKDF and AEAD functions |
| `Puncher.dfy` | one end of a punch, with timers that may fire late, and when its retry timer is set |
| `Session.dfy` | two ends over a network that loses, repeats and reorders; the same over real SHA-256 and HKDF |
| `Agreement.dfy` | when two ends hold the same keys, whatever arrives and whichever draws fail |
| `Divergence.dfy` | rounds that end with two successful ends and different keys |
| `Client.dfy` | mode machine, TUN bridge and sequence numbers above the puncher |
| `Tunnel.dfy` | two clients in one round, from TUN device to TUN device, directly and through the relay |
| `Sha256.dfy`, `Hmac.dfy` | buffered SHA-256 against FIPS 180-4; HMAC against RFC 2104; HKDF against RFC 5869 |
| `Sha256Facts.dfy`, `Sha256Vector.dfy` | the word functions and constants of SHA-256 in bits and integers; the standard's example digest |
| `Base64Url.dfy`, `Jwt.dfy` | base64url and tokens |
| `Password.dfy`, `Hex.dfy` | stored passwords, hexadecimal text |
| `Ip.dfy`, `Allocator.dfy` | address text and the first-fit allocator in 32-bit arithmetic |
| `Subnets.dfy` | the CIDR text of a network: what is read from it, and what nodes are told |
| `ControlPlane.dfy`, `ControlServer.dfy` | registry, session map, authentication, sweep, routing; as steps and as objects |
| `Liveness.dfy` | which nodes the control server's registry holds, told from the history alone |
| `Records.dfy` | what an entry of that registry tells, field by field, from the history; what is stored |
| `Relay.dfy` | the relay and its expiring registry |
| `Queues.dfy` | the outgoing queues of both ends of the control channel, and session login |
| `Lifecycle.dfy` | sessions and registry together: late callbacks of replaced sessions |

Three things are assumed of the abstract functions, and only where a lemma says so: DH commutes and derives
32-octet public keys, decoding undoes encoding, and opening undoes sealing of a text that is not empty
(`Suite.LawfulDh`, `LawfulText`, `LawfulSeal`). The handshake results need only the first two. Sealing an empty
text is undefined in the program, which counts the associated data into its length then
(src/crypto/NoiseProtocol.cpp:411-422); the client never asks for it. A codec of token claims parses what it
dumps (`Codec.Lawful`). What is proved of tokens and stored passwords holds for every MAC function; the methods
are proved with the program's own HMAC-SHA256 in its place.

The handshake resembles Noise KK, and the model does what the code does: both ends compute the last DH term from
the initiator's ephemeral and the responder's static key (src/crypto/NoiseProtocol.cpp:211 and :233), and
handshake payloads are not encrypted. Conformance to KK is not claimed.

A retransmission assigns the stored handshake message from a span over that message itself
(src/client/UdpPuncher.cpp:281, :519 and :568, through :540), which the library does not define; the model takes it to
leave the message as it is.

Where the code and its own comments disagree the model follows the code:

- The plain WebSocket disconnect handler says it keeps the node in the registry with its session offline
  (src/http/http_server.cpp:1787-1790), but its guard returns while the session is still mapped
  (src/http/http_server.cpp:1798-1802). `ControlPlane.WsDisconnectKeepsSessions` proves that it takes no node offline in any reachable state.
- The salt of a stored password has 16 bytes and is written as 32 (src/service/user_service.cpp:138-139). What
  the other 16 are is arbitrary here, and does not matter (`Password.StoredVerifies`).
- `InnerSHA256` (src/service/user_service.cpp:17-87) repeats the class of src/auth/jwt.cpp statement for
  statement; one class models both.

Eight properties hold only under a condition, and what the condition is has been proved:

- Whatever arrives at the two ends and whichever draws fail, their keys agree if the responder answers this round's
  message 1, has received no message 1 before, and the initiator takes that answer (`Agreement.GuardedEndsAgree`). In
  general two complete ends agree if what the responder mixed before it answered leaves the protocol name as it was and
  both hold the same DH secrets, and otherwise only if HKDF gives one output for two different arguments of that very
  exchange (`Agreement.EndsAgreeExactly`). A message 1 or a message 2 of another round, and a message 1 of any round on
  which the draw fails, break it: the punchers' own handlers report success at both ends (`Divergence.StaleRound`,
  `Divergence.StaleAnswerRound`, `Divergence.RetriedRound`), and for a lawful suite the keys do differ
  (`Divergence.StaleRoundDiverges`, `Divergence.StaleAnswerDiverges`, `Divergence.RetriedRoundDiverges`).
- A handshake can still finish on new datagrams while the retry timer is set (`Session.CanStillFinish`), which it is
  exactly while a message 1 waits and no failure has been reported since it was stored (`Puncher.RetryIsSet`). After a
  failure only an acknowledgement makes the initiator send again (`Puncher.OnlyAcksResend`), and that lets it finish too
  (`Session.AckLetsFinish`). A retry handler already queued when the failure cancels its timer still runs, and sets it
  again.
- What a client writes to TUN is a packet the other read, or one the server handed down, unless it came through the relay
  and was a test message (`Tunnel.TunIdentity`, `Tunnel.RelayedExactly`). Clients in mode RELAY greet each other with
  such messages, and one whose TUN device is open decodes the greeting as hexadecimal text and writes it
  (src/client/TestClient.cpp:793-799 and :875-892; `Tunnel.TestMessageIsWritten`).
- Addresses stay unique, in every continuation in which nodes keep their network, exactly when no registered address
  can be granted again in its network (`ControlPlane.StaysUniqueExactly`). A run stays that way exactly as long as
  no node brings an address along that another node of the network it moves to has, or that the pool there may
  still grant (`ControlPlane.MoveStaysUniqueExactly`, `ControlPlane.CarefulRuns`). Both ways of breaking it are
  shown from the start of the server (`ControlPlane.MovedNodeCollides`, `ControlPlane.BroughtAddressIsGranted`).
- A packet in mode P2P goes directly to the peer exactly when sealing and sending it work, and to the server otherwise
  (`Client.P2PFallsBackExactly`).
- A callback of a session that has been replaced leaves the newer session alone, except over TLS when its write path
  reports an error, or when it had been dropped by a sweep or a disconnect before the newer one registered
  (`Lifecycle.LateCallback`).
- The associated data of a packet always tells its number; two pairs of ids share it exactly if they are one text with the
  bar between them, which needs a bar in a sender's name (`Puncher.AdTells`, `Puncher.AdAmbiguous`).
- A pool stays strictly between its gateway and broadcast addresses for every prefix up to 30; which pools of
  prefix 31 and 32 do is said by `Allocator.InsideExactly`.

## Model

| member | source | states |
|---|---|---|
| Session.KeyAgreement | src/client/UdpPuncher.cpp:255-296 | in every run over a lossy, repeating, reordering network, the initiator completes only after the responder, and once both have, their keys are crossed and are those of the one chaining key, and transcript hash and chaining key are equal |
| Session.CompletedIsFrozen | src/crypto/NoiseProtocol.cpp:182-240 | whatever happens later, a completed end never changes its keys, and a completed responder keeps the message 2 made from the draw of its keys |
| Session.DuplicateMessage1 | src/client/UdpPuncher.cpp:275-284 | a completed responder answers a repeated message 1 with the very same message 2 and changes no key |
| Session.DuplicateMessage2 | src/client/UdpPuncher.cpp:285-292 | a completed initiator ignores a repeated message 2 |
| Session.PacketIdentity | src/client/UdpPuncher.cpp:298-342 | every packet handed over at an end, in every run, is the one the other end accepted for sending under that number, under its name; of an empty one, only the number is sure |
| Session.PacketArrives | src/client/UdpPuncher.cpp:378-424 | a packet sealed in one state of a run is handed over unchanged in any later one, once the receiver has completed: key, nonce and associated data are rebuilt alike |
| Session.CanStillFinish | src/client/UdpPuncher.cpp:556-571 | in every reachable state in which the retry timer is set, the retry, its delivery and that of the answer complete both ends, on datagrams sent from then on alone |
| Session.AckLetsFinish | src/client/UdpPuncher.cpp:513-521 | in every reachable state with a message 1 waiting, failed or not, an acknowledgement still in flight lets both ends complete in the same way |
| Session.PunchConnects | src/client/UdpPuncher.cpp:182-296 | in every reachable state in which the initiator has not succeeded and a punch of its is in flight, four deliveries complete both ends: that punch, and three times what the last receiver put out first |
| Session.RoundConnects | src/client/UdpPuncher.cpp:67-91 | so a round whose initiator has a target can complete from its start |
| Session.InitPunches | src/client/UdpPuncher.cpp:426-445 | starting puts a punch to every target in flight, at either end |
| Session.PunchIsAcknowledged | src/client/UdpPuncher.cpp:182-217 | in every reachable state and at either end, a punch of the other is acknowledged to where it came from, which becomes the peer |
| Session.DiscoveredIsPunched | src/client/UdpPuncher.cpp:192-212 | the next burst punches back to where a punch came from |
| Session.PacketRepeats | src/client/UdpPuncher.cpp:298-342 | there is no replay window: a packet's datagram delivered again at any later time is handed over again |
| Puncher.RetryIsSet | src/client/UdpPuncher.cpp:458-571 | over every run the retry timer is set only while a message 1 waits, and is if no failure was reported since that was stored; exactly then unless a retry handler ran late |
| Puncher.StepRetry | src/client/UdpPuncher.cpp:458-571 | what every handler does to the retry timer: the first storing of a message 1 sets it, a retry renews it, a failure cancels it |
| Puncher.TimeoutGivesUp | src/client/UdpPuncher.cpp:458-476 | a timeout while a message 1 waits reports the failure and cancels the retry |
| Puncher.OnlyAcksResend | src/client/UdpPuncher.cpp:513-532 | after that the initiator sends a handshake message again exactly if it hears an acknowledgement before it succeeds, and it punches no more |
| Puncher.PeerIsFollowed | src/client/UdpPuncher.cpp:189-305 | over every run of a punch, packets go to where the latest datagram came from that tells where the peer is |
| Puncher.BurstsGoOn | src/client/UdpPuncher.cpp:426-445 | over every run a puncher with targets goes on punching exactly until it succeeds, is acknowledged or times out, and each burst goes to every target given or found since |
| Puncher.RestartIsFresh | src/client/UdpPuncher.cpp:55-91 | configured and started again, a puncher knows nothing of what it did before and punches every target |
| Puncher.TargetsStayDistinct | src/client/UdpPuncher.cpp:194-212 | over every run a burst sends one punch to an endpoint, however often it is heard from |
| Puncher.TimersAreSpent | src/client/UdpPuncher.cpp:426-571 | once an end has succeeded its timers, however late, send and report nothing |
| Puncher.SendsExactly | src/client/UdpPuncher.cpp:378-424 | a packet is accepted for sending exactly after success, with a known peer, a number that is not negative, and a library and a socket that work |
| Puncher.AdTells | src/client/UdpPuncher.cpp:573-577 | two packets share their associated data exactly if they share their number and the text of both ids with a bar between, and both ids when no sender's name holds a bar |
| Puncher.AdAmbiguous | src/client/UdpPuncher.cpp:573-577 | two pairs of ids share it otherwise |
| Agreement.GuardedEndsAgree | src/crypto/NoiseProtocol.cpp:182-240 | over all runs of both punchers under any datagrams and failed draws: equal keys, if the responder answered this round's message 1 having received none before and the initiator took that answer |
| Agreement.EndsAgreeExactly | src/crypto/NoiseProtocol.cpp:182-240 | over all such runs, once both are complete: equal keys if what was mixed before the answer left the name as it was and both hold the same secrets, and otherwise only by an HKDF collision inside the exchange |
| Agreement.AgreeExactly | src/crypto/NoiseProtocol.cpp:286-310 | the same of any two complete handshake objects of the two roles |
| Agreement.KeyBeforeIs | src/crypto/NoiseProtocol.cpp:192-206 | the chaining key a responder answers with is the starting one with es and ss of every message 1 heard and not answered |
| ConcreteSession.ConcreteAgreement | src/crypto/NoiseProtocol.cpp:286-310 | key agreement with the program's own SHA-256 and HKDF in place of abstract ones, and 32-octet keys |
| Noise.HandshakeAgrees | src/crypto/NoiseProtocol.cpp:159-240 | the two completed ends of one handshake hold crossed keys, equal hashes and equal chaining keys, from DH commuting alone |
| Divergence.StaleMessage1 | src/crypto/NoiseProtocol.cpp:182-218 | answering a message 1 from another draw completes both ends; equal DH secrets give equal keys, and equal keys need equal secrets or an HKDF collision inside this exchange |
| Divergence.StaleRound | src/client/UdpPuncher.cpp:275-292 | the punchers' own handlers reach that state, and both report success |
| Divergence.StaleRoundDiverges | src/client/UdpPuncher.cpp:275-292 | with a lawful suite and given draws the two ends then hold different keys |
| Divergence.RetriedMessage1 | src/crypto/NoiseProtocol.cpp:192-206 | a message 1, of this round or another, on which the draw fails stays mixed in; answering this round's then gives equal keys if that changed nothing, and otherwise only by an HKDF collision inside this exchange |
| Divergence.RetriedRound | src/client/UdpPuncher.cpp:275-292 | the punchers' own handlers reach that state, and both report success |
| Divergence.RetriedRoundDiverges | src/client/UdpPuncher.cpp:275-292 | with a lawful suite the two ends then hold different keys, whichever round the lost message was of |
| Divergence.StaleAnswerRound | src/client/UdpPuncher.cpp:285-292 | a message 2 of another round that overtakes this round's completes the initiator, and both ends report success |
| Divergence.StaleAnswerDiverges | src/client/UdpPuncher.cpp:285-292 | with a lawful suite and given draws the two ends then hold different keys |
| Noise.BuildMessage1Keeps | src/crypto/NoiseProtocol.cpp:159-180 | building message 1 completes nothing and leaves a completed object alone |
| Noise.HandleMessage1Keeps | src/crypto/NoiseProtocol.cpp:182-218 | a response is given exactly on becoming complete, and a completed object is left alone |
| Noise.HandleMessage2Keeps | src/crypto/NoiseProtocol.cpp:220-240 | success is reported exactly on becoming complete, and a completed object is left alone |
| Noise.NonceInjective | src/crypto/NoiseProtocol.cpp:35-41 | distinct 64-bit numbers give distinct nonces |
| Noise.NonceReads | src/crypto/NoiseProtocol.cpp:35-41 | a nonce is four zero octets and the number, least significant octet first, as an integer |
| Noise.BuildNonce | src/crypto/NoiseProtocol.cpp:35-41 | the byte loop writes four zeros and the number, least significant octet first |
| Noise.NoiseProtocol.constructor | src/crypto/NoiseProtocol.cpp:260-280 | hash and chaining key start from the protocol name, and both static keys are mixed in the initiator's order at either end |
| Noise.NoiseProtocol.Mix | src/crypto/NoiseProtocol.cpp:282-284 | the hash absorbs the data and nothing else changes |
| Noise.NoiseProtocol.Chain | src/crypto/NoiseProtocol.cpp:286-294 | the chaining key becomes the first half of HKDF and nothing else changes |
| Noise.NoiseProtocol.DeriveKeys | src/crypto/NoiseProtocol.cpp:296-310 | the two halves become send and receive key, crossed by role |
| Noise.NoiseProtocol.BuildHandshakeMessage1 | src/crypto/NoiseProtocol.cpp:159-180 | whole new state and result, with every refusal and failure |
| Noise.NoiseProtocol.HandleHandshakeMessage1 | src/crypto/NoiseProtocol.cpp:182-218 | whole new state and result, with every refusal and failure |
| Noise.NoiseProtocol.HandleHandshakeMessage2 | src/crypto/NoiseProtocol.cpp:220-240 | whole new state and result, with every refusal and failure |
| Noise.NoiseProtocol.Encrypt | src/crypto/NoiseProtocol.cpp:242-249 | seals under the send key once complete, refuses before, and fails when the library does |
| Noise.NoiseProtocol.Decrypt | src/crypto/NoiseProtocol.cpp:251-258 | opens under the receive key once complete, refuses before |
| Puncher.PunchOutcome | src/client/UdpPuncher.cpp:458-511 | over every run of one punch, with late timers: at most one success, no failure after it, and a success exactly when the handshake completes |
| Puncher.StepSound | src/client/UdpPuncher.cpp:143-376 | every handler keeps success, readiness and completion equal, and reports a success exactly on reaching it |
| Puncher.LaunchSound | src/client/UdpPuncher.cpp:55-91 | a configured and started puncher has achieved nothing and has sent only punches |
| Puncher.UdpPuncher.Configure | src/client/UdpPuncher.cpp:55-65 | a fresh handshake object, and every handshake field reset |
| Puncher.UdpPuncher.Start | src/client/UdpPuncher.cpp:67-91 | the state is reset, the timeout armed, and a punch goes to every target |
| Puncher.UdpPuncher.DoSendPunch | src/client/UdpPuncher.cpp:426-445 | one punch to each target in order, and the burst rearmed, unless done |
| Puncher.UdpPuncher.CompleteSecurePunch | src/client/UdpPuncher.cpp:478-511 | one success report, and none a second time |
| Puncher.UdpPuncher.StartNoiseHandshake | src/client/UdpPuncher.cpp:513-532 | a stored message 1 is resent rather than built again |
| Puncher.UdpPuncher.SendNoiseHandshake | src/client/UdpPuncher.cpp:534-554 | what is sent is stored for retransmission |
| Puncher.UdpPuncher.ScheduleNoiseRetry | src/client/UdpPuncher.cpp:556-571 | only an initiator waiting for message 2 rearms |
| Puncher.UdpPuncher.HandleRetry | src/client/UdpPuncher.cpp:556-571 | a retry resends the stored message unless the punch has succeeded |
| Puncher.UdpPuncher.HandleTimeout | src/client/UdpPuncher.cpp:458-476 | unless the punch has succeeded, a failure is reported and the retry timer cancelled |
| Puncher.UdpPuncher.HandleBurst | src/client/UdpPuncher.cpp:426-445 | the next burst |
| Puncher.UdpPuncher.AddSender | src/client/UdpPuncher.cpp:194-212 | the search loop adds a new sender to the targets once |
| Puncher.UdpPuncher.HandlePunch | src/client/UdpPuncher.cpp:182-217 | every punch is acknowledged; only the expected peer's is remembered |
| Puncher.UdpPuncher.HandleAck | src/client/UdpPuncher.cpp:219-253 | an acknowledgement starts the handshake at the initiator and only waits at the responder |
| Puncher.UdpPuncher.HandleNoiseHandshake | src/client/UdpPuncher.cpp:255-296 | whole new state and datagrams for both stages, repeats included |
| Puncher.UdpPuncher.HandlePacket | src/client/UdpPuncher.cpp:298-342 | hands over exactly what opens under the receive key |
| Puncher.UdpPuncher.HandleReceive | src/client/UdpPuncher.cpp:143-376 | datagrams for others and one's own are dropped before dispatch |
| Puncher.UdpPuncher.SendPeerPacket | src/client/UdpPuncher.cpp:378-424 | one sealed datagram to the known peer, or refusal, or failure of the AEAD call or of the socket |
| Client.ModeIsOutcome | src/client/TestClient.cpp:758-780 | in every run the success flag is mode P2P, the done flag is any mode but PUNCHING, and P2P holds exactly while a puncher with a completed handshake is there |
| Client.P2PFallsBackExactly | src/client/TestClient.cpp:1042-1061 | in mode P2P a TUN packet goes to the server exactly when sealing or sending it fails; otherwise it leaves sealed in one datagram, and a number sealed with is spent either way |
| Client.TunReadGoes | src/client/TestClient.cpp:1009-1121 | in every mode exactly one thing carrying the packet leaves: to the server in PUNCHING and FAILED, to the peer or else the server in P2P, to the relay in RELAY; only an empty packet, or one in RELAY before the relay answered, goes nowhere |
| Client.PunchStartOutcome | src/client/TestClient.cpp:641-756 | a request to punch during an attempt is ignored; any other starts over, and with a good key and a port gives a fresh puncher for that peer and role that has punched every target |
| Client.TimeoutDecides | src/client/TestClient.cpp:758-780 | an attempt that times out ends in mode RELAY exactly if there is a relay, with its setup to run, and in FAILED otherwise |
| Client.ReadyExactly | src/client/TestClient.cpp:865-873 | over every run TUN is ready exactly once opened, and the client registered only after the relay answered |
| Client.NothingBeforeTun | src/client/TestClient.cpp:1063-1121 | over every run in which TUN is not opened nothing is written to it, by the peer, the relay or the server |
| Client.RelayIsDropped | src/client/TestClient.cpp:145-161 | after a reconnect the packets of the relay are dropped until relay mode has been set up again |
| Client.RelayRound | src/client/TestClient.cpp:784-873 | relay mode from its setup on: one registration, heartbeats, what is read goes to the relay once it has answered, and what arrives is written if TUN was open at the setup |
| Client.NothingBeforeSetup | src/client/TestClient.cpp:784-892 | until the setup has run, and without a puncher, neither the relay nor a timer makes the client do anything |
| Client.LogsOnlyStays | src/client/TestClient.cpp:793-807 | set up while TUN is closed, relay mode never writes what arrives, even once TUN is open |
| Client.NoncesNeverRepeat | src/client/TestClient.cpp:1042-1050 | over a whole client run with re-punches, reconnects and relay messages, no two encryptions share a nonce |
| Client.RunRises | src/client/TestClient.cpp:875-884 | numbers given to encryption strictly rise across every kind of event that draws one |
| Tunnel.TunIdentity | src/client/TestClient.cpp:1009-1121 | in every run of two clients over lossy, repeating networks, the relay among them, what one writes to TUN is byte for byte a packet the other read, one the server handed down, or the bytes read out of a test message of the other |
| Tunnel.RelayedExactly | src/client/TestClient.cpp:793-799 | what a client sends through the relay is the text of a packet it has read exactly unless it is a test message, and comes out at TUN as that packet, or as what the test message decodes to |
| Tunnel.RelayArrives | src/client/TestClient.cpp:1063-1121 | a packet read in mode RELAY, once registered, goes to the relay, and is written unchanged wherever it comes out with a TUN device open |
| Tunnel.TestMessageIsWritten | src/client/TestClient.cpp:875-892 | in a run in which nobody reads a packet and the server hands none down, a test message is written to TUN |
| Tunnel.TestIsNoPacket | src/client/TestClient.cpp:879-880 | no test message is the hexadecimal text of any packet |
| Tunnel.TunArrives | src/client/TestClient.cpp:1042-1061 | a packet read from TUN in mode P2P is one datagram in flight, and whenever that reaches the other client in mode P2P, whatever happened in between, exactly that packet is written there |
| Tunnel.RunLinked | src/client/TestClient.cpp:1009-1061 | every run of the two clients is a run of the two punchers, and every datagram, relay packet, TUN write and accepted packet of theirs is accounted for |
| Client.NextKeepsMode | src/client/TestClient.cpp:641-756 | every event keeps the mode invariant, from any state that has it |
| Client.TestClient.ResetPunch | src/client/TestClient.cpp:145-161 | flags, mode and puncher are reset and nothing else |
| Client.TestClient.HandlePunchStart | src/client/TestClient.cpp:641-756 | ignored during a punch; otherwise resets, checks the key, binds and launches, with each failure on the way |
| Client.TestClient.HandlePunchResult | src/client/TestClient.cpp:758-780 | mode and flags for success, relay fallback and failure |
| Client.TestClient.EnterRelayMode | src/client/TestClient.cpp:784-852 | mode RELAY, the attempt done, and the setup posted |
| Client.TestClient.SetUpRelay | src/client/TestClient.cpp:790-848 | the relay callback, to TUN if it is open and to the log otherwise, the registration, and the test timer |
| Client.TestClient.HandleRelayPacket | src/client/TestClient.cpp:793-807 | a packet from the relay goes to TUN under the one callback and nowhere under the other |
| Client.TestClient.HandleRelayRegistered | src/client/TestClient.cpp:865-873 | the client is registered once the relay says so |
| Client.TestClient.SendRelayHeartbeat | src/client/UdpPuncher.cpp:644-662 | a heartbeat to the relay while it is in use |
| Client.TestClient.SendRelayTestMessage | src/client/TestClient.cpp:875-892 | a numbered greeting through the relay, if registered and a peer is known |
| Client.TestClient.Drain | src/client/TestClient.cpp:727-736 | the callbacks of a handler are heard in order |
| Client.TestClient.HandleDatagram | src/client/TestClient.cpp:727-736 | a datagram's effect on puncher and client together |
| Client.TestClient.HandleTimeout | src/client/TestClient.cpp:727-730 | a punch timeout's effect on puncher and client together |
| Client.TestClient.HandleBurst | src/client/UdpPuncher.cpp:438-444 | a burst's effect on puncher and client together |
| Client.TestClient.HandleRetry | src/client/UdpPuncher.cpp:563-570 | a retry's effect on puncher and client together |
| Client.TestClient.SendTunPacketToServer | src/client/TestClient.cpp:1042-1061 | direct send in mode P2P with a fresh number, server otherwise or when it fails |
| Client.TestClient.SendDirect | src/client/TestClient.cpp:1045-1049 | a fresh number, the record of a sealing, and the datagram if it leaves |
| Client.TestClient.NewPuncher | src/client/TestClient.cpp:719-751 | a puncher bound, configured and started |
| Client.TestClient.TunToRelay | src/client/TestClient.cpp:1063-1090 | one relay packet with a fresh number, if registered |
| Client.TestClient.RelayToTun | src/client/TestClient.cpp:1092-1121 | writes the decoded bytes when TUN is up |
| Client.TestClient.HandleTunRead | src/client/TestClient.cpp:1009-1040 | relay in mode RELAY, the direct or server path otherwise |
| Sha256.SHA256.Update | src/auth/jwt.cpp:24-36 | the object then holds everything fed so far, as hash of whole blocks and buffered rest, for every split into calls |
| Sha256.SHA256.Digest | src/auth/jwt.cpp:38-62 | the digest is SHA-256 of FIPS 180-4 of all bytes fed, one or two padding blocks |
| Sha256.SHA256.Transform | src/auth/jwt.cpp:85-114 | one compression of section 6.2.2, with the working variables rotated in place |
| Sha256.SHA256.Expand | src/auth/jwt.cpp:87-95 | the schedule array is the message schedule of section 6.2.2 |
| Sha256.SHA256.constructor | src/auth/jwt.cpp:72-83 | starts from the initial hash value with nothing fed |
| Sha256.SigmasAgree | src/auth/jwt.cpp:116-118 | rotations by two shifts are the rotations of section 4.1.2 |
| Sha256.PadUnique | src/auth/jwt.cpp:41-48 | the number of zero octets is the only one that completes a block |
| Sha256.LengthWraps | src/auth/jwt.cpp:40 | the 64-bit length field is the bit length modulo 2^64 |
| Sha256.PadBlocks | src/auth/jwt.cpp:38-54 | the blocks written at the end are exactly the padding of section 5.1.1 |
| Sha256.ScheduleIs | src/auth/jwt.cpp:88-95 | the message schedule is the block read in words and then the standard recurrence |
| Sha256Facts.ChChooses | src/auth/jwt.cpp:102 | Ch takes the bit of the second argument where the first has a one, and of the third elsewhere |
| Sha256Facts.MajAgrees | src/auth/jwt.cpp:105 | Maj has the bit that any two of its arguments agree on |
| Sha256Facts.SumIs | src/auth/jwt.cpp:94 | words are added modulo 2^32, as integers |
| Sha256Facts.WordIs | src/auth/jwt.cpp:89 | four octets are read most significant first, as an integer |
| Sha256Facts.WordRoundTrip | src/auth/jwt.cpp:56-59 | writing a word as octets is undone by reading them |
| Sha256Facts.BigEndianAt | src/auth/jwt.cpp:48-51 | octet i of the length field is the number divided by 256 as often as octets follow it, modulo 256 |
| Sha256Facts.InitialIsRooted | src/auth/jwt.cpp:72-83 | the initial words are the first 32 bits of the fractional parts of the square roots of the first eight primes, in integers |
| Sha256Facts.KIsRooted | src/auth/jwt.cpp:128-145 | the round constants are those of the cube roots of the first 64 primes |
| Sha256Vector.AbcHash | src/auth/jwt.cpp:85-114 | the digest of "abc" is the one the standard publishes, derived turn by turn |
| Hmac.HmacSha256 | src/auth/jwt.cpp:147-183 | HMAC of RFC 2104 for keys of any length |
| Hmac.HmacSha256Raw | src/service/user_service.cpp:14-107 | the same function on 32-octet keys |
| Hmac.HmacSha256OneShot | src/crypto/NoiseProtocol.cpp:63-89 | the same function over a one-shot hash |
| Hmac.XorByteFlips | src/auth/jwt.cpp:165-173 | a bit of the padded key flips exactly where the mask has a one |
| Hmac.MacIs | src/auth/jwt.cpp:147-183 | the MAC is the outer hash over the inner one, of pads that differ from the key in the bits of 0x36 and 0x5c and no others |
| Hmac.Hkdf | src/crypto/NoiseProtocol.cpp:366-386 | terminates for every length and yields the first octets of T(1), T(2), ... with a one-octet counter |
| Hmac.HkdfPrefix | src/crypto/NoiseProtocol.cpp:366-386 | a shorter output is a prefix of a longer one |
| Hmac.HkdfHalves | src/crypto/NoiseProtocol.cpp:366-386 | the two halves the handshake takes are the first two blocks of the expansion, written out as MACs |
| Base64Url.RoundTrip | src/auth/jwt.cpp:189-239 | decoding the repadded stripped encoding of any bytes gives them back |
| Base64Url.StripRestores | src/auth/jwt.cpp:263-270 | repadding undoes stripping, and no encoded part has a dot |
| Base64Url.Injective | src/auth/jwt.cpp:189-204 | different bytes have different stripped encodings |
| Base64Url.LetterIs | src/auth/jwt.cpp:187 | the letters are those of RFC 4648 section 5, in its order |
| Base64Url.GroupSpells | src/auth/jwt.cpp:193-202 | three octets and their four letters spell one number, most significant first |
| Base64Url.ShortGroupSpells | src/auth/jwt.cpp:193-202 | a last group of one or two octets spells them followed by zero bits, and is padded |
| Base64Url.StrippedLetters | src/auth/jwt.cpp:263-265 | a stripped encoding holds letters of that alphabet only, and no padding |
| Base64Url.ValueIs | src/auth/jwt.cpp:210-229 | a letter is read as its place in the alphabet, other characters from '-' to 'z' as 0 |
| Base64Url.DecodesExactly | src/auth/jwt.cpp:206-239 | decoding stays inside the table exactly if every character lies between these |
| Base64Url.Base64Encode | src/auth/jwt.cpp:189-204 | the loop encodes groups of three, with padding at the end |
| Base64Url.Base64Decode | src/auth/jwt.cpp:206-239 | the loop decodes groups of four, and says when a character falls outside the table |
| Base64Url.Strip | src/auth/jwt.cpp:263-265 | removes all trailing padding |
| Base64Url.Restore | src/auth/jwt.cpp:306-307 | pads to the next multiple of four |
| Jwt.GeneratedVerifies | src/auth/jwt.cpp:246-329 | a generated token gives back its claims at every time before exp, and nothing from exp on |
| Jwt.AcceptedExactly | src/auth/jwt.cpp:281-329 | a token is accepted exactly when it is two dotless parts with their signature, and the second decodes to claims that have not expired |
| Jwt.CutJoins | src/auth/jwt.cpp:281-291 | the two searches cut a token where it was joined |
| Jwt.ForgeryIsCollision | src/auth/jwt.cpp:281-302 | two different tokens accepted with one signature part sign two different inputs with one MAC |
| Jwt.SignatureReads | src/auth/jwt.cpp:274-276 | the signature part of a token is unpadded text of that alphabet and decodes to the MAC of what is before it |
| Jwt.AcceptedSignature | src/auth/jwt.cpp:293-302 | the signature part of an accepted token decodes to the MAC of the first two parts |
| Jwt.GeneratedLetters | src/auth/jwt.cpp:246-279 | a generated token is three parts of letters of that alphabet, joined by dots |
| Jwt.UndefinedExactly | src/auth/jwt.cpp:304-309 | the decoding table is overrun exactly on a correctly signed token whose payload part has a character before '-' or after 'z' |
| Jwt.GenerateToken | src/auth/jwt.cpp:246-279 | header, claims and signature joined as specified, or failure of the dump |
| Jwt.VerifyToken | src/auth/jwt.cpp:281-329 | the verdict, with every rejection |
| Password.StoredVerifies | src/service/user_service.cpp:122-174 | for every salt and whatever lies beyond it, the stored hash accepts its password, and another exactly when both derive the same key |
| Password.VerifiesExactly | src/service/user_service.cpp:144-174 | exactly which hashes a password fits: tag, any rounds field, salt field read leniently, derived key |
| Password.WrappedSearchFails | src/service/user_service.cpp:147-150 | without a second dollar after the tag the search wraps to the start, and the hash is refused |
| Password.SaltReadBack | src/service/user_service.cpp:152-159 | reading the salt field gives back the 16 bytes |
| Password.WrongPasswordCollides | src/service/user_service.cpp:122-174 | a stored password accepts another one exactly when the two derivations meet: one MAC output for two different arguments, of the first MACs or of a step of the chains |
| Password.OtherSaltCollides | src/service/user_service.cpp:122-174 | the same of two salts under one password |
| Password.RoundsAreMacs | src/service/user_service.cpp:130-137 | the number written in the rounds field is the number of MACs the key is derived with |
| Password.SameKeyExactly | src/service/user_service.cpp:130-133 | two inputs derive one key exactly when their chains meet |
| Password.StoredText | src/service/user_service.cpp:135-141 | the stored text, field by field |
| Password.PairIsStrtol | src/service/user_service.cpp:156-159 | what is read from two characters is what the C library reads from them in base 16, whatever they are |
| Password.DigitReads | src/service/user_service.cpp:156-159 | the digits of base 16 are sixteen characters in either case |
| Password.ShortSaltIsPadded | src/service/user_service.cpp:156-159 | a salt field too short reads as if zeros followed it, and a single last digit does not count |
| Password.DeriveKey | src/service/user_service.cpp:130-133 | ten thousand MACs, the first over password and salt |
| Password.HashPassword | src/service/user_service.cpp:122-142 | the stored text |
| Password.ReadSalt | src/service/user_service.cpp:152-159 | the parsing loop, stopping at the end of a short field |
| Password.VerifyPassword | src/service/user_service.cpp:144-174 | the verdict for every text |
| Hex.RoundTrip | src/client/TestClient.cpp:24-33 | both decoders give back every byte sequence |
| Hex.EncodeSpells | src/http/http_server.cpp:359-368 | a byte is written as the digits of its high and its low half, in lower case |
| Hex.NibbleReads | src/http/http_server.cpp:370-384 | digits are read in either case, and every other character counts as 0 |
| Hex.DecodeReads | src/client/TestClient.cpp:1098-1112 | each byte read is that of its two characters; only the client reads a single last one, as a high half |
| Hex.HexEncode | src/http/http_server.cpp:359-368 | the loop writes two lower-case digits a byte |
| Hex.HexDecode | src/http/http_server.cpp:370-384 | pairs of digits, a last single one dropped, other characters counted as zero |
| Hex.DecodeForTun | src/client/TestClient.cpp:1098-1112 | pairs of digits, a last single one completed by the terminating zero |
| Ip.ParseIsPrint | src/ipam/IpAllocator.cpp:12-23 | a text is the printed form of an address exactly when parsing and printing it agree |
| Ip.PrintInjective | src/ipam/IpAllocator.cpp:18-23 | parsing undoes printing, and different addresses print differently |
| Ip.UnreadableIsZero | src/ipam/IpAllocator.cpp:12-16 | a text that is no printed address reads as 0.0.0.0 |
| Ip.Ipv4DstIs | src/http/http_server.cpp:386-392 | the destination text equals an address's printed form exactly when the packet is IPv4 and its destination octets are that address |
| Allocator.MaskIsBlock | src/ipam/IpAllocator.cpp:25-35 | bitwise and and or with a mask of low ones, in any word width, are rounding down and up to a block |
| Allocator.NetworkIsBlock | src/ipam/IpAllocator.cpp:25-29 | for every prefix, 0 among them, the network address is the start of the block |
| Allocator.SubnetEnds | src/ipam/IpAllocator.cpp:25-35 | a subnet is one aligned block with the same ends for every address in it |
| Allocator.InsideExactly | src/ipam/IpAllocator.cpp:59-88 | which pools scan only addresses strictly between gateway and broadcast: all up to prefix 30, and exactly which of 31 and 32 |
| Allocator.GrantIsNew | src/ipam/IpAllocator.cpp:90-113 | after any run of addPool, allocate and free, allocation gives the lowest free address, never an outstanding one, never the gateway; and nothing exactly when the range is full |
| Allocator.FreshPoolGrants | src/ipam/IpAllocator.cpp:90-113 | an unreserved pool grants exactly 2^(32-prefix)-3 addresses, in order |
| Allocator.RunInv | src/ipam/IpAllocator.cpp:59-129 | every run keeps outstanding addresses taken and inside their pool's range |
| Allocator.TakenExactly | src/ipam/IpAllocator.cpp:59-129 | after any run of adding, granting and freeing, an address is taken exactly if it was given or reserved and not freed since |
| Subnets.CidrReads | src/ipam/IpAllocator.cpp:37-55 | for every text: refused without a slash or with a prefix outside 0 to 32, an exception when no number that fits an int follows the slash, and otherwise the network of the address before it and the prefix after it |
| Subnets.StoiReads | src/ipam/IpAllocator.cpp:48 | the number parser skips blanks, takes a sign and the digits after it, and ignores the rest; without digits, or beyond an int, it throws |
| Subnets.PrintedCidr | src/ipam/IpAllocator.cpp:37-55 | the printed form of any address and prefix up to 32 is read back, and a larger prefix is refused |
| Subnets.DefaultCidr | src/ipam/IpAllocator.cpp:59-88 | the default network gives 253 addresses |
| Subnets.PoolsAreConfigured | src/http/http_server.cpp:583-594 | in every reachable state the pool of a network is the subnet configured for it, or for the default network, or 10.0.0.0/24, and configured networks have theirs from the start |
| Subnets.SubnetReadsBack | src/http/http_server.cpp:601-610 | in every reachable state, whatever the configuration, the subnet text told to nodes reads back as the network's pool |
| Subnets.GatewayIsReserved | src/ipam/IpAllocator.cpp:71-74 | in every reachable state the gateway of a network is taken in its pool, and for a prefix below 32 is the first address of the subnet after its base |
| Subnets.FreshPoolReserves | src/ipam/IpAllocator.cpp:74-79 | a pool just made for a network reserves that gateway and nothing else |
| Allocator.IpAllocator.AddPool | src/ipam/IpAllocator.cpp:59-88 | the pool made from a CIDR, or refusal, or the exception of the number parser; of prefix 0, only that its shift is undefined |
| Allocator.IpAllocator.Allocate | src/ipam/IpAllocator.cpp:90-113 | the 32-bit scan takes the first free address, and ends if there is one or the range ends below 2^32 - 1 |
| Allocator.IpAllocator.Free | src/ipam/IpAllocator.cpp:115-129 | removes the address of the text, if it was taken |
| ControlPlane.RegistryMatchesSessions | src/http/http_server.cpp:933-1036 | in every reachable state the session map holds exactly the nodes whose session is online, states say online or grace accordingly, and both counts are equal |
| ControlPlane.NextAgrees | src/http/http_server.cpp:1702-1823 | every handler keeps that agreement |
| ControlPlane.WsDisconnectKeepsSessions | src/http/http_server.cpp:1791-1807 | because of its guard the plain WebSocket handler takes no node offline in any reachable state |
| ControlPlane.AddressesStayUnique | src/http/http_server.cpp:579-650 | while nodes keep their network, every registered address is allocated in its network's pool, no two nodes of a network share one, and a node that stays registered keeps its own |
| ControlPlane.AuthUniqueExactly | src/http/http_server.cpp:596-599 | from any state with sound pools, an authentication keeps addresses unique exactly when no other node of the network has the address this one ends with |
| ControlPlane.StaysUniqueExactly | src/http/http_server.cpp:579-650 | addresses stay unique in every continuation in which nodes keep their network exactly when none can be granted again |
| ControlPlane.MoveStaysUniqueExactly | src/http/http_server.cpp:596-599 | an event, moves included, leaves them so exactly when the address brought along is nobody's in that network and cannot be granted there |
| ControlPlane.CarefulRuns | src/http/http_server.cpp:579-650 | from the start of the server, a run stays so throughout exactly when all its moves are of that kind |
| ControlPlane.MovedNodeCollides | src/http/http_server.cpp:579-599 | three authentications after which two nodes of one network share an address: one moved to where another has its address |
| ControlPlane.BroughtAddressIsGranted | src/http/http_server.cpp:579-599 | three authentications, none bringing along an address another node has, after which two nodes share one: a newcomer is granted what a moved node brought |
| ControlPlane.AuthIs | src/http/http_server.cpp:579-610 | an accepted node is in the network named, with the address it had or the lowest free one there, and with that network's gateway; no other node changes |
| ControlPlane.GrantIs | src/ipam/IpAllocator.cpp:90-113 | a granted address could be granted before and is the only one that cannot be any more; other pools are unchanged, and a refusal changes nothing |
| ControlPlane.PersistKeepsPools | src/service/network_service.cpp:73-110 | persisting a node whose network has a pool never takes a second address, and does not throw |
| ControlPlane.GatewaysStayRecorded | src/http/http_server.cpp:601-607 | in every reachable state the gateway and the subnet recorded with a node are its network's |
| ControlPlane.EnsurePoolIs | src/http/http_server.cpp:583-594 | the network has a pool afterwards, and existing pools are unchanged |
| ControlPlane.RunAddressed | src/http/http_server.cpp:439-461 | address uniqueness over every run, timeouts included, with pools only filling up |
| ControlPlane.PoolsRunDry | src/http/http_server.cpp:439-461 | no event gives an address back, so a network grants 2^(32-prefix)-3 in all: over every run a node without an address gets one exactly while fewer have been granted, however many nodes have gone since |
| ControlPlane.EveryGrantCounts | src/http/http_server.cpp:579-610 | over every run the addresses a network has left are those it had less those granted |
| Liveness.PresentExactly | src/nat/node_registry.cpp:143-157 | over every run with a monotonic clock, in events and times alone: a node is registered exactly if an authentication of it was accepted and at every check since some accepted authentication, heartbeat or address update came less than the timeout before |
| Liveness.SilentIsGone | src/nat/heartbeat_monitor.cpp:35-58 | a node silent for the timeout is absent after the next check until it is accepted again |
| Liveness.CheckKeepsSessions | src/nat/heartbeat_monitor.cpp:35-58 | a check keeps exactly the sessions of the nodes renewed less than the timeout before it, each with its session object |
| Liveness.UsualAccepts | src/http/http_server.cpp:1705-1725 | with configured prefixes from 1 to 30 every authentication that names a node is accepted |
| Liveness.EntryTells | src/nat/node_registry.cpp:4-53 | an entry dates from an accepted authentication and carries the time of the latest renewal |
| Records.EntryIsRecorded | src/nat/node_registry.cpp:4-90 | in every reachable state every field of an entry, and the session mapped, is what the latest event of its kind left: address, transport, round-trip time, reconnect count, session state, reason, key |
| Records.PersistedIs | src/http/http_server.cpp:613-650 | an authentication stores exactly the node's address and its membership, if the bootstrap admin exists, and nothing else changes a row |
| Records.JoinOutcome | src/service/network_service.cpp:73-110 | joining makes a known device a member once; an address it has it keeps, and one without gets a grantable address unless the pool is full |
| Records.ThrownIs | src/http/http_server.cpp:1705-1725 | an authentication that throws changes no node, session or pool: nothing at all when the configured subnet has no number, and a member row without an address when only the subnet of the network row has none |
| ControlServer.RouteIsUnique | src/http/http_server.cpp:723-742 | in every reachable state a packet has at most one online node to go to: the one whose registered address is its destination octets, with a session and an allocated address |
| ControlServer.HttpServer.ForwardTunPacket | src/http/http_server.cpp:723-742 | whatever the order of the map, a node that matches is found if there is one |
| ControlServer.GatewayIsNobody | src/http/http_server.cpp:754-755 | in no reachable state does a node hold the gateway address recorded with a node of its network, so what is sent to the gateway is no node's |
| ControlServer.HttpServer.HandleTunPacket | src/http/http_server.cpp:744-779 | to the matching node if there is one and the packet is not for the gateway, else to the gateway device if open; transport marked at both ends |
| ControlServer.ConfigScans | src/ipam/IpAllocator.cpp:59-113 | with configured prefixes from 1 to 30 every pool that can come can be scanned |
| ControlServer.HttpServer.constructor | src/http/http_server.cpp:396-412 | the server over its parts, with such a configuration in a state its handlers accept |
| ControlServer.HttpServer.NodeAuth | src/http/http_server.cpp:1705-1725 | registry, sessions, allocator and database after both callbacks, or after an exception in the first |
| ControlServer.HttpServer.AssignIp | src/http/http_server.cpp:579-610 | the node's record and the pools after assignment, or the exception of the number parser |
| ControlServer.HttpServer.EnsurePersisted | src/http/http_server.cpp:613-650 | device row and membership, if the bootstrap admin exists |
| ControlServer.HttpServer.Join | src/service/network_service.cpp:73-110 | membership, a pool for a network without one, and an address for a device row without one |
| ControlServer.HttpServer.OnWsDisconnect | src/http/http_server.cpp:1791-1807 | the guarded disconnect |
| ControlServer.HttpServer.OnWssDisconnect | src/http/http_server.cpp:1013-1034 | the unguarded disconnect |
| ControlServer.HttpServer.DoCheck | src/nat/heartbeat_monitor.cpp:35-58 | removes exactly the timed-out nodes and their sessions, whatever order they are found in |
| ControlServer.NodeRegistry.Register | src/nat/node_registry.cpp:4-25 | the new entry, with transport, round-trip time and reconnect count carried over |
| ControlServer.NodeRegistry.Heartbeat | src/nat/node_registry.cpp:27-37 | the entry is renewed; a node without a session stays in grace |
| ControlServer.NodeRegistry.SetAddress | src/nat/node_registry.cpp:39-53 | the public and local addresses and the time of a known node |
| ControlServer.NodeRegistry.SetSessionState | src/nat/node_registry.cpp:55-75 | session flag, state and reason of a known node |
| ControlServer.NodeRegistry.SetTransport | src/nat/node_registry.cpp:77-90 | transport mode, and a positive round-trip time |
| ControlServer.NodeRegistry.ListNetworkNodes | src/nat/node_registry.cpp:101-110 | the online nodes of the network, each once, in any order |
| ControlServer.NodeRegistry.OnlineCount | src/nat/node_registry.cpp:134-141 | the number of nodes with a session |
| ControlServer.NodeRegistry.FindTimedOutNodes | src/nat/node_registry.cpp:143-157 | exactly the nodes silent for the timeout |
| ControlServer.SessionManager.Register | src/nat/session_manager.cpp:5-13 | the session is mapped and the one it replaces marked stale |
| ControlServer.SessionManager.Remove | src/nat/session_manager.cpp:15-19 | the session is unmapped, and not marked |
| Relay.PacketOutcome | src/relay/RelayServer.cpp:111-166 | in terms of the history alone: a packet is forwarded, unchanged and once, exactly when both nodes are alive and joined with one network, to where the target last registered from; otherwise the error it gets |
| Relay.PresentExactly | src/relay/RelayRegistry.cpp:69-92 | the registry holds exactly the nodes that registered and were renewed within 30 s of every sweep since |
| Relay.SilentIsGone | src/relay/RelayServer.cpp:212-229 | a node silent for 30 s is absent after the next sweep until it registers again |
| Relay.EntryTells | src/relay/RelayRegistry.cpp:4-27 | an entry carries the network of the first register since the node was absent and the sender of its latest one |
| Relay.HeartbeatOutcome | src/relay/RelayServer.cpp:168-187 | a heartbeat renews an alive node in silence and is an error from any other |
| Relay.RegisterOutcome | src/relay/RelayServer.cpp:76-109 | a register gets one answer to its sender: the confirmation when complete and rightly tokened, and only then is the node alive, else the error that applies |
| Relay.NoAmplification | src/relay/RelayServer.cpp:48-187 | at most one datagram out for one in, only relay packets are forwarded, an unknown type or a malformed datagram gets one error, and registering again changes no network |
| Relay.RelayRegistry.CleanupExpired | src/relay/RelayRegistry.cpp:69-92 | erasing while iterating, in any order, removes exactly the expired entries and returns how many |
| Relay.RelayRegistry.RegisterNode | src/relay/RelayRegistry.cpp:4-27 | a known node gets a new endpoint and time but keeps its network |
| Relay.RelayRegistry.FindEndpoint | src/relay/RelayRegistry.cpp:38-47 | the endpoint of a present node |
| Relay.RelayRegistry.FindNetworkId | src/relay/RelayRegistry.cpp:49-58 | the network of a present node |
| Relay.RelayRegistry.UpdateHeartbeat | src/relay/RelayRegistry.cpp:60-67 | the time of a present node |
| Relay.RelayServer.HandleReceive | src/relay/RelayServer.cpp:39-72 | dispatch, with unknown types and malformed datagrams answered by an error |
| Relay.RelayServer.HandleRegister | src/relay/RelayServer.cpp:76-109 | registration, or the error for missing fields or token |
| Relay.RelayServer.HandleRelayPacket | src/relay/RelayServer.cpp:111-166 | forwarding, or silence, or the error that applies |
| Relay.RelayServer.HandleHeartbeat | src/relay/RelayServer.cpp:168-187 | renewal, or silence, or an error |
| Relay.RelayServer.DoCleanup | src/relay/RelayServer.cpp:223-229 | one sweep at 30 s |
| ClientQueue.FifoNoLostWakeUp | src/client/WsClient.cpp:96-110 | in every interleaving at most one write is in flight, written messages are a prefix of accepted ones, one message at most is lost with a failed write, and a queued message of a healthy connection has a write or a flush on its way |
| ClientQueue.EverythingIsWritten | src/client/WsClient.cpp:245-276 | left to itself a healthy connection stops after a bounded number of steps in any order, and then everything accepted has been written |
| ClientQueue.NextKeeps | src/client/WsClient.cpp:201-276 | every event keeps conservation and wake-up |
| ClientQueue.SentIsWritten | src/client/WsClient.cpp:96-129 | what is sent before and after the reader starts is written in that order, and then nothing is left to do |
| ClientQueue.EndsExactly | src/client/WsClient.cpp:131-181 | a connection ends exactly by a failed read, a failed write or being closed, and only closing stops the reader |
| ClientQueue.EndedStays | src/client/WsClient.cpp:201-276 | then it accepts nothing more, and writes at most the message in flight |
| ClientQueue.WsClient.Send | src/client/WsClient.cpp:96-129 | queued and posted once the reader runs, written at once before, refused when disconnected |
| ClientQueue.WsClient.StartAsync | src/client/WsClient.cpp:183-199 | the reader starts once, on a connected channel |
| ClientQueue.WsClient.DoFlushQueue | src/client/WsClient.cpp:245-276 | the front goes to the stream unless a write is pending |
| ClientQueue.WsClient.OnWritten | src/client/WsClient.cpp:260-268 | completion starts the next write, or failure disconnects |
| ClientQueue.WsClient.OnRead | src/client/WsClient.cpp:204-216 | a read flushes, or failure disconnects |
| SessionQueue.FifoNoLostWakeUp | src/ws/ws_session.cpp:76-83 | in every interleaving at most one write is in flight, written messages are a prefix of accepted ones, and a queued message has a write in flight until one fails, after which none is ever written |
| SessionQueue.EverythingIsWritten | src/ws/wss_session.cpp:132-156 | a session whose writes succeed stops after a bounded number of steps in any order, and then everything accepted has been written |
| SessionQueue.OneIdentity | src/ws/ws_session.cpp:179-300 | a session logs in once, with the node id of the first granted auth, and hands over exactly the well-formed messages after it, in order, under that id |
| SessionQueue.BeforeLogin | src/ws/ws_session.cpp:179-300 | until an auth is granted each message gets one answer, the reason it was refused for, and nothing is handed over |
| SessionQueue.LoginAnswers | src/ws/ws_session.cpp:179-300 | all answers of a session that logs in, in order: the refusals, one acceptance, then only complaints about unreadable messages and failing handlers |
| SessionQueue.SentIsWritten | src/ws/ws_session.cpp:76-83 | an idle session writes what is sent, in order, and is idle again |
| SessionQueue.BreaksExactly | src/ws/ws_session.cpp:140-152 | only a failed write breaks a session |
| SessionQueue.WsSession.SendJson | src/ws/ws_session.cpp:76-83 | the message is posted to the strand |
| SessionQueue.WsSession.RunPosted | src/ws/ws_session.cpp:77-82 | the message is queued, and a write started if none is under way |
| SessionQueue.WsSession.DoWrite | src/ws/ws_session.cpp:130-138 | the front of the queue goes to the stream |
| SessionQueue.WsSession.OnWritten | src/ws/ws_session.cpp:140-152 | success starts the next write; failure stops for good and is reported even when stale |
| Lifecycle.LateCallback | src/ws/wss_session.cpp:109-179 | in every reachable state, a replaced session's read error, write error or heartbeat timer takes the newer session offline exactly over TLS and when it is a write error, or the old session was dropped before the newer one registered |
| Lifecycle.ReplacedIsHit | src/ws/wss_session.cpp:132-156 | from the start of the server, two logins of one node over TLS: a failing write of the first takes the second offline, a failing read does not |
| Lifecycle.DroppedIsHit | src/ws/wss_session.cpp:109-131 | a login, a sweep of it, and another: the first was never told, and its failing read takes the second offline |
| Lifecycle.LoginIsMapped | src/nat/session_manager.cpp:5-13 | a session that logs in is mapped, and the one it replaces is told |
| Lifecycle.NextKeeps | src/nat/session_manager.cpp:5-19 | every session that has logged in stays exactly one of mapped, told it was replaced, or dropped |
| SessionQueue.WsSession.CheckHeartbeat | src/ws/ws_session.cpp:156-177 | a silent session closes and reports once, unless it was replaced |
| SessionQueue.WsSession.HandleMessage | src/ws/ws_session.cpp:179-224 | replies and calls for every kind of message, before and after login, and the reply to an exception |
| SessionQueue.WsSession.HandleAuthMessage | src/ws/ws_session.cpp:226-300 | every refusal, and the login |

## Left out

- Sockets, asio, TLS and JSON text: messages are values, a timer is the fact that it was armed, and parsing undoes dumping.
- X25519, ChaCha20-Poly1305, EVP base64 and random bytes: functions with the laws stated above. Nothing is said about secrecy or about an adversary.
- Session.KeyAgreement: one signalling round between one pair of punchers in which every draw gives a key; other datagrams and failed draws are the matter of `Agreement` and `Divergence`.
- `punch_path_ready_` and the handshake retry counter of the puncher: written and never read. Errors the relay sends back, which are only logged.
- Client.TestClient.SetUpRelay: runs as one step; if the puncher is gone by then the program dereferences a null pointer, and the model does nothing. A relay packet leaves in the step that makes it.
- Tunnel.RelayArrives: what the relay server does with a packet in between is `Relay.PacketOutcome`; here it may lose, repeat and delay.
- Client.ModeIsOutcome: a reconnect of the control channel is one step; races of the `run` thread with the I/O thread, and `stop`, are not modelled.
- Allocator.IpAllocator.AddPool: says nothing of the pool of a prefix of 0, whose shift by 32 is undefined in the program.
- Allocator.IpAllocator.Allocate: a range that ends at 2^32 - 1 with no free address is left out, because there the program's counter wraps and its scan does not end.
- ControlServer.HttpServer.NodeAuth: leaves out configurations with a prefix of 0 or a pool that ends at 2^32 - 1, for these two reasons.
- Session.PacketIdentity: the payload of an empty packet, whose sealing is undefined in the program, is left open.
- ControlPlane.AddressesStayUnique: serial events and configured prefixes from 1 to 30; REST join and leave running beside them are left out, since leaving frees an address the registry may still hold.
- ControlPlane.RegistryMatchesSessions: the device and network rows are kept only as far as they meet the allocator; a row that cannot be written is the case without a bootstrap admin.
- Peer lists, broadcasts and punch signalling of the control server: filters over the registry with little to prove, and the broadcast filter ignores the network.
- Jwt.VerifyToken: on a correctly signed payload with characters outside the decoding table the program reads out of bounds; the verdict `Undefined` stands for that.
- Client sequence numbers: signed overflow at 2^63 - 1 is taken to wrap; the nonce results are for runs of fewer events.
- SessionQueue.EverythingIsWritten: closing a silent session is not part of the queue model. The legacy token login is left out.
- Random salts, wall clocks and token lifetimes are parameters.
- SQLite repositories, REST routing, the admin page, configuration files, certificates, TUN drivers, the GUI, command lines, STUN and the legacy peer manager.
