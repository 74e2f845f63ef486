/**
 The client above its puncher: the mode machine, the TUN bridge and the sequence numbers
 (src/client/TestClient.cpp).

 A reconnect of the control channel is one step, and `stop` ends a run. A callback of the puncher runs
 inside the puncher's handler, so a handler and what the client makes of its reports is one step too. What
 entering relay mode posts is a later step, and so is everything its timers do.
 */
module Client {
  import opened Basics
  import opened Noise
  import opened Puncher
  import Hex
  import Session

  datatype Mode = Punching | P2P | Relay | Failed

  datatype Options = Options(nodeId: string, networkId: string, identity: Keypair, hasRelay: bool)

  /** What the puncher does with a packet from the relay. */
  datatype RelayCallback = NoCallback | WritesTun | LogsOnly

  /** What the client causes: datagrams of the puncher, relay packets, control messages, TUN writes, encryptions. */
  datatype Effect =
    | ToNet(dest: Endpoint, msg: Datagram)
    | ToRelay(from: string, to: string, number: Int64, payload: Bytes)
    | RelayJoin(node: string, network: string)
    | RelayBeat(node: string)
    | ToServer(payload: Bytes)
    | TunWrite(packet: Bytes)
    | Encrypts(key: Bytes, iv: Bytes, number: Int64)

  datatype Client = Client(
    mode: Mode,
    punchSuccess: bool,
    punchDone: bool,
    puncher: Option<Puncher>,
    peerId: string,
    seqNo: Int64,
    registered: bool,
    tunReady: bool,
    /** How often relay mode was entered without its setup having run yet. */
    relayPosts: nat,
    relayCallback: RelayCallback,
    /** Whether the timer of the test messages was ever set. */
    testing: bool)

  const MAX_INT64: int := 0x7FFF_FFFF_FFFF_FFFF

  /** ++ on a 64-bit counter; overflow is taken to wrap. */
  function Increment(n: Int64): (r: Int64)
    ensures (r - n) % TWO_64 == 1
  {
    if n == MAX_INT64 then 0 - MAX_INT64 - 1 else n + 1
  }

  // ----- Handlers as functions -----

  function Fresh(): (r: Client) { 
    Client(Punching, false, false, None, "", 0, false, false, 0, NoCallback, false)
  }

  /** Tearing a finished or stale attempt down. */
  function Reset(c: Client): (r: Client) {
    c.(punchSuccess := false, punchDone := false, mode := Punching, puncher := None, relayCallback := NoCallback)
  }

  function RoleOf(outgoing: bool): (r: Role) { if outgoing then Initiator else Responder }

  function NetOf(out: seq<Output>): (r: seq<Effect>) {
    if out == [] then []
    else (if out[0].Sent? then [ToNet(out[0].dest, out[0].msg)] else []) + NetOf(out[1..])
  }

  /** `key` is the decoded public key of the peer; `bound` is whether the UDP port could be bound. */
  function OnPunchStart(s: Suite, o: Options, c: Client, peer: string, outgoing: bool, key: Option<Bytes>,
                        targets: seq<Endpoint>, bound: bool): (r: (Client, seq<Effect>))
  {
    if !c.punchSuccess && !c.punchDone && c.puncher.Some? then (c, [])
    else
      var r := if c.punchSuccess || c.punchDone then Reset(c) else c;
      if key.None? || |key.value| != KEY_SIZE then (r, [])
      else if !bound then (r.(peerId := peer), [])
      else
        var (p, out) := Launch(s, RoleOf(outgoing), o.identity, key.value, targets, o.nodeId, peer);
        (r.(peerId := peer, puncher := Some(p)), NetOf(out))
  }

  function OnPunchResult(o: Options, c: Client, success: bool): (r: Client) {
    if success then c.(mode := P2P, punchSuccess := true, punchDone := true)
    else if o.hasRelay && c.puncher.Some? then c.(mode := Relay, punchDone := true, relayPosts := c.relayPosts + 1)
    else c.(mode := Failed, punchDone := true)
  }

  function ToTun(c: Client, payload: Bytes): (r: seq<Effect>) {
    if c.tunReady then [TunWrite(Hex.Decode(payload, true))] else []
  }

  /** What the client makes of one report of the puncher. */
  function HearOne(o: Options, c: Client, m: Output): (r: (Client, seq<Effect>)) {
    match m
    case Sent(dest, msg) => (c, [ToNet(dest, msg)])
    case PunchDone(success, _) => (OnPunchResult(o, c, success), [])
    case Delivered(_, payload, _) => (c, ToTun(c, payload))
  }

  function Hear(o: Options, c: Client, out: seq<Output>): (r: (Client, seq<Effect>))
    decreases |out|
  {
    if out == [] then (c, [])
    else
      var (c1, e1) := HearOne(o, c, out[0]);
      var (c2, e2) := Hear(o, c1, out[1..]);
      (c2, e1 + e2)
  }

  function OnInput(s: Suite, o: Options, c: Client, i: Input): (r: (Client, seq<Effect>)) {
    if c.puncher.None? || i.Sends? then (c, [])
    else
      var (p, out) := Step(s, c.puncher.value, i);
      Hear(o, c.(puncher := Some(p)), out)
  }

  /** The record of a sealing, if the attempt gets that far. */
  function Sealings(p: Puncher, n: Int64, w: Outcome): (r: seq<Effect>) {
    if CanSeal(p, n) && !w.SealFails? then [Encrypts(p.noise.value.sendKey, Nonce(n), n)] else []
  }

  /** `w` says what the library and the socket do with a direct send. */
  function SendToServer(s: Suite, o: Options, c: Client, packet: Bytes, w: Outcome): (r: (Client, seq<Effect>)) {
    if packet == [] then (c, [])
    else if c.mode == P2P && c.puncher.Some? && c.peerId != "" then
      var n := Increment(c.seqNo);
      var p := c.puncher.value;
      var (ok, out) := SendPacket(s, p, o.nodeId, c.peerId, n, Hex.Encode(packet), w);
      (c.(seqNo := n), Sealings(p, n, w) + if ok then NetOf(out) else [ToServer(Hex.Encode(packet))])
    else (c, [ToServer(Hex.Encode(packet))])
  }

  function SendToRelay(o: Options, c: Client, payload: Bytes): (r: (Client, seq<Effect>)) {
    if !c.registered || c.peerId == "" then (c, [])
    else
      var n := Increment(c.seqNo);
      (c.(seqNo := n), [ToRelay(o.nodeId, c.peerId, n, payload)])
  }

  /**
   What entering relay mode posts: callbacks, registration, heartbeat and test timer. Without a puncher it is
   undefined.
   */
  function OnRelaySetup(o: Options, c: Client): (r: (Client, seq<Effect>)) {
    if c.relayPosts == 0 || c.puncher.None? then (c, [])
    else
      (c.(relayPosts := c.relayPosts - 1, relayCallback := if c.tunReady then WritesTun else LogsOnly, testing := true),
       [RelayJoin(o.nodeId, o.networkId)])
  }

  predicate HasCallbacks(c: Client) { c.puncher.Some? && c.relayCallback != NoCallback }

  function OnRelayPacket(c: Client, payload: Bytes): (r: seq<Effect>) {
    if HasCallbacks(c) && c.relayCallback == WritesTun then ToTun(c, payload) else []
  }

  function Signed(n: int): (r: string) { if n < 0 then "-" + Decimal(0 - n) else Decimal(n) }

  function TestText(nodeId: string, n: Int64): (r: Bytes) { Ascii("hello-from-" + nodeId + "-seq=" + Signed(n)) }

  function OnRelayTest(o: Options, c: Client): (r: (Client, seq<Effect>)) {
    if !c.testing then (c, []) else SendToRelay(o, c, TestText(o.nodeId, Increment(c.seqNo)))
  }

  function OnTunRead(s: Suite, o: Options, c: Client, packet: Bytes, w: Outcome): (r: (Client, seq<Effect>)) {
    if c.mode == Relay then SendToRelay(o, c, Hex.Encode(packet)) else SendToServer(s, o, c, packet, w)
  }

  datatype Event =
    | PunchStart(peer: string, outgoing: bool, key: Option<Bytes>, targets: seq<Endpoint>, bound: bool)
    | PuncherInput(input: Input)
    | Reconnect
    | TunRead(packet: Bytes, outcome: Outcome)
    | RelaySetup
    | RelayRegistered
    | RelayBeats
    | RelayTest
    | RelayArrived(payload: Bytes)
    | TunOpened
    | ServerPacket(payload: Bytes)

  function Next(s: Suite, o: Options, c: Client, e: Event): (r: (Client, seq<Effect>)) {
    match e
    case PunchStart(peer, outgoing, key, targets, bound) => OnPunchStart(s, o, c, peer, outgoing, key, targets, bound)
    case PuncherInput(input) => OnInput(s, o, c, input)
    case Reconnect => (Reset(c), [])
    case TunRead(packet, w) => OnTunRead(s, o, c, packet, w)
    case RelaySetup => OnRelaySetup(o, c)
    case RelayRegistered => (if HasCallbacks(c) then c.(registered := true) else c, [])
    case RelayBeats => (c, if HasCallbacks(c) then [RelayBeat(o.nodeId)] else [])
    case RelayTest => OnRelayTest(o, c)
    case RelayArrived(payload) => (c, OnRelayPacket(c, payload))
    case TunOpened => (c.(tunReady := true), [])
    case ServerPacket(payload) => (c, ToTun(c, payload))
  }

  function Run(s: Suite, o: Options, c: Client, events: seq<Event>): (r: (Client, seq<Effect>))
    decreases events
  {
    if events == [] then (c, [])
    else
      var (c1, e1) := Next(s, o, c, events[0]);
      var (c2, e2) := Run(s, o, c1, events[1..]);
      (c2, e1 + e2)
  }

  // ----- The mode machine -----

  /** A puncher of this client: sound, under the right names, and with a peer to send to once it has succeeded. */
  ghost predicate Own(o: Options, c: Client, p: Puncher) {
    Sound(p) && p.myId == o.nodeId && p.targetId == c.peerId && (p.success ==> p.peer.Some?)
  }

  ghost predicate ModeInv(o: Options, c: Client) {
    && (c.punchSuccess <==> c.mode == P2P)
    && (c.punchDone <==> c.mode != Punching)
    && (c.mode == P2P <==> c.puncher.Some? && c.puncher.value.noiseReady)
    && (c.mode != Punching ==> c.puncher.Some?)
    && (c.puncher.Some? ==> Own(o, c, c.puncher.value))
  }

  lemma HandshakeKeepsNames(s: Suite, p: Puncher, sender: Endpoint, src: string, stage: int, text: Bytes,
      draw: Option<Bytes>)
    requires p.success ==> p.peer.Some?
    ensures var q := OnHandshake(s, p, sender, src, stage, text, draw).0;
            q.myId == p.myId && q.targetId == p.targetId && (q.success ==> q.peer.Some?)
  {
    hide OnHandshake;
    if stage == 1 {
      Stage1KeepsNames(s, p, sender, src, text, draw);
    } else {
      LaterStageKeepsNames(s, p, sender, src, stage, text, draw);
    }
  }

  lemma Stage1KeepsNames(s: Suite, p: Puncher, sender: Endpoint, src: string, text: Bytes, draw: Option<Bytes>)
    requires p.success ==> p.peer.Some?
    ensures var q := OnHandshake(s, p, sender, src, 1, text, draw).0;
            q.myId == p.myId && q.targetId == p.targetId && (q.success ==> q.peer.Some?)
  {
    hide HandleMessage1;
  }

  lemma LaterStageKeepsNames(s: Suite, p: Puncher, sender: Endpoint, src: string, stage: int, text: Bytes,
      draw: Option<Bytes>)
    requires (p.success ==> p.peer.Some?) && stage != 1
    ensures var q := OnHandshake(s, p, sender, src, stage, text, draw).0;
            q.myId == p.myId && q.targetId == p.targetId && (q.success ==> q.peer.Some?)
  {
    hide HandleMessage2;
  }

  lemma AckKeepsNames(s: Suite, p: Puncher, sender: Endpoint, src: string, draw: Option<Bytes>)
    ensures var q := OnAck(s, p, sender, src, draw).0;
            q.myId == p.myId && q.targetId == p.targetId && q.peer.Some?
  {
    hide StartHandshake;
    StartKeepsNames(s, Discover(p, sender).(punching := false), draw);
  }

  lemma StartKeepsNames(s: Suite, p: Puncher, draw: Option<Bytes>)
    ensures var q := StartHandshake(s, p, draw).0; q.myId == p.myId && q.targetId == p.targetId && q.peer == p.peer
  {
    hide BuildMessage1;
  }

  lemma PacketKeepsNames(s: Suite, p: Puncher, sender: Endpoint, src: string, dst: string, number: Int64, text: Bytes)
    requires p.success ==> p.peer.Some?
    ensures var q := OnPacket(s, p, sender, src, dst, number, text).0;
            q.myId == p.myId && q.targetId == p.targetId && (q.success ==> q.peer.Some?)
  {
  }

  lemma ReceiveKeepsNames(s: Suite, p: Puncher, sender: Endpoint, m: Datagram, draw: Option<Bytes>)
    requires p.success ==> p.peer.Some?
    ensures var q := Receive(s, p, sender, m, draw).0;
            q.myId == p.myId && q.targetId == p.targetId && (q.success ==> q.peer.Some?)
  {
    hide OnHandshake, OnAck, OnPacket;
    match m
    case PunchAck(src, _) => AckKeepsNames(s, p, sender, src, draw);
    case Handshake(src, _, stage, text) => HandshakeKeepsNames(s, p, sender, src, stage, text, draw);
    case Packet(src, dst, number, text) => PacketKeepsNames(s, p, sender, src, dst, number, text);
    case Punch(_, _) =>
    case Other =>
  }

  lemma StepKeepsNames(s: Suite, p: Puncher, i: Input)
    requires p.success ==> p.peer.Some?
    ensures var q := Step(s, p, i).0;
            q.myId == p.myId && q.targetId == p.targetId && (q.success ==> q.peer.Some?)
  {
    hide Receive, Punches, SendPacket;
    if i.Receives? {
      ReceiveKeepsNames(s, p, i.sender, i.msg, i.draw);
    }
  }

  /** What reports of one puncher step do to the client: at most one of them is a result. */
  lemma {:induction false} HearIs(o: Options, c: Client, out: seq<Output>)
    requires Final(out)
    ensures var c' := Hear(o, c, out).0;
            && c' == c.(mode := c'.mode, punchSuccess := c'.punchSuccess, punchDone := c'.punchDone,
                        relayPosts := c'.relayPosts)
            && (Silent(out) ==> c' == c)
            && (ReportsSuccess(out) ==> c'.mode == P2P && c'.punchSuccess && c'.punchDone)
            && (!Silent(out) && !ReportsSuccess(out) ==>
                c'.punchSuccess == c.punchSuccess && c'.punchDone && c'.mode != P2P && c'.mode != Punching)
    decreases |out|
  {
    hide ToTun, Final, ReportsSuccess, Silent, OnPunchResult;
    if out == [] {
      NothingReported();
    } else {
      var rest := out[1..];
      var c1 := if out[0].PunchDone? then OnPunchResult(o, c, out[0].success) else c;
      ResultIs(o, c, true);
      ResultIs(o, c, false);
      ReportsTail(out);
      HearIs(o, c1, rest);
    }
  }

  lemma ResultIs(o: Options, c: Client, success: bool)
    ensures var d := OnPunchResult(o, c, success);
            && d == c.(mode := d.mode, punchSuccess := d.punchSuccess, punchDone := d.punchDone,
                       relayPosts := d.relayPosts)
            && d.punchDone && d.mode != Punching && (d.mode == P2P <==> success)
            && (d.punchSuccess <==> success || c.punchSuccess)
  {
  }

  lemma NothingReported()
    ensures Silent([]) && !ReportsSuccess([])
  {
  }

  lemma ReportsTail(out: seq<Output>)
    requires out != [] && Final(out)
    ensures ReportsSuccess(out) <==> (out[0].PunchDone? && out[0].success) || ReportsSuccess(out[1..])
    ensures Silent(out) <==> !out[0].PunchDone? && Silent(out[1..])
    ensures out[0].PunchDone? && out[0].success ==> Silent(out[1..])
    ensures Final(out[1..]) && (Silent(out[1..]) ==> !ReportsSuccess(out[1..]))
  {
    if ReportsSuccess(out[1..]) {
      var i :| 0 <= i < |out[1..]| && out[1..][i].PunchDone? && out[1..][i].success;
      assert out[i + 1] == out[1..][i];
    }
    if ReportsSuccess(out) {
      var i :| 0 <= i < |out| && out[i].PunchDone? && out[i].success;
      if i > 0 {
        assert out[1..][i - 1] == out[i];
      }
    }
    assert out == [out[0]] + out[1..];
  }

  lemma InputKeepsMode(s: Suite, o: Options, c: Client, i: Input)
    requires ModeInv(o, c)
    ensures ModeInv(o, OnInput(s, o, c, i).0)
  {
    hide Step, Hear;
    if c.puncher.Some? && !i.Sends? {
      var (p, out) := Step(s, c.puncher.value, i);
      StepSound(s, c.puncher.value, i);
      StepKeepsNames(s, c.puncher.value, i);
      HearIs(o, c.(puncher := Some(p)), out);
    }
  }

  lemma PunchStartKeepsMode(s: Suite, o: Options, c: Client, peer: string, outgoing: bool, key: Option<Bytes>,
      targets: seq<Endpoint>, bound: bool)
    requires ModeInv(o, c)
    ensures ModeInv(o, OnPunchStart(s, o, c, peer, outgoing, key, targets, bound).0)
  {
    hide Launch, NetOf, Sound;
    if key.Some? {
      LaunchSound(s, RoleOf(outgoing), o.identity, key.value, targets, o.nodeId, peer);
      NotReady(Launch(s, RoleOf(outgoing), o.identity, key.value, targets, o.nodeId, peer).0);
    }
  }

  lemma NextKeepsMode(s: Suite, o: Options, c: Client, e: Event)
    requires ModeInv(o, c)
    ensures ModeInv(o, Next(s, o, c, e).0)
  {
    hide OnInput, OnPunchStart, SendPacket, NetOf, Own, Sealings, TestText, ToTun, Hex.Encode;
    match e
    case PunchStart(peer, outgoing, key, targets, bound) =>
      PunchStartKeepsMode(s, o, c, peer, outgoing, key, targets, bound);
    case PuncherInput(i) => InputKeepsMode(s, o, c, i);
    case Reconnect =>
    case TunRead(_, _) => OwnFrame(o, c, Next(s, o, c, e).0);
    case RelaySetup => OwnFrame(o, c, Next(s, o, c, e).0);
    case RelayRegistered => OwnFrame(o, c, Next(s, o, c, e).0);
    case RelayBeats =>
    case RelayTest => OwnFrame(o, c, Next(s, o, c, e).0);
    case RelayArrived(_) =>
    case TunOpened => OwnFrame(o, c, Next(s, o, c, e).0);
    case ServerPacket(_) =>
  }

  lemma OwnFrame(o: Options, c: Client, d: Client)
    requires c.peerId == d.peerId && c.puncher == d.puncher
    ensures c.puncher.Some? ==> Own(o, c, c.puncher.value) == Own(o, d, d.puncher.value)
  {
  }

  lemma NotReady(p: Puncher)
    requires Sound(p) && !p.success
    ensures !p.noiseReady
  {
  }

  /**
   In every state of every run: the success flag is mode P2P, the done flag is any mode but Punching, and
   the mode is P2P exactly while there is a puncher whose handshake has completed.
   */
  lemma {:induction false} ModeIsOutcome(s: Suite, o: Options, c: Client, events: seq<Event>)
    requires ModeInv(o, c)
    ensures var end := Run(s, o, c, events).0;
            && ModeInv(o, end)
            && (end.punchSuccess <==> end.mode == P2P) && (end.punchDone <==> end.mode != Punching)
            && (end.mode == P2P <==> end.puncher.Some? && end.puncher.value.noiseReady)
            && (end.mode == P2P ==> end.puncher.value.noise.Some? && end.puncher.value.noise.value.complete)
    decreases events
  {
    if events != [] {
      hide Next, ModeInv;
      NextKeepsMode(s, o, c, events[0]);
      ModeIsOutcome(s, o, Next(s, o, c, events[0]).0, events[1..]);
    }
  }

  lemma FreshIsInMode(o: Options)
    ensures ModeInv(o, Fresh())
  {
  }

  // ----- Starting over -----

  /** One punch to every target, on the wire. */
  ghost predicate PunchesSent(effects: seq<Effect>, targets: seq<Endpoint>, myId: string, peer: string) {
    && |effects| == |targets|
    && forall k :: 0 <= k < |effects| ==> effects[k] == ToNet(targets[k], Punch(myId, peer))
  }

  lemma {:induction false} NetOfSent(out: seq<Output>)
    requires forall m :: m in out ==> m.Sent?
    ensures |NetOf(out)| == |out| && forall k :: 0 <= k < |out| ==> NetOf(out)[k] == ToNet(out[k].dest, out[k].msg)
  {
    if out != [] {
      assert out[0] in out;
      NetOfSent(out[1..]);
    }
  }

  lemma LaunchPunches(s: Suite, role: Role, local: Keypair, remote: Bytes, targets: seq<Endpoint>, myId: string,
      peer: string)
    ensures var (p, out) := Launch(s, role, local, remote, targets, myId, peer);
            && p.punching && !p.success && p.myId == myId && p.targetId == peer
            && p.noise == Some(Initial(s, role, local, remote)) && PunchesSent(NetOf(out), targets, myId, peer)
  {
    hide Initial, NetOf;
    var blank := Puncher("", "", targets, false, false, None, false, false, false, 0, [], None, {}, false);
    RestartIsFresh(s, blank, role, local, remote, myId, peer);
    LaunchSound(s, role, local, remote, targets, myId, peer);
    NetOfSent(Launch(s, role, local, remote, targets, myId, peer).1);
  }

  /**
   What a request to punch does. One that comes while an attempt is under way is ignored. Otherwise the client is in
   mode PUNCHING again, and with a key of the right size and a port it has a puncher for that peer, in the role asked
   for, which has sent a punch to every target; without either it has none.
   */
  lemma PunchStartOutcome(s: Suite, o: Options, c: Client, peer: string, outgoing: bool, key: Option<Bytes>,
      targets: seq<Endpoint>, bound: bool)
    requires ModeInv(o, c)
    ensures var (d, effects) := Next(s, o, c, PunchStart(peer, outgoing, key, targets, bound));
            if c.mode == Punching && c.puncher.Some? then d == c && effects == []
            else
              && d.mode == Punching && !d.punchDone && d.seqNo == c.seqNo && d.tunReady == c.tunReady
              && d.registered == c.registered && (c.puncher.Some? ==> !HasCallbacks(d))
              && if bound && key.Some? && |key.value| == KEY_SIZE then
                   var role := if outgoing then Initiator else Responder;
                   && d.peerId == peer && d.puncher.Some? && d.puncher.value.punching && !d.puncher.value.success
                   && d.puncher.value.myId == o.nodeId && d.puncher.value.targetId == peer
                   && d.puncher.value.noise == Some(Initial(s, role, o.identity, key.value))
                   && PunchesSent(effects, targets, o.nodeId, peer)
                 else d.puncher.None? && effects == []
  {
    hide Launch, NetOf, Initial, Own, PunchesSent;
    if key.Some? {
      LaunchPunches(s, RoleOf(outgoing), o.identity, key.value, targets, o.nodeId, peer);
    }
  }

  /**
   An attempt that times out leaves the client in mode RELAY if it has a relay, and with its setup to run, or FAILED.
   */
  lemma TimeoutDecides(s: Suite, o: Options, c: Client)
    requires ModeInv(o, c) && c.mode == Punching && c.puncher.Some? && Timeout in c.puncher.value.armed
    ensures var (d, effects) := Next(s, o, c, PuncherInput(TimesOut));
            && d.mode == (if o.hasRelay then Relay else Failed) && effects == []
            && d.relayPosts == c.relayPosts + (if o.hasRelay then 1 else 0)
            && d.puncher.Some? && !d.puncher.value.punching
  {
    assert c.puncher.value.noiseReady == c.puncher.value.success;
    var p := c.puncher.value.(punching := false, retrySet := false);
    HearNothing(o, OnPunchResult(o, c.(puncher := Some(p)), false));
    assert [PunchDone(false, c.puncher.value.targetId)][1..] == [];
  }

  /** TUN is ready exactly once it was opened, and the relay has the client only after an answer of the relay. */
  lemma {:induction false} ReadyExactly(s: Suite, o: Options, c: Client, events: seq<Event>)
    ensures var end := Run(s, o, c, events).0;
            && (end.tunReady <==> c.tunReady || TunOpened in events)
            && (end.registered ==> c.registered || RelayRegistered in events)
    ensures !Fresh().tunReady && !Fresh().registered && Fresh().seqNo == 0
    decreases events
  {
    if events != [] {
      NextReady(s, o, c, events[0]);
      hide Next;
      ReadyExactly(s, o, Next(s, o, c, events[0]).0, events[1..]);
    }
  }

  lemma NextReady(s: Suite, o: Options, c: Client, e: Event)
    ensures var d := Next(s, o, c, e).0;
            && (d.tunReady <==> c.tunReady || e.TunOpened?) && (d.registered ==> c.registered || e.RelayRegistered?)
            && (d.relayCallback == NoCallback || d.relayCallback == c.relayCallback || e.RelaySetup?)
  {
    hide Step, Hear, SendPacket, Launch, Sealings, NetOf;
    if e.PuncherInput? && c.puncher.Some? && !e.input.Sends? {
      var (p, out) := Step(s, c.puncher.value, e.input);
      HearFrame(o, c.(puncher := Some(p)), out);
    }
  }

  lemma {:induction false} HearFrame(o: Options, c: Client, out: seq<Output>)
    ensures var d := Hear(o, c, out).0;
            d.tunReady == c.tunReady && d.registered == c.registered && d.relayCallback == c.relayCallback
    decreases |out|
  {
    hide ToTun;
    if out != [] {
      HearFrame(o, HearOne(o, c, out[0]).0, out[1..]);
    }
  }

  predicate Writes(effects: seq<Effect>) { exists e :: e in effects && e.TunWrite? }

  /** While TUN is not open nothing is written to it. */
  lemma {:induction false} NothingBeforeTun(s: Suite, o: Options, c: Client, events: seq<Event>)
    requires !c.tunReady && TunOpened !in events
    ensures !Writes(Run(s, o, c, events).1)
    decreases events
  {
    if events != [] {
      var (d, effects) := Next(s, o, c, events[0]);
      NextReady(s, o, c, events[0]);
      NextWrites(s, o, c, events[0]);
      hide Next;
      NothingBeforeTun(s, o, d, events[1..]);
      assert forall e :: e in effects + Run(s, o, d, events[1..]).1 ==>
          e in effects || e in Run(s, o, d, events[1..]).1;
    }
  }

  lemma NextWrites(s: Suite, o: Options, c: Client, e: Event)
    requires !c.tunReady
    ensures !Writes(Next(s, o, c, e).1)
  {
    hide Step, Hear, SendPacket, Launch, NetOf, Hex.Encode, TestText, Nonce;
    match e
    case PunchStart(peer, outgoing, key, targets, _) =>
      if key.Some? {
        NetOfIs(Launch(s, RoleOf(outgoing), o.identity, key.value, targets, o.nodeId, peer).1);
      }
    case PuncherInput(i) =>
      if c.puncher.Some? && !i.Sends? {
        var (p, out) := Step(s, c.puncher.value, i);
        HearWrites(o, c.(puncher := Some(p)), out);
      }
    case TunRead(packet, w) =>
      if c.puncher.Some? {
        NetOfIs(SendPacket(s, c.puncher.value, o.nodeId, c.peerId, Increment(c.seqNo), Hex.Encode(packet), w).1);
      }
    case _ =>
  }

  lemma {:induction false} HearWrites(o: Options, c: Client, out: seq<Output>)
    requires !c.tunReady
    ensures !Writes(Hear(o, c, out).1)
    decreases |out|
  {
    if out != [] {
      var (d, effects) := HearOne(o, c, out[0]);
      HearWrites(o, d, out[1..]);
      assert forall e :: e in effects + Hear(o, d, out[1..]).1 ==> e in effects || e in Hear(o, d, out[1..]).1;
    }
  }

  lemma RunOne(s: Suite, o: Options, c: Client, e: Event, rest: seq<Event>)
    ensures var (d, effects) := Next(s, o, c, e);
            var (end, later) := Run(s, o, d, rest);
            Run(s, o, c, [e] + rest) == (end, effects + later)
  {
    hide Next;
    assert ([e] + rest)[1..] == rest;
  }

  lemma RunNone(s: Suite, o: Options, c: Client)
    ensures Run(s, o, c, []) == (c, [])
  {
  }

  /**
   Relay mode from its setup on: the client joins its network at the relay, keeps the entry alive, sends what it reads
   there once the relay has answered, and writes what comes from there if TUN was open at the setup.
   */
  lemma RelayRound(s: Suite, o: Options, c: Client, packet: Bytes, w: Outcome, arrived: Bytes)
    requires c.mode == Relay && c.relayPosts > 0 && c.puncher.Some? && c.peerId != "" && 0 <= c.seqNo < MAX_INT64
    ensures var up := [RelaySetup] + ([RelayRegistered] + ([RelayBeats] + []));
            var (d, effects) := Run(s, o, c, up);
            && effects == [RelayJoin(o.nodeId, o.networkId), RelayBeat(o.nodeId)]
            && d.relayPosts == c.relayPosts - 1 && d.tunReady == c.tunReady
            && Next(s, o, d, TunRead(packet, w)).1 == [ToRelay(o.nodeId, c.peerId, c.seqNo + 1, Hex.Encode(packet))]
            && Next(s, o, d, RelayArrived(arrived)).1
               == if c.tunReady then [TunWrite(Hex.Decode(arrived, true))] else []
  {
    hide Run, Hex.Encode, Hex.Decode, SendPacket, OnPunchStart, OnInput;
    var d1 := Next(s, o, c, RelaySetup).0;
    var d2 := Next(s, o, d1, RelayRegistered).0;
    RunOne(s, o, c, RelaySetup, [RelayRegistered] + ([RelayBeats] + []));
    RunOne(s, o, d1, RelayRegistered, [RelayBeats] + []);
    RunOne(s, o, d2, RelayBeats, []);
    RunNone(s, o, d2);
  }

  /** Until its setup has run, and without a puncher, relay mode does nothing, whatever its timers and the relay do. */
  lemma NothingBeforeSetup(s: Suite, o: Options, c: Client, e: Event)
    requires e.RelayRegistered? || e.RelayBeats? || e.RelayArrived? || e.RelayTest? || e.RelaySetup?
    requires c.relayCallback == NoCallback
    requires (e.RelayTest? ==> !c.testing) && (e.RelaySetup? ==> c.puncher.None? || c.relayPosts == 0)
    ensures Next(s, o, c, e) == (c, [])
    ensures Fresh().relayCallback == NoCallback && !Fresh().testing && Fresh().relayPosts == 0
  {
    hide OnPunchStart, OnInput, OnTunRead, TestText;
  }

  /** Set up while TUN is closed, relay mode never writes what arrives, even once TUN is open. */
  lemma LogsOnlyStays(s: Suite, o: Options, c: Client, arrived: Bytes)
    requires c.relayPosts > 0 && c.puncher.Some? && !c.tunReady
    ensures var d := Next(s, o, Next(s, o, c, RelaySetup).0, TunOpened).0;
            d.tunReady && Next(s, o, d, RelayArrived(arrived)).1 == []
  {
    hide OnPunchStart, OnInput, OnTunRead, TestText, Hex.Decode;
  }

  /** After the control channel reconnects, what the relay sends is dropped until relay mode has been set up again. */
  lemma {:induction false} RelayIsDropped(s: Suite, o: Options, c: Client, events: seq<Event>, payload: Bytes)
    requires forall e :: e in events ==> !e.RelaySetup?
    ensures Next(s, o, Run(s, o, Next(s, o, c, Reconnect).0, events).0, RelayArrived(payload)).1 == []
  {
    hide Run;
    NoCallbackStays(s, o, Next(s, o, c, Reconnect).0, events);
  }

  lemma {:induction false} NoCallbackStays(s: Suite, o: Options, c: Client, events: seq<Event>)
    requires c.relayCallback == NoCallback && forall e :: e in events ==> !e.RelaySetup?
    ensures Run(s, o, c, events).0.relayCallback == NoCallback
    decreases events
  {
    hide Next;
    if events != [] {
      assert events[0] in events;
      NextReady(s, o, c, events[0]);
      NoCallbackStays(s, o, Next(s, o, c, events[0]).0, events[1..]);
    }
  }

  // ----- Where packets go -----

  /**
   In mode P2P a packet read from TUN goes to the server exactly when sealing or sending it fails. When both
   work it leaves sealed, in one datagram to the peer, under the client's own name and the next number; and a
   number once sealed with is spent even if the datagram does not leave.
   */
  lemma P2PFallsBackExactly(s: Suite, o: Options, c: Client, packet: Bytes, w: Outcome)
    requires ModeInv(o, c) && c.mode == P2P && c.peerId != "" && packet != [] && 0 <= c.seqNo < MAX_INT64
    ensures var p := c.puncher.value;
            var n := c.seqNo + 1;
            var (c', effects) := OnTunRead(s, o, c, packet, w);
            && p.noise.Some? && p.peer.Some? && c' == c.(seqNo := n)
            && (ToServer(Hex.Encode(packet)) in effects <==> !w.Works?)
            && effects
               == (if w.SealFails? then [] else [Encrypts(p.noise.value.sendKey, Nonce(n), n)])
                  + [if w.Works? then ToNet(p.peer.value, Session.Sealed(s, p, n, Hex.Encode(packet)))
                      else ToServer(Hex.Encode(packet))]
  {
    hide PacketAd, Nonce, Session.Sealed;
    var p := c.puncher.value;
    var n := c.seqNo + 1;
    if w.Works? {
      DirectSend(s, o, c, packet);
    } else {
      assert SendPacket(s, p, o.nodeId, c.peerId, n, Hex.Encode(packet), w) == (false, []);
    }
    var sealings := if w.SealFails? then [] else [Encrypts(p.noise.value.sendKey, Nonce(n), n)];
    assert Sealings(p, n, w) == sealings;
  }

  lemma DirectSend(s: Suite, o: Options, c: Client, packet: Bytes)
    requires ModeInv(o, c) && c.mode == P2P && 0 <= c.seqNo < MAX_INT64
    ensures var p := c.puncher.value;
            && p.noise.Some? && p.peer.Some?
            && var m := Session.Sealed(s, p, c.seqNo + 1, Hex.Encode(packet));
            && SendPacket(s, p, o.nodeId, c.peerId, c.seqNo + 1, Hex.Encode(packet), Works)
                == (true, [Sent(p.peer.value, m)])
            && NetOf([Sent(p.peer.value, m)]) == [ToNet(p.peer.value, m)]
  {
    hide PacketAd, Nonce;
    var p := c.puncher.value;
    var m := Session.Sealed(s, p, c.seqNo + 1, Hex.Encode(packet));
    assert [Sent(p.peer.value, m)][1..] == [];
  }

  /** What leaves the machine, or is handed to the server: everything but the records of sealings. */
  function Leaving(effects: seq<Effect>): (r: seq<Effect>) {
    if effects == [] then []
    else (if effects[0].Encrypts? then [] else [effects[0]]) + Leaving(effects[1..])
  }

  /**
   Where a packet read from TUN goes, in each mode: exactly one thing leaves, and it carries the packet. In mode
   PUNCHING or FAILED it goes to the server, in mode P2P to the peer or, failing that, to the server, and in mode RELAY
   to the relay once registered. Only an empty packet, or one read in mode RELAY before that, goes nowhere.
   */
  lemma TunReadGoes(s: Suite, o: Options, c: Client, packet: Bytes, w: Outcome)
    requires ModeInv(o, c) && 0 <= c.seqNo < MAX_INT64
    ensures var sent := Leaving(OnTunRead(s, o, c, packet, w).1);
            if c.mode == Relay then
              if !c.registered || c.peerId == "" then sent == []
              else |sent| == 1 && sent[0].ToRelay? && sent[0].from == o.nodeId && sent[0].to == c.peerId
                   && Hex.Decode(sent[0].payload, true) == packet
            else if packet == [] then sent == []
            else if c.mode == P2P && c.peerId != "" && w.Works? then
              |sent| == 1 && sent[0].ToNet? && sent[0].msg.Packet?
            else |sent| == 1 && sent[0].ToServer? && Hex.Decode(sent[0].payload, false) == packet
  {
    hide Hex.Encode, Hex.Decode, ModeInv, SendPacket, Session.Sealed, Nonce;
    Hex.RoundTrip(packet, true);
    Hex.RoundTrip(packet, false);
    var text := Hex.Encode(packet);
    OneLeaves([], ToServer(text));
    OneLeaves([], ToRelay(o.nodeId, c.peerId, c.seqNo + 1, text));
    assert Leaving([]) == [];
    if c.mode == P2P && c.peerId != "" && packet != [] {
      P2PFallsBackExactly(s, o, c, packet, w);
      DirectLeaves(s, o, c, packet, w);
    }
  }

  lemma OneLeaves(sealings: seq<Effect>, e: Effect)
    requires !e.Encrypts? && |sealings| <= 1 && forall x :: x in sealings ==> x.Encrypts?
    ensures Leaving(sealings + [e]) == [e]
  {
    assert [e][1..] == [] && Leaving([e]) == [e];
    if sealings == [] {
      assert sealings + [e] == [e];
    } else {
      assert (sealings + [e])[1..] == [e] && (sealings + [e])[0] in sealings;
    }
  }

  lemma DirectLeaves(s: Suite, o: Options, c: Client, packet: Bytes, w: Outcome)
    requires ModeInv(o, c) && c.mode == P2P && c.peerId != "" && packet != [] && 0 <= c.seqNo < MAX_INT64
    ensures var sent := Leaving(OnTunRead(s, o, c, packet, w).1);
            if w.Works? then |sent| == 1 && sent[0].ToNet? && sent[0].msg.Packet?
            else sent == [ToServer(Hex.Encode(packet))]
  {
    hide PacketAd, Nonce, Hex.Encode, OnTunRead;
    P2PFallsBackExactly(s, o, c, packet, w);
    var p := c.puncher.value;
    var n := c.seqNo + 1;
    var sealings := if w.SealFails? then [] else [Encrypts(p.noise.value.sendKey, Nonce(n), n)];
    OneLeaves(sealings, if w.Works? then ToNet(p.peer.value, Session.Sealed(s, p, n, Hex.Encode(packet)))
                        else ToServer(Hex.Encode(packet)));
  }

  // ----- Sequence numbers -----

  /** Numbers of encryptions rise, from above `low` up to `high`. */
  ghost predicate Rising(effects: seq<Effect>, low: int, high: int) {
    && (forall i :: 0 <= i < |effects| && effects[i].Encrypts? ==>
          0 <= low < effects[i].number <= high && effects[i].iv == Nonce(effects[i].number))
    && (forall i, j :: 0 <= i < j < |effects| && effects[i].Encrypts? && effects[j].Encrypts? ==>
        effects[i].number < effects[j].number)
  }

  lemma {:induction false} NetOfIs(out: seq<Output>)
    ensures forall e :: e in NetOf(out) ==> e.ToNet?
  {
    if out != [] {
      NetOfIs(out[1..]);
    }
  }

  lemma {:induction false} HearEncryptsNothing(o: Options, c: Client, out: seq<Output>)
    ensures forall e :: e in Hear(o, c, out).1 ==> !e.Encrypts?
    ensures Hear(o, c, out).0.seqNo == c.seqNo
    decreases |out|
  {
    if out != [] {
      HearEncryptsNothing(o, if out[0].PunchDone? then OnPunchResult(o, c, out[0].success) else c, out[1..]);
    }
  }

  lemma OneRises(key: Bytes, low: Int64, n: Int64, rest: seq<Effect>)
    requires 0 <= low < n && forall e :: e in rest ==> !e.Encrypts?
    ensures Rising([Encrypts(key, Nonce(n), n)] + rest, low, n)
  {
    hide Nonce;
    var all := [Encrypts(key, Nonce(n), n)] + rest;
    assert forall i :: 1 <= i < |all| ==> all[i] in rest;
  }

  lemma SealingsRise(p: Puncher, low: Int64, n: Int64, w: Outcome, rest: seq<Effect>)
    requires 0 <= low < n && forall e :: e in rest ==> !e.Encrypts?
    ensures Rising(Sealings(p, n, w) + rest, low, n)
  {
    hide Nonce, Rising;
    if CanSeal(p, n) && !w.SealFails? {
      OneRises(p.noise.value.sendKey, low, n, rest);
    } else {
      assert [] + rest == rest;
      NoneRise(rest, low, n);
    }
  }

  lemma NoneRise(effects: seq<Effect>, low: int, high: int)
    requires forall e :: e in effects ==> !e.Encrypts?
    ensures Rising(effects, low, high)
  {
    hide Nonce;
    assert forall i :: 0 <= i < |effects| ==> effects[i] in effects;
  }

  lemma TunReadRises(s: Suite, o: Options, c: Client, packet: Bytes, w: Outcome)
    requires 0 <= c.seqNo < MAX_INT64
    ensures var (c', effects) := OnTunRead(s, o, c, packet, w);
            c.seqNo <= c'.seqNo <= c.seqNo + 1 && Rising(effects, c.seqNo, c'.seqNo)
  {
    hide NetOf, Sealings, Rising, SendPacket, Hex.Encode;
    var text := Hex.Encode(packet);
    var n := Increment(c.seqNo);
    NoneRise([], c.seqNo, c.seqNo);
    NoneRise([ToServer(text)], c.seqNo, c.seqNo);
    NoneRise([ToRelay(o.nodeId, c.peerId, n, text)], c.seqNo, n);
    if c.puncher.Some? {
      var p := c.puncher.value;
      var (ok, out) := SendPacket(s, p, o.nodeId, c.peerId, n, text, w);
      NetOfIs(out);
      SealingsRise(p, c.seqNo, n, w, if ok then NetOf(out) else [ToServer(text)]);
    }
  }

  lemma NextRises(s: Suite, o: Options, c: Client, e: Event)
    requires 0 <= c.seqNo < MAX_INT64
    ensures var (c', effects) := Next(s, o, c, e);
            c.seqNo <= c'.seqNo <= c.seqNo + 1 && Rising(effects, c.seqNo, c'.seqNo)
  {
    hide Step, Hear, Launch, NetOf, Nonce, OnTunRead;
    match e
    case PuncherInput(i) =>
      if c.puncher.Some? {
        var (p, out) := Step(s, c.puncher.value, i);
        HearEncryptsNothing(o, c.(puncher := Some(p)), out);
        NoneRise(Hear(o, c.(puncher := Some(p)), out).1, c.seqNo, c.seqNo);
      }
    case PunchStart(peer, outgoing, key, targets, _) =>
      if key.Some? {
        var out := Launch(s, RoleOf(outgoing), o.identity, key.value, targets, o.nodeId, peer).1;
        NetOfIs(out);
        NoneRise(NetOf(out), c.seqNo, c.seqNo);
      }
    case TunRead(packet, w) => TunReadRises(s, o, c, packet, w);
    case RelayTest =>
      NoneRise([], c.seqNo, c.seqNo);
      NoneRise(OnRelayTest(o, c).1, c.seqNo, OnRelayTest(o, c).0.seqNo);
    case Reconnect =>
    case RelaySetup =>
    case RelayRegistered =>
    case RelayBeats =>
    case RelayArrived(_) =>
    case TunOpened =>
    case ServerPacket(_) =>
  }

  lemma RisingAppend(a: seq<Effect>, b: seq<Effect>, low: int, mid: int, high: int)
    requires Rising(a, low, mid) && Rising(b, mid, high) && 0 <= low <= mid <= high
    ensures Rising(a + b, low, high)
  {
    hide Nonce;
  }

  lemma {:induction false} RunRises(s: Suite, o: Options, c: Client, events: seq<Event>)
    requires 0 <= c.seqNo && c.seqNo + |events| <= MAX_INT64
    ensures var (end, effects) := Run(s, o, c, events);
            c.seqNo <= end.seqNo <= c.seqNo + |events| && Rising(effects, c.seqNo, end.seqNo)
    decreases events
  {
    hide Next, Rising;
    if events == [] {
      NothingRises(c.seqNo);
    } else {
      var (c1, e1) := Next(s, o, c, events[0]);
      NextRises(s, o, c, events[0]);
      RunRises(s, o, c1, events[1..]);
      var (end, e2) := Run(s, o, c1, events[1..]);
      RisingAppend(e1, e2, c.seqNo, c1.seqNo, end.seqNo);
    }
  }

  lemma NothingRises(n: int)
    ensures Rising([], n, n)
  {
  }

  /**
   Over a whole run of a client, through re-punches, reconnects, relay packets and test messages, no two
   encryptions share a nonce, under whatever keys.
   */
  lemma NoncesNeverRepeat(s: Suite, o: Options, events: seq<Event>, i: nat, j: nat)
    requires |events| <= MAX_INT64
    requires var effects := Run(s, o, Fresh(), events).1;
             i < j < |effects| && effects[i].Encrypts? && effects[j].Encrypts?
    ensures var effects := Run(s, o, Fresh(), events).1;
            effects[i].number < effects[j].number && effects[i].iv != effects[j].iv
  {
    hide Run, Nonce;
    RunRises(s, o, Fresh(), events);
    var effects := Run(s, o, Fresh(), events).1;
    if effects[i].iv == effects[j].iv {
      NonceInjective(effects[i].number, effects[j].number);
    }
  }

  lemma HearDelivery(o: Options, c: Client, src: string, payload: Bytes, number: Int64)
    ensures Hear(o, c, [Delivered(src, payload, number)]).1 == ToTun(c, payload)
  {
    var out := [Delivered(src, payload, number)];
    assert out[1..] == [];
    assert Hear(o, c, out[1..]) == (c, []);
  }

  // ----- The object -----

  lemma {:induction false} HearSent(o: Options, c: Client, out: seq<Output>)
    requires forall m :: m in out ==> m.Sent?
    ensures Hear(o, c, out) == (c, NetOf(out))
    decreases |out|
  {
    if out != [] {
      HearSent(o, c, out[1..]);
    }
  }

  lemma {:induction false} HearMore(o: Options, c: Client, out: seq<Output>, m: Output)
    ensures var (c1, e1) := Hear(o, c, out);
            var (c2, e2) := HearOne(o, c1, m);
            var (c3, e3) := Hear(o, c, out + [m]);
            c3 == c2 && e3 == e1 + e2
    decreases |out|
  {
    hide HearOne;
    if out == [] {
      assert ([] + [m])[1..] == [];
    } else {
      HearMore(o, HearOne(o, c, out[0]).0, out[1..], m);
      assert (out + [m])[1..] == out[1..] + [m];
    }
  }

  lemma LaunchSends(s: Suite, role: Role, local: Keypair, remote: Bytes, targets: seq<Endpoint>, myId: string,
      targetId: string)
    ensures forall m :: m in Launch(s, role, local, remote, targets, myId, targetId).1 ==> m.Sent?
  {
    hide Launch;
    LaunchSound(s, role, local, remote, targets, myId, targetId);
  }

  class TestClient {
    const suite: Suite
    const options: Options
    var mode: Mode
    var punchSuccess: bool
    var punchDone: bool
    var puncher: UdpPuncher?
    var peerId: string
    var seqNo: Int64
    var registered: bool
    var tunReady: bool
    var relayPosts: nat
    var relayCallback: RelayCallback
    var testing: bool
    /** What the client has caused so far. */
    var log: seq<Effect>

    function View(): (r: Client)
      reads this, puncher, if puncher == null then null else puncher.noise
    {
      Client(mode, punchSuccess, punchDone, if puncher == null then None
          else Some(puncher.View()), peerId, seqNo, registered, tunReady, relayPosts, relayCallback, testing)
    }

    ghost predicate Valid()
      reads this, puncher, if puncher == null then null else puncher.noise
    {
      puncher != null ==> puncher.Valid() && puncher.suite == suite
    }

    constructor (s: Suite, o: Options)
      ensures Valid() && suite == s && options == o && View() == Fresh() && log == []
    {
      suite, options, mode, puncher, peerId, log := s, o, Punching, null, "", [];
      punchSuccess, punchDone, seqNo, registered, tunReady := false, false, 0, false, false;
      relayPosts, relayCallback, testing := 0, NoCallback, false;
    }

    /** The part of a reconnect that resets the punch. */
    method ResetPunch()
      requires Valid()
      modifies this
      ensures Valid() && View() == Reset(old(View())) && log == old(log)
    {
      punchSuccess, punchDone, mode := false, false, Punching;
      if puncher != null {
        puncher := null;
      }
      relayCallback := NoCallback;
    }

    method HandlePunchStart(peer: string, outgoing: bool, key: Option<Bytes>, targets: seq<Endpoint>, bound: bool)
      requires Valid()
      modifies this
      ensures Valid()
      ensures var (c, effects) := OnPunchStart(suite, options, old(View()), peer, outgoing, key, targets, bound);
              View() == c && log == old(log) + effects
    {
      hide Launch, Hear, NetOf, Sound;
      if punchSuccess || punchDone {
        ResetPunch();
      } else if puncher != null {
        return;
      }
      if key.None? || |key.value| != KEY_SIZE {
        return;
      }
      peerId := peer;
      if !bound {
        return;
      }
      var role := RoleOf(outgoing);
      puncher := NewPuncher(role, key.value, targets, peer);
      LaunchSends(suite, role, options.identity, key.value, targets, options.nodeId, peer);
      HearSent(options, View(), puncher.out);
      Drain(0);
    }

    /** A puncher made, configured and started. */
    method NewPuncher(role: Role, remote: Bytes, targets: seq<Endpoint>, peer: string) returns (p: UdpPuncher)
      ensures fresh(p) && p.noise != null && fresh(p.noise) && p.Valid() && p.suite == suite
      ensures var (q, out) := Launch(suite, role, options.identity, remote, targets, options.nodeId, peer);
              p.View() == q && p.out == out
    {
      hide StartPunching, ConfigureNoise;
      p := new UdpPuncher(suite, targets);
      p.Configure(role, options.identity, remote);
      p.Start(options.nodeId, peer);
    }

    method HandlePunchResult(success: bool)
      requires Valid()
      modifies this`mode, this`punchSuccess, this`punchDone, this`relayPosts
      ensures Valid() && View() == OnPunchResult(options, old(View()), success)
    {
      if success {
        mode := P2P;
        punchSuccess := true;
        punchDone := true;
      } else {
        mode := Failed;
        if options.hasRelay && puncher != null {
          EnterRelayMode();
        } else {
          punchDone := true;
        }
      }
    }

    method EnterRelayMode()
      requires Valid()
      modifies this`mode, this`punchDone, this`relayPosts
      ensures Valid()
      ensures View() == old(View()).(mode := Relay, punchDone := true, relayPosts := old(relayPosts) + 1)
    {
      mode := Relay;
      relayPosts := relayPosts + 1;
      punchDone := true;
    }

    /** What EnterRelayMode posts. */
    method SetUpRelay()
      requires Valid()
      modifies this`relayPosts, this`relayCallback, this`testing, this`log
      ensures Valid()
      ensures var (c, effects) := OnRelaySetup(options, old(View())); View() == c && log == old(log) + effects
    {
      if relayPosts == 0 || puncher == null {
        return;
      }
      relayPosts := relayPosts - 1;
      if tunReady {
        relayCallback := WritesTun;
      } else {
        relayCallback := LogsOnly;
      }
      log := log + [RelayJoin(options.nodeId, options.networkId)];
      testing := true;
    }

    method HandleRelayPacket(payload: Bytes)
      requires Valid()
      modifies this`log
      ensures Valid() && View() == old(View()) && log == old(log) + OnRelayPacket(View(), payload)
    {
      hide ToTun;
      if puncher != null && relayCallback == WritesTun {
        RelayToTun(payload);
      }
    }

    /** The relay has acknowledged the registration. */
    method HandleRelayRegistered()
      requires Valid()
      modifies this`registered
      ensures Valid() && View() == Next(suite, options, old(View()), RelayRegistered).0
    {
      if puncher != null && relayCallback != NoCallback {
        registered := true;
      }
    }

    method SendRelayHeartbeat()
      requires Valid()
      modifies this`log
      ensures Valid() && View() == old(View())
      ensures log == old(log) + Next(suite, options, View(), RelayBeats).1
    {
      if puncher != null && relayCallback != NoCallback {
        log := log + [RelayBeat(options.nodeId)];
      }
    }

    method SendRelayTestMessage()
      requires Valid()
      modifies this`seqNo, this`log
      ensures Valid()
      ensures var (c, effects) := OnRelayTest(options, old(View())); View() == c && log == old(log) + effects
    {
      hide TestText;
      if !testing || !registered || peerId == "" {
        return;
      }
      seqNo := Increment(seqNo);
      log := log + [ToRelay(options.nodeId, peerId, seqNo, TestText(options.nodeId, seqNo))];
    }

    method RelayToTun(payload: Bytes)
      requires Valid()
      modifies this`log
      ensures Valid() && View() == old(View()) && log == old(log) + ToTun(View(), payload)
    {
      if !tunReady {
        return;
      }
      var packet := Hex.DecodeForTun(payload);
      log := log + [TunWrite(packet)];
    }

    method Report(m: Output)
      requires Valid()
      modifies this`mode, this`punchSuccess, this`punchDone, this`relayPosts, this`log
      ensures Valid()
      ensures var (c, effects) := HearOne(options, old(View()), m); View() == c && log == old(log) + effects
    {
      hide OnPunchResult, ToTun;
      match m
      case Sent(dest, msg) => log := log + [ToNet(dest, msg)];
      case PunchDone(success, _) => HandlePunchResult(success);
      case Delivered(_, payload, _) => RelayToTun(payload);
    }

    /** The callbacks the puncher has run since its log was `from` long. */
    method Drain(from: nat)
      requires Valid() && puncher != null && from <= |puncher.out|
      modifies this`mode, this`punchSuccess, this`punchDone, this`relayPosts, this`log
      ensures Valid()
      ensures var (c, effects) := Hear(options, old(View()), puncher.out[from..]);
              View() == c && log == old(log) + effects
    {
      hide Hear;
      ghost var out := puncher.out;
      var i := from;
      assert out[from..from] == [];
      HearNothing(options, View());
      while i < |puncher.out|
        invariant from <= i <= |out| && Valid() && puncher.out == out
        invariant Hear(options, old(View()), out[from..i]).0 == View()
        invariant log == old(log) + Hear(options, old(View()), out[from..i]).1
      {
        HearMore(options, old(View()), out[from..i], out[i]);
        assert out[from..i + 1] == out[from..i] + [out[i]];
        Report(puncher.out[i]);
        i := i + 1;
      }
      assert out[from..i] == out[from..];
    }

    method HandleDatagram(sender: Endpoint, m: Datagram, draw: Option<Bytes>)
      requires Valid() && puncher != null
      modifies this`mode, this`punchSuccess, this`punchDone, this`relayPosts, this`log, puncher, puncher.noise
      ensures Valid() && puncher == old(puncher)
      ensures var (c, effects) := OnInput(suite, options, old(View()), Receives(sender, m, draw));
              View() == c && log == old(log) + effects
    {
      hide Receive, Hear;
      var n := |puncher.out|;
      puncher.HandleReceive(sender, m, draw);
      assert puncher.out[n..] == Step(suite, old(View()).puncher.value, Receives(sender, m, draw)).1;
      Drain(n);
    }

    method HandleTimeout()
      requires Valid() && puncher != null && Timeout in puncher.armed
      modifies this`mode, this`punchSuccess, this`punchDone, this`relayPosts, this`log, puncher
      ensures Valid() && puncher == old(puncher)
      ensures var (c, effects) := OnInput(suite, options, old(View()), TimesOut);
              View() == c && log == old(log) + effects
    {
      hide OnTimeout, Hear;
      var n := |puncher.out|;
      puncher.HandleTimeout();
      assert puncher.out[n..] == Step(suite, old(View()).puncher.value, TimesOut).1;
      Drain(n);
    }

    method HandleBurst()
      requires Valid() && puncher != null && Burst in puncher.armed
      modifies this`mode, this`punchSuccess, this`punchDone, this`relayPosts, this`log, puncher
      ensures Valid() && puncher == old(puncher)
      ensures var (c, effects) := OnInput(suite, options, old(View()), Bursts);
              View() == c && log == old(log) + effects
    {
      hide OnBurst, Hear;
      var n := |puncher.out|;
      puncher.HandleBurst();
      assert puncher.out[n..] == Step(suite, old(View()).puncher.value, Bursts).1;
      Drain(n);
    }

    method HandleRetry()
      requires Valid() && puncher != null && Retry in puncher.armed
      modifies this`mode, this`punchSuccess, this`punchDone, this`relayPosts, this`log, puncher
      ensures Valid() && puncher == old(puncher)
      ensures var (c, effects) := OnInput(suite, options, old(View()), Retries);
              View() == c && log == old(log) + effects
    {
      hide OnRetry, Hear;
      var n := |puncher.out|;
      puncher.HandleRetry();
      assert puncher.out[n..] == Step(suite, old(View()).puncher.value, Retries).1;
      Drain(n);
    }

    /** The direct attempt: a fresh number, the record of a sealing, and the datagram if it leaves. */
    method SendDirect(text: Bytes, w: Outcome) returns (ok: bool)
      requires Valid() && puncher != null
      modifies this`seqNo, this`log, puncher`out
      ensures Valid() && puncher == old(puncher)
      ensures var n := Increment(old(seqNo));
              var p := old(puncher.View());
              var (accepted, out) := SendPacket(suite, p, options.nodeId, peerId, n, text, w);
              && ok == accepted && View() == old(View()).(seqNo := n)
              && log == old(log) + (Sealings(p, n, w) + if ok then NetOf(out) else [])
    {
      hide Nonce, NetOf, Sealings, SendPacket;
      ghost var p := puncher.View();
      SendIs(suite, p, options.nodeId, peerId, Increment(seqNo), text, w);
      seqNo := Increment(seqNo);
      log := log + Sealings(puncher.View(), seqNo, w);
      ok := puncher.SendPeerPacket(options.nodeId, peerId, seqNo, text, w);
      if ok {
        var sent := puncher.out[|puncher.out| - 1];
        log := log + [ToNet(sent.dest, sent.msg)];
      }
    }

    method SendTunPacketToServer(packet: Bytes, w: Outcome)
      requires Valid()
      modifies this`seqNo, this`log, puncher
      ensures Valid() && puncher == old(puncher)
      ensures var (c, effects) := SendToServer(suite, options, old(View()), packet, w);
              View() == c && log == old(log) + effects
    {
      hide Nonce, Hex.Encode, NetOf, Sealings, SendPacket;
      if packet == [] {
        return;
      }
      var text := Hex.HexEncode(packet);
      if mode == P2P && puncher != null && peerId != "" {
        var ok := SendDirect(text, w);
        if ok {
          return;
        }
      }
      log := log + [ToServer(text)];
    }

    method TunToRelay(packet: Bytes)
      requires Valid()
      modifies this`seqNo, this`log
      ensures Valid()
      ensures var (c, effects) := SendToRelay(options, old(View()), Hex.Encode(packet));
              View() == c && log == old(log) + effects
    {
      if !registered || peerId == "" {
        return;
      }
      var text := Hex.HexEncode(packet);
      seqNo := Increment(seqNo);
      log := log + [ToRelay(options.nodeId, peerId, seqNo, text)];
    }

    method HandleTunRead(packet: Bytes, w: Outcome)
      requires Valid()
      modifies this`seqNo, this`log, puncher
      ensures Valid() && puncher == old(puncher)
      ensures var (c, effects) := OnTunRead(suite, options, old(View()), packet, w);
              View() == c && log == old(log) + effects
    {
      hide SendToServer, SendToRelay;
      if mode == Relay {
        TunToRelay(packet);
      } else {
        SendTunPacketToServer(packet, w);
      }
    }
  }

  lemma HearNothing(o: Options, c: Client)
    ensures Hear(o, c, []) == (c, [])
  {
  }

  lemma SendIs(s: Suite, p: Puncher, src: string, dst: string, number: Int64, payload: Bytes, w: Outcome)
    ensures var (ok, out) := SendPacket(s, p, src, dst, number, payload, w);
            if ok then |out| == 1 && out[0].Sent? && NetOf(out) == [ToNet(out[0].dest, out[0].msg)] else out == []
  {
    hide Nonce, PacketAd;
    var (ok, out) := SendPacket(s, p, src, dst, number, payload, w);
    if ok {
      assert out == [out[0]];
      SentAlone(out[0]);
    }
  }

  lemma SentAlone(m: Output)
    ensures m.Sent? ==> NetOf([m]) == [ToNet(m.dest, m.msg)]
  {
    assert [m][1..] == [];
  }
}
