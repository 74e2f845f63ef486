/**
 One end of a punch: src/client/UdpPuncher.cpp.

 The socket and the callbacks are the `Output` log of each handler. `armed` holds the timers that were ever
 set: cancelling does not recall a handler already queued, so their handlers may run late and any number of
 times. `retrySet` says whether the retry timer is set now, and not cancelled.

 A retransmission assigns the stored message from a span over itself, which the program's library does not
 define; it is taken to leave the message as it is.
 */
module Puncher {
  import opened Basics
  import opened Noise

  datatype Endpoint = Endpoint(ip: string, port: nat)

  /** A parsed datagram; an absent id is the empty string. `Other` is any type without effect here. */
  datatype Datagram =
    | Punch(src: string, dst: string)
    | PunchAck(src: string, dst: string)
    | Handshake(src: string, dst: string, stage: int, payload: Bytes)
    | Packet(src: string, dst: string, number: Int64, payload: Bytes)
    | Other

  datatype Output =
    | Sent(dest: Endpoint, msg: Datagram)
    | PunchDone(success: bool, remote: string)
    | Delivered(src: string, payload: Bytes, number: Int64)

  datatype Timer = Burst | Timeout | Retry

  datatype Puncher = Puncher(
    myId: string,
    targetId: string,
    targets: seq<Endpoint>,
    punching: bool,
    success: bool,
    peer: Option<Endpoint>,
    noiseReady: bool,
    noiseEnabled: bool,
    noiseInitiator: bool,
    lastStage: int,
    lastMessage: Bytes,
    noise: Option<State>,
    armed: set<Timer>,
    retrySet: bool)

  // ----- Handlers as functions -----

  /** The associated data of a peer packet. */
  function PacketAd(src: string, dst: string, number: nat): (r: string) {
    src + "|" + dst + "|" + Decimal(number)
  }

  function ConfigureNoise(s: Suite, p: Puncher, role: Role, local: Keypair, remote: Bytes): (r: Puncher) {
    p.(noise := Some(Initial(s, role, local, remote)), noiseEnabled := true, noiseInitiator := role == Initiator,
       noiseReady := false, lastStage := 0, lastMessage := [])
  }

  function Punches(p: Puncher, targets: seq<Endpoint>): (r: seq<Output>) {
    if targets == [] then [] else [Sent(targets[0], Punch(p.myId, p.targetId))] + Punches(p, targets[1..])
  }

  function SendPunches(p: Puncher): (r: (Puncher, seq<Output>)) {
    if !p.punching || p.success || p.targets == [] then (p, [])
    else (p.(armed := p.armed + {Burst}), Punches(p, p.targets))
  }

  /** A puncher at the start of a punch: nothing known, nothing achieved. */
  function Restarted(p: Puncher, myId: string, targetId: string): (r: Puncher) {
    p.(myId := myId, targetId := targetId, punching := true, success := false, peer := None,
       noiseReady := false, lastStage := 0, lastMessage := [], armed := p.armed + {Timeout})
  }

  function StartPunching(p: Puncher, myId: string, targetId: string): (r: (Puncher, seq<Output>)) {
    SendPunches(Restarted(p, myId, targetId))
  }

  function Complete(p: Puncher, remote: string): (r: (Puncher, seq<Output>)) {
    if p.success then (p, [])
    else
      var ready := !p.noiseEnabled || (p.noise.Some? && p.noise.value.complete);
      (p.(success := true, noiseReady := ready, punching := false, retrySet := false), [PunchDone(true, remote)])
  }

  function SendHandshake(s: Suite, p: Puncher, stage: int, payload: Bytes): (r: (Puncher, seq<Output>)) {
    if p.peer.None? then (p, [])
    else (p.(lastStage := stage, lastMessage := payload),
          [Sent(p.peer.value, Handshake(p.myId, p.targetId, stage, s.encode64(payload)))])
  }

  function ScheduleRetry(p: Puncher): (r: Puncher) {
    if !p.noiseInitiator || p.success || p.peer.None? || p.lastStage != 1 || p.lastMessage == [] then p
    else p.(armed := p.armed + {Retry}, retrySet := true)
  }

  function StartHandshake(s: Suite, p: Puncher, draw: Option<Bytes>): (r: (Puncher, seq<Output>)) {
    if !p.noiseEnabled || p.noise.None? || !p.noiseInitiator || p.peer.None? || p.success then (p, [])
    else if p.lastStage == 1 && p.lastMessage != [] then SendHandshake(s, p, p.lastStage, p.lastMessage)
    else
      var (n, message) := BuildMessage1(s, p.noise.value, draw);
      if message.None? then (p.(noise := Some(n)), [])
      else
        var (q, out) := SendHandshake(s, p.(noise := Some(n)), 1, message.value);
        (ScheduleRetry(q.(armed := q.armed + {Timeout})), out)
  }

  function Discover(p: Puncher, sender: Endpoint): (r: Puncher) {
    p.(peer := Some(sender), targets := if sender in p.targets then p.targets else p.targets + [sender])
  }

  function OnPunch(p: Puncher, sender: Endpoint, src: string): (r: (Puncher, seq<Output>)) {
    (if src == p.targetId then Discover(p, sender) else p, [Sent(sender, PunchAck(p.myId, src))])
  }

  function OnAck(s: Suite, p: Puncher, sender: Endpoint, src: string,
      draw: Option<Bytes>): (r: (Puncher, seq<Output>))
  {
    var q := Discover(p, sender);
    if q.noiseEnabled then
      if q.noiseInitiator then StartHandshake(s, q.(punching := false), draw)
      else (q.(punching := false, armed := q.armed + {Timeout}), [])
    else if !q.success then Complete(q, src)
    else (q, [])
  }

  function OnHandshake(s: Suite, p: Puncher, sender: Endpoint, src: string, stage: int, text: Bytes,
                       draw: Option<Bytes>): (r: (Puncher, seq<Output>))
  {
    var payload := s.decode64(text);
    if !p.noiseEnabled || p.noise.None? || payload.None? then (p, [])
    else
      var q := p.(peer := Some(sender));
      if stage == 1 && !q.noiseInitiator then
        var (n, response) := HandleMessage1(s, q.noise.value, payload.value, draw);
        var q1 := q.(noise := Some(n));
        if response.Some? then
          var (q2, out2) := SendHandshake(s, q1, 2, response.value);
          var (q3, out3) := Complete(q2, src);
          (q3, out2 + out3)
        else if n.complete && q1.lastMessage != [] then SendHandshake(s, q1, q1.lastStage, q1.lastMessage)
        else (q1, [])
      else if stage == 2 && q.noiseInitiator && !q.noise.value.complete then
        var (n, ok) := HandleMessage2(s, q.noise.value, payload.value);
        var q1 := q.(noise := Some(n));
        if ok then Complete(q1, src) else (q1, [])
      else (q, [])
  }

  function OnPacket(s: Suite, p: Puncher, sender: Endpoint, src: string, dst: string, number: Int64,
                    text: Bytes): (r: (Puncher, seq<Output>))
  {
    var q := if src == p.targetId then p.(peer := Some(sender)) else p;
    if !q.noiseEnabled || q.noise.None? || !q.noiseReady || number < 0 then (q, [])
    else
      var ciphertext := s.decode64(text);
      if ciphertext.None? || !q.noise.value.complete then (q, [])
      else
        var plaintext := s.open(q.noise.value.recvKey, Nonce(number), ciphertext.value, PacketAd(src, dst, number));
        if plaintext.None? then (q, []) else (q, [Delivered(src, plaintext.value, number)])
  }

  /** A datagram for another node, or one's own looped back, is dropped. */
  predicate Ignored(p: Puncher, m: Datagram) {
    !m.Other? && ((m.dst != "" && m.dst != p.myId) || (m.src != "" && m.src == p.myId))
  }

  function Receive(s: Suite, p: Puncher, sender: Endpoint, m: Datagram,
      draw: Option<Bytes>): (r: (Puncher, seq<Output>))
  {
    if Ignored(p, m) then (p, [])
    else match m
      case Punch(src, _) => OnPunch(p, sender, src)
      case PunchAck(src, _) => OnAck(s, p, sender, src, draw)
      case Handshake(src, _, stage, payload) => OnHandshake(s, p, sender, src, stage, payload, draw)
      case Packet(src, dst, number, payload) => OnPacket(s, p, sender, src, dst, number, payload)
      case Other => (p, [])
  }

  function OnTimeout(p: Puncher): (r: (Puncher, seq<Output>)) {
    if Timeout !in p.armed then (p, [])
    else if p.success then (p.(punching := false), [])
    else (p.(punching := false, retrySet := false), [PunchDone(false, p.targetId)])
  }

  function OnBurst(p: Puncher): (r: (Puncher, seq<Output>)) {
    if Burst in p.armed then SendPunches(p) else (p, [])
  }

  function OnRetry(s: Suite, p: Puncher): (r: (Puncher, seq<Output>)) {
    if Retry !in p.armed then (p, [])
    else
      var fired := p.(retrySet := false);
      if p.success || !p.noiseInitiator then (fired, [])
      else
        var (q, out) := SendHandshake(s, fired, p.lastStage, p.lastMessage);
        (ScheduleRetry(q), out)
  }

  /** What becomes of an attempt to send: it works, the AEAD call fails, or the socket refuses the sealed datagram. */
  datatype Outcome = Works | SealFails | SocketFails

  predicate CanSeal(p: Puncher, number: Int64) {
    p.success && p.peer.Some? && p.noiseEnabled && p.noise.Some? && p.noiseReady && number >= 0
        && p.noise.value.complete
  }

  function SendPacket(s: Suite, p: Puncher, src: string, dst: string, number: Int64, payload: Bytes,
      w: Outcome): (r: (bool, seq<Output>))
  {
    if !CanSeal(p, number) || !w.Works? then (false, [])
    else
      var ciphertext := s.seal(p.noise.value.sendKey, Nonce(number), payload, PacketAd(src, dst, number));
      (true, [Sent(p.peer.value, Packet(src, dst, number, s.encode64(ciphertext)))])
  }

  // ----- Runs of one puncher, under any datagrams from anyone -----

  datatype Input =
    | Receives(sender: Endpoint, msg: Datagram, draw: Option<Bytes>)
    | Bursts
    | TimesOut
    | Retries
    | Sends(src: string, dst: string, number: Int64, payload: Bytes, outcome: Outcome)

  function Step(s: Suite, p: Puncher, i: Input): (r: (Puncher, seq<Output>)) {
    match i
    case Receives(sender, m, draw) => Receive(s, p, sender, m, draw)
    case Bursts => OnBurst(p)
    case TimesOut => OnTimeout(p)
    case Retries => OnRetry(s, p)
    case Sends(src, dst, number, payload, w) => (p, SendPacket(s, p, src, dst, number, payload, w).1)
  }

  function Run(s: Suite, p: Puncher, inputs: seq<Input>): (r: (Puncher, seq<Output>))
    decreases inputs
  {
    if inputs == [] then (p, [])
    else
      var (q, out) := Step(s, p, inputs[0]);
      var (r, rest) := Run(s, q, inputs[1..]);
      (r, out + rest)
  }

  /** The puncher a client hands to its I/O thread: configured, given targets, started. */
  function Launch(s: Suite, role: Role, local: Keypair, remote: Bytes, targets: seq<Endpoint>,
                  myId: string, targetId: string): (r: (Puncher, seq<Output>))
  {
    var blank := Puncher("", "", targets, false, false, None, false, false, false, 0, [], None, {}, false);
    StartPunching(ConfigureNoise(s, blank, role, local, remote), myId, targetId)
  }

  /** With Noise configured, the success flag, the ready flag and a complete handshake are one thing. */
  ghost predicate Sound(p: Puncher) {
    && p.noise.Some? && p.noiseEnabled
    && p.noiseInitiator == (p.noise.value.role == Initiator)
    && p.success == p.noiseReady == p.noise.value.complete
    && (p.success ==> !p.punching)
  }

  /** No result is reported after a success, so there is at most one success. */
  ghost predicate Final(out: seq<Output>) {
    forall i, j :: 0 <= i < j < |out| && out[i].PunchDone? && out[i].success ==> !out[j].PunchDone?
  }

  predicate ReportsSuccess(out: seq<Output>) {
    exists i :: 0 <= i < |out| && out[i].PunchDone? && out[i].success
  }

  predicate Silent(out: seq<Output>) {
    forall o :: o in out ==> !o.PunchDone?
  }

  lemma {:induction false} PunchesAre(p: Puncher, targets: seq<Endpoint>)
    ensures forall o :: o in Punches(p, targets) ==> o.Sent? && o.msg == Punch(p.myId, p.targetId)
  {
    if targets != [] {
      PunchesAre(p, targets[1..]);
    }
  }

  /** What a step from p to q may report: a success exactly on becoming one, and nothing once it is one. */
  ghost predicate SoundStep(p: Puncher, q: Puncher, out: seq<Output>) {
    && Sound(q) && Final(out)
    && (p.success ==> q.success && q.noise == p.noise && Silent(out))
    && (ReportsSuccess(out) <==> q.success && !p.success)
  }

  lemma OnAckSound(s: Suite, p: Puncher, sender: Endpoint, src: string, draw: Option<Bytes>)
    requires Sound(p)
    ensures var (q, out) := OnAck(s, p, sender, src, draw); SoundStep(p, q, out)
  {
    hide BuildMessage1;
    BuildMessage1Keeps(s, p.noise.value, draw);
  }

  lemma OnHandshakeSound(s: Suite, p: Puncher, sender: Endpoint, src: string, stage: int, text: Bytes,
      draw: Option<Bytes>)
    requires Sound(p)
    ensures var (q, out) := OnHandshake(s, p, sender, src, stage, text, draw); SoundStep(p, q, out)
  {
    hide HandleMessage1, HandleMessage2;
    var payload := s.decode64(text);
    if payload.Some? {
      HandleMessage1Keeps(s, p.noise.value, payload.value, draw);
      HandleMessage2Keeps(s, p.noise.value, payload.value);
      var (q, out) := OnHandshake(s, p, sender, src, stage, text, draw);
      if q.success && !p.success {
        assert out[|out| - 1] == PunchDone(true, src);
      }
    }
  }

  lemma OnPacketSound(s: Suite, p: Puncher, sender: Endpoint, src: string, dst: string, number: Int64, text: Bytes)
    requires Sound(p)
    ensures var (q, out) := OnPacket(s, p, sender, src, dst, number, text); SoundStep(p, q, out)
  {
  }

  lemma ReceiveSound(s: Suite, p: Puncher, sender: Endpoint, m: Datagram, draw: Option<Bytes>)
    requires Sound(p)
    ensures var (q, out) := Receive(s, p, sender, m, draw); SoundStep(p, q, out)
  {
    hide OnAck, OnHandshake, OnPacket;
    if !Ignored(p, m) {
      match m
      case Punch(_, _) =>
      case PunchAck(src, _) => OnAckSound(s, p, sender, src, draw);
      case Handshake(src, _, stage, payload) => OnHandshakeSound(s, p, sender, src, stage, payload, draw);
      case Packet(src, dst, number, payload) => OnPacketSound(s, p, sender, src, dst, number, payload);
      case Other =>
    }
  }

  lemma StepSound(s: Suite, p: Puncher, i: Input)
    requires Sound(p)
    ensures var (q, out) := Step(s, p, i); SoundStep(p, q, out)
  {
    hide Receive;
    match i
    case Receives(sender, m, draw) => ReceiveSound(s, p, sender, m, draw);
    case Bursts =>
      PunchesAre(p, p.targets);
      assert Silent(Punches(p, p.targets));
    case TimesOut =>
    case Retries =>
    case Sends(_, _, _, _, _) =>
  }

  /**
   Over every run, whatever arrives and however late the timers: at most one success, no failure after
   it, and a success is reported exactly when the handshake has completed.
   */
  lemma {:induction false} PunchOutcome(s: Suite, p: Puncher, inputs: seq<Input>)
    requires Sound(p)
    ensures var (q, out) := Run(s, p, inputs);
            && Sound(q) && Final(out)
            && (p.success ==> q.success && q.noise == p.noise && Silent(out))
            && (ReportsSuccess(out) <==> q.noise.value.complete && !p.noise.value.complete)
    decreases inputs
  {
    hide Step;
    if inputs != [] {
      var (q, out) := Step(s, p, inputs[0]);
      StepSound(s, p, inputs[0]);
      PunchOutcome(s, q, inputs[1..]);
      var (r, rest) := Run(s, q, inputs[1..]);
      var all := out + rest;
      forall i, j | 0 <= i < j < |all| && all[i].PunchDone? && all[i].success
        ensures !all[j].PunchDone?
      {
        if i < |out| {
          assert ReportsSuccess(out);
          assert j >= |out| ==> all[j] in rest;
        }
      }
      if ReportsSuccess(out) {
        var i :| 0 <= i < |out| && out[i].PunchDone? && out[i].success;
        assert all[i] == out[i];
      }
      if ReportsSuccess(rest) {
        var i :| 0 <= i < |rest| && rest[i].PunchDone? && rest[i].success;
        assert all[|out| + i] == rest[i];
      }
    }
  }

  lemma LaunchSound(s: Suite, role: Role, local: Keypair, remote: Bytes, targets: seq<Endpoint>, myId: string,
      targetId: string)
    ensures var (p, out) := Launch(s, role, local, remote, targets, myId, targetId);
            && Sound(p) && !p.success && p.myId == myId && p.targetId == targetId && Retry !in p.armed && !p.retrySet
            && Timeout in p.armed
            && p.noise == Some(Initial(s, role, local, remote)) && p.lastStage == 0 && p.lastMessage == []
            && (forall o :: o in out ==> o.Sent? && o.msg == Punch(myId, targetId))
  {
    var blank := Puncher("", "", targets, false, false, None, false, false, false, 0, [], None, {}, false);
    var p := ConfigureNoise(s, blank, role, local, remote);
    PunchesAre(Restarted(p, myId, targetId), targets);
  }

  // ----- The retry timer -----

  /** The initiator keeps a message 1 and has not succeeded. */
  predicate Waits(p: Puncher) { p.noiseInitiator && p.lastStage == 1 && !p.success }

  /** A stored message 1 has a peer to go to and can be resent; the retry timer is set only while one waits. */
  ghost predicate RetryInv(p: Puncher) {
    && (p.noiseInitiator && p.lastStage == 1 ==> p.peer.Some? && p.lastMessage != [] && Retry in p.armed)
    && (p.retrySet ==> Waits(p))
  }

  predicate Fails(out: seq<Output>) { exists o :: o in out && o.PunchDone? && !o.success }

  /** What a step does to the retry timer: a failure cancels it, and the first storing of a message 1 sets it. */
  ghost predicate RetryStep(p: Puncher, i: Input, q: Puncher, out: seq<Output>) {
    && RetryInv(q) && (Fails(out) ==> i == TimesOut)
    && (Waits(p) ==> Waits(q) || q.success)
    && (Waits(q) ==> q.retrySet == (!Waits(p) || (i.Retries? && Retry in p.armed) || (p.retrySet && !Fails(out))))
  }

  lemma StepRetry(s: Suite, p: Puncher, i: Input)
    requires s.LawfulDh() && Sound(p) && RetryInv(p)
    ensures var (q, out) := Step(s, p, i); RetryStep(p, i, q, out)
  {
    hide Receive, OnBurst, OnTimeout, OnRetry, Sound, RetryStep, RetryInv;
    match i
    case Receives(sender, m, d) => ReceiveRetry(s, p, sender, m, d);
    case Bursts => BurstRetry(p);
    case TimesOut => TimeoutRetry(p);
    case Retries => RetryRetry(s, p);
    case Sends(_, _, number, payload, w) => SendRetry(s, p, i);
  }

  lemma ReceiveRetry(s: Suite, p: Puncher, sender: Endpoint, m: Datagram, d: Option<Bytes>)
    requires s.LawfulDh() && Sound(p) && RetryInv(p)
    ensures var (q, out) := Receive(s, p, sender, m, d); RetryStep(p, Receives(sender, m, d), q, out)
  {
    hide OnHandshake, OnAck, OnPacket, Sound;
    match m
    case PunchAck(src, _) => AckRetry(s, p, sender, src, d);
    case Handshake(src, _, stage, text) => HandshakeRetry(s, p, sender, src, stage, text, d);
    case Packet(src, dst, number, text) => PacketRetry(s, p, sender, src, dst, number, text);
    case Punch(_, _) =>
    case Other =>
  }

  lemma BurstRetry(p: Puncher)
    requires RetryInv(p)
    ensures var (q, out) := OnBurst(p); RetryStep(p, Bursts, q, out)
  {
    hide Punches;
    PunchesAre(p, p.targets);
  }

  lemma TimeoutRetry(p: Puncher)
    requires RetryInv(p)
    ensures var (q, out) := OnTimeout(p); RetryStep(p, TimesOut, q, out)
  {
    assert !p.success && Timeout in p.armed ==> PunchDone(false, p.targetId) in OnTimeout(p).1;
  }

  lemma RetryRetry(s: Suite, p: Puncher)
    requires RetryInv(p)
    ensures var (q, out) := OnRetry(s, p); RetryStep(p, Retries, q, out)
  {
  }

  lemma SendRetry(s: Suite, p: Puncher, i: Input)
    requires RetryInv(p) && i.Sends?
    ensures var (q, out) := Step(s, p, i); RetryStep(p, i, q, out)
  {
    hide Nonce, PacketAd;
  }

  lemma AckRetry(s: Suite, p: Puncher, sender: Endpoint, src: string, draw: Option<Bytes>)
    requires s.LawfulDh() && Sound(p) && RetryInv(p)
    ensures var (q, out) := OnAck(s, p, sender, src, draw);
            RetryStep(p, Receives(sender, PunchAck(src, p.myId), draw), q, out)
  {
    hide MixHash, MixKey;
  }

  lemma HandshakeRetry(s: Suite, p: Puncher, sender: Endpoint, src: string, stage: int, text: Bytes,
      draw: Option<Bytes>)
    requires Sound(p) && RetryInv(p)
    ensures var (q, out) := OnHandshake(s, p, sender, src, stage, text, draw);
            RetryStep(p, Receives(sender, Handshake(src, p.myId, stage, text), draw), q, out)
  {
    hide HandleMessage1, HandleMessage2;
  }

  lemma PacketRetry(s: Suite, p: Puncher, sender: Endpoint, src: string, dst: string, number: Int64, text: Bytes)
    requires RetryInv(p)
    ensures var (q, out) := OnPacket(s, p, sender, src, dst, number, text);
            RetryStep(p, Receives(sender, Packet(src, dst, number, text), None), q, out)
  {
  }

  /** No retry handler runs late: only while its timer is set. */
  predicate Timely(s: Suite, p: Puncher, inputs: seq<Input>)
    decreases inputs
  {
    inputs == [] || ((inputs[0].Retries? ==> p.retrySet) && Timely(s, Step(s, p, inputs[0]).0, inputs[1..]))
  }

  /** A failure is reported while a message 1 waits. */
  predicate FailsWaiting(s: Suite, p: Puncher, inputs: seq<Input>)
    decreases inputs
  {
    inputs != [] &&
    (var (q, out) := Step(s, p, inputs[0]); (Waits(p) && Fails(out)) || FailsWaiting(s, q, inputs[1..]))
  }

  /**
   Over every run: the retry timer is set only while a message 1 waits, and it is set if no failure has been
   reported since that message was stored. Unless a retry handler ran late, it is set exactly then.
   */
  lemma RetryIsSet(s: Suite, role: Role, local: Keypair, remote: Bytes, targets: seq<Endpoint>, myId: string,
      targetId: string, inputs: seq<Input>)
    requires s.LawfulDh()
    ensures var p := Launch(s, role, local, remote, targets, myId, targetId).0;
            var end := Run(s, p, inputs).0;
            && RetryInv(end)
            && (Waits(end) && !FailsWaiting(s, p, inputs) ==> end.retrySet)
            && (Timely(s, p, inputs) ==> (end.retrySet <==> Waits(end) && !FailsWaiting(s, p, inputs)))
  {
    hide Launch, Run, Timely, FailsWaiting;
    LaunchSound(s, role, local, remote, targets, myId, targetId);
    RunRetry(s, Launch(s, role, local, remote, targets, myId, targetId).0, inputs);
  }

  lemma {:induction false} RunRetry(s: Suite, p: Puncher, inputs: seq<Input>)
    requires s.LawfulDh() && Sound(p) && RetryInv(p)
    ensures var end := Run(s, p, inputs).0;
            && RetryInv(end) && (Waits(p) ==> Waits(end) || end.success)
            && ((Waits(p) ==> p.retrySet) && Waits(end) && !FailsWaiting(s, p, inputs) ==> end.retrySet)
            && (Timely(s, p, inputs) && ((Waits(p) && !p.retrySet) || FailsWaiting(s, p, inputs)) ==> !end.retrySet)
            && (p.success ==> end.success)
    decreases inputs
  {
    hide Step, Sound;
    if inputs != [] {
      StepSound(s, p, inputs[0]);
      StepRetry(s, p, inputs[0]);
      SoundStays(s, p, inputs[0]);
      RunRetry(s, Step(s, p, inputs[0]).0, inputs[1..]);
    }
  }

  lemma SoundStays(s: Suite, p: Puncher, i: Input)
    requires Sound(p)
    ensures var q := Step(s, p, i).0; Sound(q) && (p.success ==> q.success)
  {
    hide Step;
    StepSound(s, p, i);
  }

  /** An acknowledgement a waiting initiator does not drop. */
  predicate HearsAck(p: Puncher, i: Input) {
    i.Receives? && i.msg.PunchAck? && !Ignored(p, i.msg) && !p.success
  }

  predicate HearsAcks(s: Suite, p: Puncher, inputs: seq<Input>)
    decreases inputs
  {
    inputs != [] && (HearsAck(p, inputs[0]) || HearsAcks(s, Step(s, p, inputs[0]).0, inputs[1..]))
  }

  predicate SendsHandshake(out: seq<Output>) { exists o :: o in out && o.Sent? && o.msg.Handshake? }

  predicate SendsPunch(out: seq<Output>) { exists o :: o in out && o.Sent? && o.msg.Punch? }

  /** An initiator whose retry was cancelled before it had succeeded, and what has become of it since. */
  ghost predicate GaveUp(p: Puncher) {
    && Sound(p) && p.noiseInitiator && !p.retrySet && !p.punching
    && (p.success || (p.lastStage == 1 && p.lastMessage != [] && p.peer.Some?))
  }

  /** A timeout while a message 1 waits reports the failure and cancels the retry. */
  lemma TimeoutGivesUp(s: Suite, p: Puncher)
    requires Sound(p) && RetryInv(p) && Waits(p) && Timeout in p.armed
    ensures Step(s, p, TimesOut) == (p.(punching := false, retrySet := false), [PunchDone(false, p.targetId)])
    ensures GaveUp(Step(s, p, TimesOut).0)
  {
  }

  /**
   After that, unless a retry handler runs late, the initiator sends a handshake message again exactly if it hears
   an acknowledgement before it succeeds, and it never punches again to ask for one.
   */
  lemma {:induction false} OnlyAcksResend(s: Suite, p: Puncher, inputs: seq<Input>)
    requires GaveUp(p) && Timely(s, p, inputs)
    ensures var (q, out) := Run(s, p, inputs);
            GaveUp(q) && (SendsHandshake(out) <==> HearsAcks(s, p, inputs)) && !SendsPunch(out)
    decreases inputs
  {
    hide Step, GaveUp, HearsAck;
    if inputs != [] {
      var (q, out) := Step(s, p, inputs[0]);
      GaveUpStep(s, p, inputs[0]);
      OnlyAcksResend(s, q, inputs[1..]);
      var rest := Run(s, q, inputs[1..]).1;
      assert forall o :: o in out + rest <==> o in out || o in rest;
    }
  }

  lemma GaveUpStep(s: Suite, p: Puncher, i: Input)
    requires GaveUp(p) && (i.Retries? ==> p.retrySet)
    ensures var (q, out) := Step(s, p, i);
            GaveUp(q) && (SendsHandshake(out) <==> HearsAck(p, i)) && !SendsPunch(out)
  {
    hide OnHandshake, OnAck, OnPacket, Sound;
    StepSound(s, p, i);
    SoundStays(s, p, i);
    if i.Receives? && !Ignored(p, i.msg) {
      match i.msg
      case PunchAck(src, _) => AckResends(s, p, i.sender, src, i.draw);
      case Handshake(src, _, stage, text) => WaitingHandshake(s, p, i.sender, src, stage, text, i.draw);
      case Packet(src, dst, number, text) => WaitingPacket(s, p, i.sender, src, dst, number, text);
      case Punch(_, _) =>
      case Other =>
    }
  }

  /** Acknowledged, a waiting initiator sends its message 1 again, to where the acknowledgement came from. */
  lemma AckResends(s: Suite, p: Puncher, sender: Endpoint, src: string, d: Option<Bytes>)
    requires GaveUp(p)
    ensures OnAck(s, p, sender, src, d)
            == (Discover(p, sender), if p.success then []
                else [Sent(sender, Handshake(p.myId, p.targetId, 1, s.encode64(p.lastMessage)))])
  {
  }

  lemma WaitingHandshake(s: Suite, p: Puncher, sender: Endpoint, src: string, stage: int, text: Bytes,
      d: Option<Bytes>)
    requires GaveUp(p)
    ensures var (q, out) := OnHandshake(s, p, sender, src, stage, text, d);
            && q.noiseInitiator && !q.retrySet && !q.punching && !SendsHandshake(out) && !SendsPunch(out)
            && (q.success || (q.lastStage == 1 && q.lastMessage != [] && q.peer.Some?))
  {
    hide HandleMessage1, HandleMessage2;
  }

  lemma WaitingPacket(s: Suite, p: Puncher, sender: Endpoint, src: string, dst: string, number: Int64, text: Bytes)
    requires GaveUp(p)
    ensures var (q, out) := OnPacket(s, p, sender, src, dst, number, text);
            && q.noiseInitiator && !q.retrySet && !q.punching && !SendsHandshake(out) && !SendsPunch(out)
            && (q.success || (q.lastStage == 1 && q.lastMessage != [] && q.peer.Some?))
  {
  }

  // ----- What a packet is bound to -----

  /**
   The associated data always tells the number of a packet, and both its ids when neither name of the source holds the
   separator.
   */
  lemma AdTells(src: string, dst: string, number: nat, src': string, dst': string, number': nat)
    ensures PacketAd(src, dst, number) == PacketAd(src', dst', number') <==>
            number == number' && src + "|" + dst == src' + "|" + dst'
    ensures PacketAd(src, dst, number) == PacketAd(src', dst', number') && '|' !in src && '|' !in src' ==>
              src == src' && dst == dst'
  {
    if PacketAd(src, dst, number) == PacketAd(src', dst', number') {
      DecimalDigits(number);
      DecimalDigits(number');
      LastSplit(src + "|" + dst, Decimal(number), src' + "|" + dst', Decimal(number'), '|');
      DecimalInjective(number, number');
      if '|' !in src && '|' !in src' {
        FirstSplit(src, dst, src', dst', '|');
      }
    }
  }

  /** Without that, two pairs of ids can share it. */
  lemma AdAmbiguous(number: nat)
    ensures PacketAd("a|b", "c", number) == PacketAd("a", "b|c", number)
  {
    assert "a|b" + "|" + "c" == "a" + "|" + "b|c";
  }

  lemma LastSplit(a: string, b: string, a': string, b': string, c: char)
    requires a + [c] + b == a' + [c] + b' && c !in b && c !in b'
    ensures a == a' && b == b'
  {
    var t := a + [c] + b;
    assert t[|a|] == c && t[|a'|] == c;
    assert forall k :: |a| < k < |t| ==> t[k] == b[k - |a| - 1];
    assert forall k :: |a'| < k < |t| ==> t[k] == b'[k - |a'| - 1];
    assert |a| == |a'|;
    assert a == t[..|a|] == a' && b == t[|a| + 1..] == b';
  }

  lemma FirstSplit(a: string, b: string, a': string, b': string, c: char)
    requires a + [c] + b == a' + [c] + b' && c !in a && c !in a'
    ensures a == a' && b == b'
  {
    var t := a + [c] + b;
    assert t[|a|] == c && t[|a'|] == c;
    assert forall k :: 0 <= k < |a| ==> t[k] == a[k];
    assert forall k :: 0 <= k < |a'| ==> t[k] == a'[k];
    assert |a| == |a'|;
    assert a == t[..|a|] == a' && b == t[|a| + 1..] == b';
  }

  // ----- Where the peer is -----

  /**
   A datagram that tells where the peer is: any of the peer's own, an acknowledgement, a readable handshake message.
   */
  predicate Places(s: Suite, p: Puncher, i: Input) {
    i.Receives? && !Ignored(p, i.msg) &&
    match i.msg
    case Punch(src, _) => src == p.targetId
    case PunchAck(_, _) => true
    case Handshake(_, _, _, text) => p.noiseEnabled && p.noise.Some? && s.decode64(text).Some?
    case Packet(src, _, _, _) => src == p.targetId
    case Other => false
  }

  /** The sender of the latest such datagram. */
  function LatestPlace(s: Suite, p: Puncher, inputs: seq<Input>): (r: Option<Endpoint>)
    decreases inputs
  {
    if inputs == [] then None
    else
      var later := LatestPlace(s, Step(s, p, inputs[0]).0, inputs[1..]);
      if later.None? && Places(s, p, inputs[0]) then Some(inputs[0].sender) else later
  }

  lemma StepPlaces(s: Suite, p: Puncher, i: Input)
    ensures Step(s, p, i).0.peer == if Places(s, p, i) then Some(i.sender) else p.peer
  {
    hide OnAck, OnHandshake, OnPacket, Punches;
    if i.Receives? {
      match i.msg
      case PunchAck(src, _) => AckPlaces(s, p, i.sender, src, i.draw);
      case Handshake(src, _, stage, text) => HandshakePlaces(s, p, i.sender, src, stage, text, i.draw);
      case Packet(src, dst, number, text) => PacketPlaces(s, p, i.sender, src, dst, number, text);
      case Punch(_, _) =>
      case Other =>
    }
  }

  lemma AckPlaces(s: Suite, p: Puncher, sender: Endpoint, src: string, draw: Option<Bytes>)
    ensures OnAck(s, p, sender, src, draw).0.peer == Some(sender)
  {
    hide BuildMessage1;
  }

  lemma HandshakePlaces(s: Suite, p: Puncher, sender: Endpoint, src: string, stage: int, text: Bytes,
      draw: Option<Bytes>)
    ensures OnHandshake(s, p, sender, src, stage, text, draw).0.peer
            == if p.noiseEnabled && p.noise.Some? && s.decode64(text).Some? then Some(sender) else p.peer
  {
    hide HandleMessage1, HandleMessage2;
  }

  lemma PacketPlaces(s: Suite, p: Puncher, sender: Endpoint, src: string, dst: string, number: Int64, text: Bytes)
    ensures OnPacket(s, p, sender, src, dst, number, text).0.peer == if src == p.targetId then Some(sender) else p.peer
  {
  }

  lemma {:induction false} RunPlaces(s: Suite, p: Puncher, inputs: seq<Input>)
    ensures var place := LatestPlace(s, p, inputs); Run(s, p, inputs).0.peer == if place.Some? then place else p.peer
    decreases inputs
  {
    hide Step, Places;
    if inputs != [] {
      StepPlaces(s, p, inputs[0]);
      RunPlaces(s, Step(s, p, inputs[0]).0, inputs[1..]);
    }
  }

  /** Over every run, what is sent to the peer goes to where the latest datagram that places it came from. */
  lemma PeerIsFollowed(s: Suite, role: Role, local: Keypair, remote: Bytes, targets: seq<Endpoint>, myId: string,
      targetId: string, inputs: seq<Input>, src: string, dst: string, number: Int64, payload: Bytes)
    ensures var p := Launch(s, role, local, remote, targets, myId, targetId).0;
            var end := Run(s, p, inputs).0;
            var (ok, out) := SendPacket(s, end, src, dst, number, payload, Works);
            && end.peer == LatestPlace(s, p, inputs)
            && (ok ==> end.peer.Some? && |out| == 1 && out[0].Sent? && out[0].dest == end.peer.value)
  {
    hide Run, LatestPlace, Initial, Nonce, PacketAd;
    RunPlaces(s, Launch(s, role, local, remote, targets, myId, targetId).0, inputs);
  }

  // ----- How long it punches -----

  /** One punch for every target, in order. */
  ghost predicate PunchesAll(out: seq<Output>, targets: seq<Endpoint>, myId: string, targetId: string) {
    && |out| == |targets|
    && forall k :: 0 <= k < |out| ==> out[k] == Sent(targets[k], Punch(myId, targetId))
  }

  lemma {:induction false} PunchesAllOf(p: Puncher, targets: seq<Endpoint>)
    ensures PunchesAll(Punches(p, targets), targets, p.myId, p.targetId)
  {
    if targets != [] {
      PunchesAllOf(p, targets[1..]);
    }
  }

  lemma InitialIs(s: Suite, role: Role, local: Keypair, remote: Bytes)
    ensures var n := Initial(s, role, local, remote);
            && n.role == role && !n.complete && !n.msg1Sent && !n.msg1Received && n.localEphemeral.None?
  {
  }

  /** Whatever a puncher did before, configured and started again it knows nothing, and punches every target. */
  lemma RestartIsFresh(s: Suite, p: Puncher, role: Role, local: Keypair, remote: Bytes, myId: string, targetId: string)
    ensures var (q, out) := StartPunching(ConfigureNoise(s, p, role, local, remote), myId, targetId);
            && Sound(q) && q.punching && q.peer.None? && q.lastStage == 0 && q.lastMessage == []
            && q.noise == Some(Initial(s, role, local, remote)) && q.myId == myId && q.targetId == targetId
            && q.targets == p.targets && PunchesAll(out, p.targets, myId, targetId)
            && Timeout in q.armed && (p.targets != [] ==> Burst in q.armed)
  {
    hide Initial, PunchesAll;
    InitialIs(s, role, local, remote);
    PunchesAllOf(Restarted(ConfigureNoise(s, p, role, local, remote), myId, targetId), p.targets);
  }

  /** What ends the punching: the timeout, and an acknowledgement that names no other node and is not its own. */
  predicate Stops(myId: string, i: Input) {
    || i.TimesOut?
    || (i.Receives? && i.msg.PunchAck? && i.msg.dst in ["", myId] && (i.msg.src == "" || i.msg.src != myId))
  }

  /** What a step leaves as it is, and when punching goes on. */
  ghost predicate PunchingStep(p: Puncher, i: Input, q: Puncher) {
    && q.myId == p.myId && q.targetId == p.targetId && p.targets <= q.targets && p.armed <= q.armed
    && (q.punching <==> p.punching && !q.success && !Stops(p.myId, i))
  }

  lemma StepPunching(s: Suite, p: Puncher, i: Input)
    requires Sound(p) && Timeout in p.armed
    ensures PunchingStep(p, i, Step(s, p, i).0)
  {
    hide OnAck, OnHandshake, OnPacket, Punches, SendPacket;
    if i.Receives? {
      match i.msg
      case PunchAck(src, _) => AckPunching(s, p, i.sender, src, i.draw);
      case Handshake(src, _, stage, text) => HandshakePunching(s, p, i.sender, src, stage, text, i.draw);
      case Packet(src, dst, number, text) => PacketPunching(s, p, i.sender, src, dst, number, text);
      case Punch(_, _) =>
      case Other =>
    }
  }

  lemma AckPunching(s: Suite, p: Puncher, sender: Endpoint, src: string, draw: Option<Bytes>)
    requires Sound(p)
    ensures var q := OnAck(s, p, sender, src, draw).0;
            && q.myId == p.myId && q.targetId == p.targetId && p.targets <= q.targets && p.armed <= q.armed
            && !q.punching
  {
    hide BuildMessage1;
  }

  lemma HandshakePunching(s: Suite, p: Puncher, sender: Endpoint, src: string, stage: int, text: Bytes,
      draw: Option<Bytes>)
    requires Sound(p)
    ensures var q := OnHandshake(s, p, sender, src, stage, text, draw).0;
            && q.myId == p.myId && q.targetId == p.targetId && p.targets <= q.targets && p.armed <= q.armed
            && (q.punching <==> p.punching && !q.success)
  {
    hide HandleMessage1, HandleMessage2;
  }

  lemma PacketPunching(s: Suite, p: Puncher, sender: Endpoint, src: string, dst: string, number: Int64, text: Bytes)
    requires Sound(p)
    ensures var q := OnPacket(s, p, sender, src, dst, number, text).0;
            && q.myId == p.myId && q.targetId == p.targetId && p.targets <= q.targets && p.armed <= q.armed
            && (q.punching <==> p.punching && !q.success)
  {
  }

  lemma PunchingOnly(p: Puncher)
    requires Sound(p)
    ensures p.punching ==> !p.success
  {
  }

  lemma {:induction false} RunPunching(s: Suite, p: Puncher, inputs: seq<Input>)
    requires Sound(p) && Timeout in p.armed
    ensures var q := Run(s, p, inputs).0;
            && q.myId == p.myId && q.targetId == p.targetId && p.targets <= q.targets && p.armed <= q.armed
            && (q.punching <==> p.punching && !q.success && forall i :: i in inputs ==> !Stops(p.myId, i))
    decreases inputs
  {
    hide Step, Sound, Stops;
    if inputs == [] {
      PunchingOnly(p);
    } else {
      var q := Step(s, p, inputs[0]).0;
      StepSound(s, p, inputs[0]);
      StepPunching(s, p, inputs[0]);
      RunPunching(s, q, inputs[1..]);
      PunchOutcome(s, q, inputs[1..]);
      assert forall i :: i in inputs <==> i == inputs[0] || i in inputs[1..];
      assert q.success ==> Run(s, q, inputs[1..]).0.success;
    }
  }

  /**
   Over every run a launched puncher goes on punching exactly until it succeeds, is acknowledged or times out, and until
   then each burst goes to every target: the ones it was given and the ones it has found.
   */
  lemma BurstsGoOn(s: Suite, role: Role, local: Keypair, remote: Bytes, targets: seq<Endpoint>, myId: string,
      targetId: string, inputs: seq<Input>)
    requires targets != []
    ensures var q := Run(s, Launch(s, role, local, remote, targets, myId, targetId).0, inputs).0;
            var out := Step(s, q, Bursts).1;
            && targets <= q.targets
            && if q.success || exists i :: i in inputs && Stops(myId, i) then out == []
               else PunchesAll(out, q.targets, myId, targetId)
  {
    hide Initial, PunchesAll, Stops, Run, Sound;
    var blank := Puncher("", "", targets, false, false, None, false, false, false, 0, [], None, {}, false);
    RestartIsFresh(s, blank, role, local, remote, myId, targetId);
    var p := Launch(s, role, local, remote, targets, myId, targetId).0;
    RunPunching(s, p, inputs);
    var q := Run(s, p, inputs).0;
    PunchesAllOf(q, q.targets);
  }

  /** No endpoint is listed twice. */
  ghost predicate Distinct(targets: seq<Endpoint>) {
    forall i, j :: 0 <= i < j < |targets| ==> targets[i] != targets[j]
  }

  lemma StepDistinct(s: Suite, p: Puncher, i: Input)
    requires Distinct(p.targets)
    ensures Distinct(Step(s, p, i).0.targets)
  {
    hide OnAck, OnHandshake, OnPacket, Punches, SendPacket, Discover, Distinct;
    if i.Receives? {
      DiscoverDistinct(p, i.sender);
      match i.msg
      case PunchAck(src, _) => AckTargets(s, p, i.sender, src, i.draw);
      case Handshake(src, _, stage, text) => HandshakeTargets(s, p, i.sender, src, stage, text, i.draw);
      case Packet(src, dst, number, text) => PacketTargets(s, p, i.sender, src, dst, number, text);
      case Punch(_, _) =>
      case Other =>
    }
  }

  lemma DiscoverDistinct(p: Puncher, sender: Endpoint)
    requires Distinct(p.targets)
    ensures Distinct(Discover(p, sender).targets)
  {
  }

  lemma AckTargets(s: Suite, p: Puncher, sender: Endpoint, src: string, draw: Option<Bytes>)
    ensures OnAck(s, p, sender, src, draw).0.targets == Discover(p, sender).targets
  {
    hide BuildMessage1, Discover;
  }

  lemma HandshakeTargets(s: Suite, p: Puncher, sender: Endpoint, src: string, stage: int, text: Bytes,
      draw: Option<Bytes>)
    ensures OnHandshake(s, p, sender, src, stage, text, draw).0.targets == p.targets
  {
    hide HandleMessage1, HandleMessage2;
  }

  lemma PacketTargets(s: Suite, p: Puncher, sender: Endpoint, src: string, dst: string, number: Int64, text: Bytes)
    ensures OnPacket(s, p, sender, src, dst, number, text).0.targets == p.targets
  {
  }

  /** Over every run a burst sends one punch to an endpoint, however often it is heard from. */
  lemma {:induction false} TargetsStayDistinct(s: Suite, p: Puncher, inputs: seq<Input>)
    requires Distinct(p.targets)
    ensures Distinct(Run(s, p, inputs).0.targets)
    decreases inputs
  {
    hide Step, Distinct;
    if inputs != [] {
      StepDistinct(s, p, inputs[0]);
      TargetsStayDistinct(s, Step(s, p, inputs[0]).0, inputs[1..]);
    }
  }

  /** Once an end has succeeded its timers, however late, send and report nothing; a responder's retry never does. */
  lemma TimersAreSpent(s: Suite, p: Puncher, i: Input)
    requires Sound(p) && (i.Bursts? || i.TimesOut? || i.Retries?)
    requires p.success || (i.Retries? && p.noise.value.role == Responder)
    ensures Step(s, p, i).1 == [] && Step(s, p, i).0.success == p.success
  {
    hide Punches;
  }

  /** A packet is accepted for sending exactly after success, with a peer and a number that is not negative. */
  lemma SendsExactly(s: Suite, p: Puncher, src: string, dst: string, number: Int64, payload: Bytes, w: Outcome)
    requires Sound(p)
    ensures SendPacket(s, p, src, dst, number, payload, w).0 <==> p.success && p.peer.Some? && number >= 0 && w == Works
  {
    hide Nonce, PacketAd;
  }

  /** Without Noise the first acknowledgement is the success, and no other is reported. */
  lemma PlainAck(s: Suite, p: Puncher, sender: Endpoint, src: string, draw: Option<Bytes>)
    requires !p.noiseEnabled
    ensures var (q, out) := OnAck(s, p, sender, src, draw);
            && q.success && q.peer == Some(sender) && (!p.success ==> q.noiseReady && !q.punching)
            && out == if p.success then [] else [PunchDone(true, src)]
  {
  }

  // ----- The object -----

  class UdpPuncher {
    const suite: Suite
    var myId: string
    var targetId: string
    var targets: seq<Endpoint>
    var punching: bool
    var success: bool
    var peer: Option<Endpoint>
    var noiseReady: bool
    var noiseEnabled: bool
    var noiseInitiator: bool
    var lastStage: int
    var lastMessage: Bytes
    var noise: NoiseProtocol?
    var armed: set<Timer>
    var retrySet: bool
    /** What has left through the socket and the callbacks. */
    var out: seq<Output>

    function View(): (r: Puncher)
      reads this, noise
    {
      Puncher(myId, targetId, targets, punching, success, peer, noiseReady, noiseEnabled, noiseInitiator,
              lastStage, lastMessage, if noise == null then None else Some(noise.View()), armed, retrySet)
    }

    ghost predicate Valid()
      reads this, noise
    {
      noise != null ==> noise.suite == suite
    }

    constructor (s: Suite, targets: seq<Endpoint>)
      ensures Valid() && suite == s && out == [] && noise == null
      ensures View() == Puncher("", "", targets, false, false, None, false, false, false, 0, [], None, {}, false)
    {
      suite, this.targets := s, targets;
      myId, targetId, peer, out := "", "", None, [];
      punching, success, noiseReady, noiseEnabled, noiseInitiator := false, false, false, false, false;
      lastStage, lastMessage, noise := 0, [], null;
      armed, retrySet := {}, false;
    }

    method Configure(role: Role, local: Keypair, remote: Bytes)
      requires Valid()
      modifies this
      ensures Valid() && fresh(noise) && out == old(out)
      ensures View() == ConfigureNoise(suite, old(View()), role, local, remote)
    {
      hide Initial;
      var n := new NoiseProtocol(suite, role, local, remote);
      noise := n;
      noiseEnabled, noiseInitiator := true, role == Initiator;
      ForgetHandshake();
    }

    method ForgetHandshake()
      requires Valid()
      modifies `noiseReady, `lastStage, `lastMessage
      ensures Valid() && View() == old(View()).(noiseReady := false, lastStage := 0, lastMessage := [])
    {
      noiseReady, lastStage, lastMessage := false, 0, [];
    }

    method Reopen()
      requires Valid()
      modifies `punching, `success, `peer
      ensures Valid() && View() == old(View()).(punching := true, success := false, peer := None)
    {
      punching, success, peer := true, false, None;
    }

    method ArmTimeout()
      requires Valid()
      modifies `armed
      ensures Valid() && View() == old(View()).(armed := old(armed) + {Timeout})
    {
      armed := armed + {Timeout};
    }

    method Restart(me: string, target: string)
      requires Valid()
      modifies `myId, `targetId, `punching, `success, `peer, `noiseReady, `lastStage, `lastMessage, `armed
      ensures Valid() && noise == old(noise) && out == old(out)
      ensures View() == Restarted(old(View()), me, target)
    {
      myId, targetId := me, target;
      Reopen();
      ForgetHandshake();
      ArmTimeout();
    }

    method Start(me: string, target: string)
      requires Valid()
      modifies this
      ensures Valid() && noise == old(noise)
      ensures var (q, sent) := StartPunching(old(View()), me, target); View() == q && out == old(out) + sent
    {
      hide SendPunches, Restarted;
      Restart(me, target);
      DoSendPunch();
    }

    method DoSendPunch()
      requires Valid()
      modifies this
      ensures Valid() && noise == old(noise)
      ensures var (q, sent) := SendPunches(old(View())); View() == q && out == old(out) + sent
    {
      if !punching || success || targets == [] {
        return;
      }
      ghost var p := View();
      var i := 0;
      while i < |targets|
        invariant 0 <= i <= |targets| && Valid() && noise == old(noise)
        invariant View() == p
        invariant out + Punches(p, targets[i..]) == old(out) + Punches(p, targets)
      {
        out := out + [Sent(targets[i], Punch(myId, targetId))];
        i := i + 1;
      }
      armed := armed + {Burst};
    }

    method CompleteSecurePunch(remote: string)
      requires Valid()
      modifies this
      ensures Valid() && noise == old(noise)
      ensures var (q, sent) := Complete(old(View()), remote); View() == q && out == old(out) + sent
    {
      if success {
        return;
      }
      success := true;
      noiseReady := !noiseEnabled || (noise != null && noise.complete);
      punching := false;
      retrySet := false;
      out := out + [PunchDone(true, remote)];
    }

    method SendNoiseHandshake(stage: int, payload: Bytes)
      requires Valid()
      modifies this
      ensures Valid() && noise == old(noise)
      ensures var (q, sent) := SendHandshake(suite, old(View()), stage, payload); View() == q && out == old(out) + sent
    {
      if peer.None? {
        return;
      }
      lastStage, lastMessage := stage, payload;
      out := out + [Sent(peer.value, Handshake(myId, targetId, stage, suite.encode64(payload)))];
    }

    method ScheduleNoiseRetry()
      requires Valid()
      modifies this`armed, this`retrySet
      ensures Valid() && View() == ScheduleRetry(old(View()))
    {
      if !noiseInitiator || success || peer.None? || lastStage != 1 || lastMessage == [] {
        return;
      }
      armed, retrySet := armed + {Retry}, true;
    }

    method StartNoiseHandshake(draw: Option<Bytes>)
      requires Valid()
      modifies this, noise
      ensures Valid() && noise == old(noise)
      ensures var (q, sent) := StartHandshake(suite, old(View()), draw); View() == q && out == old(out) + sent
    {
      hide BuildMessage1, ScheduleRetry;
      if !noiseEnabled || noise == null || !noiseInitiator || peer.None? || success {
        return;
      }
      if lastStage == 1 && lastMessage != [] {
        SendNoiseHandshake(lastStage, lastMessage);
        return;
      }
      var message := noise.BuildHandshakeMessage1(draw);
      if message.None? {
        return;
      }
      SendNoiseHandshake(1, message.value);
      ArmTimeout();
      ScheduleNoiseRetry();
    }

    method AddSender(sender: Endpoint)
      requires Valid()
      modifies this
      ensures Valid() && noise == old(noise) && out == old(out)
      ensures View() == Discover(old(View()), sender)
    {
      peer := Some(sender);
      var found := false;
      for i := 0 to |targets|
        invariant found <==> sender in targets[..i]
        invariant View() == old(View()).(peer := Some(sender))
        invariant Valid() && noise == old(noise) && out == old(out)
      {
        if targets[i] == sender {
          found := true;
        }
      }
      assert targets[..|targets|] == targets;
      if !found {
        targets := targets + [sender];
      }
    }

    method HandlePunch(sender: Endpoint, src: string)
      requires Valid()
      modifies this
      ensures Valid() && noise == old(noise)
      ensures var (q, sent) := OnPunch(old(View()), sender, src); View() == q && out == old(out) + sent
    {
      if src == targetId {
        AddSender(sender);
      }
      out := out + [Sent(sender, PunchAck(myId, src))];
    }

    method HandleAck(sender: Endpoint, src: string, draw: Option<Bytes>)
      requires Valid()
      modifies this, noise
      ensures Valid() && noise == old(noise)
      ensures var (q, sent) := OnAck(suite, old(View()), sender, src, draw); View() == q && out == old(out) + sent
    {
      hide StartHandshake;
      AddSender(sender);
      if noiseEnabled {
        punching := false;
        if noiseInitiator {
          StartNoiseHandshake(draw);
        } else {
          ArmTimeout();
        }
      } else if !success {
        CompleteSecurePunch(src);
      }
    }

    method HandleNoiseHandshake(sender: Endpoint, src: string, stage: int, text: Bytes, draw: Option<Bytes>)
      requires Valid()
      modifies this, noise
      ensures Valid() && noise == old(noise)
      ensures var (q, sent) := OnHandshake(suite, old(View()), sender, src, stage, text, draw);
              View() == q && out == old(out) + sent
    {
      hide HandleMessage1, HandleMessage2;
      if !noiseEnabled || noise == null {
        return;
      }
      var payload := suite.decode64(text);
      if payload.None? {
        return;
      }
      peer := Some(sender);
      if stage == 1 && !noiseInitiator {
        var response := noise.HandleHandshakeMessage1(payload.value, draw);
        if response.Some? {
          SendNoiseHandshake(2, response.value);
          CompleteSecurePunch(src);
        } else if noise.complete && lastMessage != [] {
          SendNoiseHandshake(lastStage, lastMessage);
        }
      } else if stage == 2 && noiseInitiator {
        if !noise.complete {
          var ok := noise.HandleHandshakeMessage2(payload.value);
          if ok {
            CompleteSecurePunch(src);
          }
        }
      }
    }

    method HandlePacket(sender: Endpoint, src: string, dst: string, number: Int64, text: Bytes)
      requires Valid()
      modifies this
      ensures Valid() && noise == old(noise)
      ensures var (q, sent) := OnPacket(suite, old(View()), sender, src, dst, number, text);
              View() == q && out == old(out) + sent
    {
      if src == targetId {
        peer := Some(sender);
      }
      if !noiseEnabled || noise == null || !noiseReady || number < 0 {
        return;
      }
      var ciphertext := suite.decode64(text);
      if ciphertext.None? {
        return;
      }
      var plaintext := noise.Decrypt(number, ciphertext.value, PacketAd(src, dst, number));
      if plaintext.Some? {
        out := out + [Delivered(src, plaintext.value, number)];
      }
    }

    method HandleReceive(sender: Endpoint, m: Datagram, draw: Option<Bytes>)
      requires Valid()
      modifies this, noise
      ensures Valid() && noise == old(noise)
      ensures var (q, sent) := Receive(suite, old(View()), sender, m, draw); View() == q && out == old(out) + sent
    {
      hide OnPunch, OnAck, OnHandshake, OnPacket;
      if !m.Other? {
        if m.dst != "" && m.dst != myId {
          return;
        }
        if m.src != "" && m.src == myId {
          return;
        }
      }
      match m
      case Punch(src, _) => HandlePunch(sender, src);
      case PunchAck(src, _) => HandleAck(sender, src, draw);
      case Handshake(src, _, stage, payload) => HandleNoiseHandshake(sender, src, stage, payload, draw);
      case Packet(src, dst, number, payload) => HandlePacket(sender, src, dst, number, payload);
      case Other =>
    }

    method HandleTimeout()
      requires Valid() && Timeout in armed
      modifies this
      ensures Valid() && noise == old(noise)
      ensures var (q, sent) := OnTimeout(old(View())); View() == q && out == old(out) + sent
    {
      punching := false;
      if !success {
        retrySet := false;
        out := out + [PunchDone(false, targetId)];
      }
    }

    method HandleBurst()
      requires Valid() && Burst in armed
      modifies this
      ensures Valid() && noise == old(noise)
      ensures var (q, sent) := OnBurst(old(View())); View() == q && out == old(out) + sent
    {
      hide SendPunches;
      DoSendPunch();
    }

    method HandleRetry()
      requires Valid() && Retry in armed
      modifies this
      ensures Valid() && noise == old(noise)
      ensures var (q, sent) := OnRetry(suite, old(View())); View() == q && out == old(out) + sent
    {
      retrySet := false;
      if success || !noiseInitiator {
        return;
      }
      SendNoiseHandshake(lastStage, lastMessage);
      ScheduleNoiseRetry();
    }

    /** `w` says what the library and the socket do. */
    method SendPeerPacket(src: string, dst: string, number: Int64, payload: Bytes, w: Outcome) returns (ok: bool)
      requires Valid()
      modifies this`out
      ensures var (accepted, sent) := SendPacket(suite, old(View()), src, dst, number, payload, w);
              ok == accepted && out == old(out) + sent
    {
      if !success || peer.None? || !noiseEnabled || noise == null || !noiseReady || number < 0 {
        return false;
      }
      var ciphertext := noise.Encrypt(number, payload, PacketAd(src, dst, number), !w.SealFails?);
      if ciphertext.None? {
        return false;
      }
      if w.SocketFails? {
        return false;
      }
      out := out + [Sent(peer.value, Packet(src, dst, number, suite.encode64(ciphertext.value)))];
      return true;
    }
  }
}
