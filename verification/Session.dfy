/**
 One signalling round: an initiator and a responder punching at each other over a network that may
 lose, duplicate, delay and reorder datagrams (src/client/UdpPuncher.cpp over src/crypto/NoiseProtocol.cpp).

 A run is any sequence of steps; a step that is not possible changes nothing. A datagram can be
 delivered whenever the other end has sent it at some time, so never delivering it, delivering it twice
 and delivering it late are all runs. Every draw gives a key; sealing and sending a packet may fail.
 */
module Session {
  import opened Basics
  import opened Noise
  import opened Puncher

  /** Static private keys, ids and first targets of the two ends. */
  datatype Config = Config(a: Bytes, b: Bytes, idA: string, idB: string, targetsA: seq<Endpoint>,
      targetsB: seq<Endpoint>)

  /** A puncher, everything it has put out, and the packets it has accepted for sending. */
  datatype Node = Node(p: Puncher, out: seq<Output>, accepted: seq<(Int64, Bytes)>)

  datatype Side = Left | Right

  datatype System = System(initiator: Node, responder: Node) {
    function At(side: Side): (r: Node) { if side == Left then initiator else responder }
    function Put(side: Side, n: Node): (r: System) {
      if side == Left then this.(initiator := n) else this.(responder := n)
    }
  }

  function Other(side: Side): (r: Side) { if side == Left then Right else Left }

  datatype Event =
    | Deliver(to: Side, sender: Endpoint, msg: Datagram, draw: Bytes)
    | Fire(at: Side, timer: Timer)
    | Transmit(from: Side, number: Int64, payload: Bytes, outcome: Outcome)

  function Init(s: Suite, c: Config): (r: System) {
    var (p, outA) := Launch(s, Initiator, DeriveKeypair(s, c.a), s.publicKey(c.b), c.targetsA, c.idA, c.idB);
    var (q, outB) := Launch(s, Responder, DeriveKeypair(s, c.b), s.publicKey(c.a), c.targetsB, c.idB, c.idA);
    System(Node(p, outA, []), Node(q, outB, []))
  }

  predicate InFlight(n: Node, m: Datagram) {
    exists o :: o in n.out && o.Sent? && o.msg == m
  }

  function Handle(s: Suite, n: Node, i: Input): (r: Node) {
    var (q, out) := Step(s, n.p, i);
    n.(p := q, out := n.out + out)
  }

  function TimerInput(t: Timer): (r: Input) {
    match t case Burst => Bursts case Timeout => TimesOut case Retry => Retries
  }

  function Next(s: Suite, sys: System, e: Event): (r: System) {
    match e
    case Deliver(to, sender, m, draw) =>
      if InFlight(sys.At(Other(to)), m) then sys.Put(to, Handle(s, sys.At(to), Receives(sender, m, Some(draw))))
          else sys
    case Fire(at, timer) =>
      sys.Put(at, Handle(s, sys.At(at), TimerInput(timer)))
    case Transmit(from, number, payload, w) =>
      var n := sys.At(from);
      var accepted := SendPacket(s, n.p, n.p.myId, n.p.targetId, number, payload, w).0;
      var n' := Handle(s, n, Sends(n.p.myId, n.p.targetId, number, payload, w));
      sys.Put(from, if accepted then n'.(accepted := n.accepted + [(number, payload)]) else n')
  }

  function After(s: Suite, sys: System, events: seq<Event>): (r: System)
    decreases events
  {
    if events == [] then sys else After(s, Next(s, sys, events[0]), events[1..])
  }

  // ----- The invariant -----

  /** The four joint states of the handshake. */
  datatype Phase = Idle | Asked(ea: Bytes) | Replied(ea: Bytes, eb: Bytes) | Agreed(ea: Bytes, eb: Bytes)

  function InitialA(s: Suite, c: Config): (r: State) { Initial(s, Initiator, DeriveKeypair(s, c.a), s.publicKey(c.b)) }
  function InitialB(s: Suite, c: Config): (r: State) { Initial(s, Responder, DeriveKeypair(s, c.b), s.publicKey(c.a)) }

  function ExpectedA(s: Suite, c: Config, f: Phase): (r: State) {
    match f
    case Idle => InitialA(s, c)
    case Asked(ea) => Started(s, c.a, c.b, ea)
    case Replied(ea, _) => Started(s, c.a, c.b, ea)
    case Agreed(ea, eb) => Finished(s, c.a, c.b, ea, s.publicKey(eb))
  }

  function ExpectedB(s: Suite, c: Config, f: Phase): (r: State) {
    match f
    case Idle => InitialB(s, c)
    case Asked(_) => InitialB(s, c)
    case Replied(ea, eb) => Answered(s, c.a, c.b, s.publicKey(ea), eb)
    case Agreed(ea, eb) => Answered(s, c.a, c.b, s.publicKey(ea), eb)
  }

  /** The handshake message an end keeps for retransmission, with its stage; stage 0 is none. */
  function Stored(s: Suite, side: Side, f: Phase): (r: (int, Bytes)) {
    if side == Left then (if f.Idle? then (0, []) else (1, s.publicKey(f.ea)))
    else if f.Idle? || f.Asked? then (0, []) else (2, s.publicKey(f.eb))
  }

  /** What an end in state n may have sent, given the packets it accepted. */
  ghost predicate GenuineMessage(s: Suite, me: string, peer: string, n: State, stored: (int, Bytes),
      mine: seq<(Int64, Bytes)>, m: Datagram)
  {
    match m
    case Punch(src, dst) => src == me
    case PunchAck(src, dst) => src == me
    case Handshake(src, dst, stage, text) => src == me && dst == peer && stage != 0
        && (stage, text) == (stored.0, s.encode64(stored.1))
    case Packet(src, dst, number, text) =>
      && src == me && dst == peer && number >= 0 && n.complete
      && exists payload :: (number, payload) in mine
          && text == s.encode64(s.seal(n.sendKey, Nonce(number), payload, PacketAd(src, dst, number)))
    case Other => false
  }

  /** The packet under a number is the payload, unless nothing was sealed under it. */
  ghost predicate Accepted(theirs: seq<(Int64, Bytes)>, number: Int64, payload: Bytes) {
    exists p :: (number, p) in theirs && (p == payload || p == [])
  }

  /** It hands over only what the other end accepted, under the other end's name. */
  ghost predicate Genuine(s: Suite, me: string, peer: string, n: State, stored: (int, Bytes),
                          mine: seq<(Int64, Bytes)>, theirs: seq<(Int64, Bytes)>, o: Output)
  {
    match o
    case PunchDone(_, _) => true
    case Delivered(src, payload, number) => s.LawfulSeal() ==> src == peer && Accepted(theirs, number, payload)
    case Sent(_, m) => GenuineMessage(s, me, peer, n, stored, mine, m)
  }

  ghost predicate NodeInv(s: Suite, me: string, peer: string, node: Node, n: State, stored: (int, Bytes),
      theirs: seq<(Int64, Bytes)>)
  {
    && Sound(node.p) && node.p.myId == me && node.p.targetId == peer
    && node.p.noise == Some(n) && (node.p.lastStage, node.p.lastMessage) == stored
    && (Retry in node.p.armed ==> stored.0 != 0)
    && forall o :: o in node.out ==> Genuine(s, me, peer, n, stored, node.accepted, theirs, o)
  }

  ghost predicate Inv(s: Suite, c: Config, sys: System, f: Phase) {
    && NodeInv(s, c.idA, c.idB, sys.initiator, ExpectedA(s, c, f), Stored(s, Left, f), sys.responder.accepted)
    && NodeInv(s, c.idB, c.idA, sys.responder, ExpectedB(s, c, f), Stored(s, Right, f), sys.initiator.accepted)
  }

  /** The joint states follow one another as the handshake functions say. */
  lemma PhaseFacts(s: Suite, c: Config, f: Phase, d: Bytes)
    requires s.LawfulDh()
    ensures var nA, nB := ExpectedA(s, c, f), ExpectedB(s, c, f);
            && nA.role == Initiator && nB.role == Responder
            && (nA.complete <==> f.Agreed?) && (nB.complete <==> f.Replied? || f.Agreed?)
            && (f.Idle? ==> BuildMessage1(s, nA, Some(d)) == (ExpectedA(s, c, Asked(d)), Some(s.publicKey(d))))
            && (f.Asked? ==>
                HandleMessage1(s, nB, s.publicKey(f.ea), Some(d))
                == (ExpectedB(s, c, Replied(f.ea, d)), Some(s.publicKey(d))))
            && (f.Replied? ==> HandleMessage2(s, nA, s.publicKey(f.eb)) == (ExpectedA(s, c, Agreed(f.ea, f.eb)), true))
            && (f.Agreed? ==>
                KeysAgree(nA, nB) && nA.h == nB.h && nA.ck == nB.ck && (nA.sendKey, nA.recvKey) == s.hkdf(nA.ck, []))
            && |s.publicKey(d)| == KEY_SIZE
  {
    hide BuildMessage1, HandleMessage1, HandleMessage2, KeysAgree, Started, Answered, Finished;
    RolesAre(s, c, f);
    match f
    case Idle => IdleStep(s, c, d);
    case Asked(ea) => AskedStep(s, c, ea, d);
    case Replied(ea, eb) => RepliedStep(s, c, ea, eb);
    case Agreed(ea, eb) => HandshakeAgrees(s, c.a, c.b, ea, eb);
  }

  lemma RolesAre(s: Suite, c: Config, f: Phase)
    requires s.LawfulDh()
    ensures var nA, nB := ExpectedA(s, c, f), ExpectedB(s, c, f);
            && nA.role == Initiator && nB.role == Responder
            && (nA.complete <==> f.Agreed?) && (nB.complete <==> f.Replied? || f.Agreed?)
  {
    hide Started, Answered, Finished;
    match f
    case Idle =>
    case Asked(ea) => StartedIs(s, c, ea);
    case Replied(ea, eb) => StartedIs(s, c, ea); AnsweredIs(s, c, ea, eb);
    case Agreed(ea, eb) => FinishedIs(s, c, ea, eb); AnsweredIs(s, c, ea, eb);
  }

  lemma StartedIs(s: Suite, c: Config, ea: Bytes)
    requires s.LawfulDh()
    ensures var n := Started(s, c.a, c.b, ea); n.role == Initiator && !n.complete
  {
  }

  lemma AnsweredIs(s: Suite, c: Config, ea: Bytes, eb: Bytes)
    requires s.LawfulDh()
    ensures var n := Answered(s, c.a, c.b, s.publicKey(ea), eb); n.role == Responder && n.complete
  {
  }

  lemma FinishedIs(s: Suite, c: Config, ea: Bytes, eb: Bytes)
    requires s.LawfulDh()
    ensures var n := Finished(s, c.a, c.b, ea, s.publicKey(eb)); n.role == Initiator && n.complete
  {
  }

  lemma IdleStep(s: Suite, c: Config, d: Bytes)
    requires s.LawfulDh()
    ensures BuildMessage1(s, InitialA(s, c), Some(d)) == (Started(s, c.a, c.b, d), Some(s.publicKey(d)))
  {
  }

  lemma AskedStep(s: Suite, c: Config, ea: Bytes, d: Bytes)
    requires s.LawfulDh()
    ensures HandleMessage1(s, InitialB(s, c), s.publicKey(ea), Some(d))
            == (Answered(s, c.a, c.b, s.publicKey(ea), d), Some(s.publicKey(d)))
  {
  }

  lemma RepliedStep(s: Suite, c: Config, ea: Bytes, eb: Bytes)
    requires s.LawfulDh()
    ensures HandleMessage2(s, Started(s, c.a, c.b, ea), s.publicKey(eb))
            == (Finished(s, c.a, c.b, ea, s.publicKey(eb)), true)
  {
  }

  lemma InitInv(s: Suite, c: Config)
    ensures Inv(s, c, Init(s, c), Idle)
  {
    hide Initial, Launch;
    LaunchSound(s, Initiator, DeriveKeypair(s, c.a), s.publicKey(c.b), c.targetsA, c.idA, c.idB);
    LaunchSound(s, Responder, DeriveKeypair(s, c.b), s.publicKey(c.a), c.targetsB, c.idB, c.idA);
  }

  // ----- One step at one end -----

  /** Timers, punches and dropped datagrams leave the handshake alone. */
  lemma QuietStep(s: Suite, me: string, peer: string, node: Node, n: State, stored: (int, Bytes),
      theirs: seq<(Int64, Bytes)>, i: Input)
    requires NodeInv(s, me, peer, node, n, stored, theirs)
    requires i.Bursts? || i.TimesOut? || i.Retries?
            || (i.Receives? && (Ignored(node.p, i.msg) || i.msg.Punch? || i.msg.Other?))
    ensures NodeInv(s, me, peer, Handle(s, node, i), n, stored, theirs)
  {
    hide OnAck, OnHandshake, OnPacket, SendPacket;
    StepSound(s, node.p, i);
    PunchesAre(node.p, node.p.targets);
  }

  lemma AckStepResponder(s: Suite, me: string, peer: string, node: Node, n: State, stored: (int, Bytes),
      theirs: seq<(Int64, Bytes)>, i: Input)
    requires NodeInv(s, me, peer, node, n, stored, theirs)
    requires n.role == Responder && i.Receives? && i.msg.PunchAck?
    ensures NodeInv(s, me, peer, Handle(s, node, i), n, stored, theirs)
  {
    hide StartHandshake;
    StepSound(s, node.p, i);
  }

  /** A packet the other end sealed is opened to what that end accepted, or dropped. */
  lemma PacketStep(s: Suite, me: string, peer: string, node: Node, n: State, stored: (int, Bytes),
      theirs: seq<(Int64, Bytes)>,
                   i: Input, nPeer: State, storedPeer: (int, Bytes))
    requires s.LawfulText()
    requires NodeInv(s, me, peer, node, n, stored, theirs)
    requires n.complete && nPeer.complete ==> n.recvKey == nPeer.sendKey
    requires i.Receives? && i.msg.Packet?
    requires GenuineMessage(s, peer, me, nPeer, storedPeer, theirs, i.msg)
    ensures NodeInv(s, me, peer, Handle(s, node, i), n, stored, theirs)
  {
    hide OnAck, OnHandshake, OnPunch, StartHandshake;
    StepSound(s, node.p, i);
  }

  lemma TransmitStep(s: Suite, me: string, peer: string, node: Node, n: State, stored: (int, Bytes),
      theirs: seq<(Int64, Bytes)>,
                     number: Int64, payload: Bytes, w: Outcome)
    requires NodeInv(s, me, peer, node, n, stored, theirs)
    ensures var (accepted, out) := SendPacket(s, node.p, me, peer, number, payload, w);
            var mine := if accepted then node.accepted + [(number, payload)] else node.accepted;
            NodeInv(s, me, peer, Node(node.p, node.out + out, mine), n, stored, theirs)
  {
    var (accepted, out) := SendPacket(s, node.p, me, peer, number, payload, w);
    if accepted {
      var mine := node.accepted + [(number, payload)];
      assert mine[|node.accepted|] == (number, payload);
      forall o | o in node.out
        ensures Genuine(s, me, peer, n, stored, mine, theirs, o)
      {
        assert Genuine(s, me, peer, n, stored, node.accepted, theirs, o);
      }
    }
  }

  /** What an end put out stays genuine when the other end accepts more packets. */
  lemma MorePackets(s: Suite, me: string, peer: string, node: Node, n: State, stored: (int, Bytes),
      theirs: seq<(Int64, Bytes)>, more: seq<(Int64, Bytes)>)
    requires NodeInv(s, me, peer, node, n, stored, theirs)
    ensures NodeInv(s, me, peer, node, n, stored, theirs + more)
  {
  }

  /** The output of an end that has not completed stays genuine when its handshake moves on. */
  lemma Carry(s: Suite, me: string, peer: string, n: State, stored: (int, Bytes), n': State, stored': (int, Bytes),
              mine: seq<(Int64, Bytes)>, theirs: seq<(Int64, Bytes)>, out: seq<Output>)
    requires forall o :: o in out ==> Genuine(s, me, peer, n, stored, mine, theirs, o)
    requires !n.complete && (stored.0 == 0 || stored == stored')
    ensures forall o :: o in out ==> Genuine(s, me, peer, n', stored', mine, theirs, o)
  {
  }

  lemma AckStepInitiator(s: Suite, c: Config, sys: System, f: Phase, sender: Endpoint, src: string, dst: string,
      d: Bytes) returns (f': Phase)
    requires s.LawfulDh() && Inv(s, c, sys, f)
    ensures Inv(s, c, sys.(initiator := Handle(s, sys.initiator, Receives(sender, PunchAck(src, dst), Some(d)))), f')
    ensures f' == f || (f.Idle? && f' == Asked(d))
  {
    hide Handle, Inv;
    if f.Idle? && !Ignored(sys.initiator.p, PunchAck(src, dst)) {
      f' := Asked(d);
      FirstAck(s, c, sys, sender, src, dst, d);
    } else {
      f' := f;
      LaterAck(s, c, sys, f, sender, src, dst, d);
    }
  }

  lemma FirstAck(s: Suite, c: Config, sys: System, sender: Endpoint, src: string, dst: string, d: Bytes)
    requires s.LawfulDh() && Inv(s, c, sys, Idle) && !Ignored(sys.initiator.p, PunchAck(src, dst))
    ensures Inv(s, c, sys.(initiator := Handle(s, sys.initiator, Receives(sender, PunchAck(src, dst), Some(d)))),
            Asked(d))
  {
    hide BuildMessage1, Started, Initial, OnHandshake, OnPacket, OnPunch;
    PhaseFacts(s, c, Idle, d);
    StepSound(s, sys.initiator.p, Receives(sender, PunchAck(src, dst), Some(d)));
    Carry(s, c.idA, c.idB, ExpectedA(s, c, Idle), Stored(s, Left, Idle), ExpectedA(s, c, Asked(d)),
        Stored(s, Left, Asked(d)),
          sys.initiator.accepted, sys.responder.accepted, sys.initiator.out);
  }

  lemma LaterAck(s: Suite, c: Config, sys: System, f: Phase, sender: Endpoint, src: string, dst: string, d: Bytes)
    requires s.LawfulDh() && Inv(s, c, sys, f) && (!f.Idle? || Ignored(sys.initiator.p, PunchAck(src, dst)))
    ensures Inv(s, c, sys.(initiator := Handle(s, sys.initiator, Receives(sender, PunchAck(src, dst), Some(d)))), f)
  {
    hide BuildMessage1, ExpectedA, ExpectedB, OnHandshake, OnPacket, OnPunch;
    PhaseFacts(s, c, f, d);
    StepSound(s, sys.initiator.p, Receives(sender, PunchAck(src, dst), Some(d)));
    if !f.Idle? {
      assert |s.publicKey(f.ea)| == KEY_SIZE by {
        PhaseFacts(s, c, f, f.ea);
      }
    }
  }

  lemma HandshakeStepResponder(s: Suite, c: Config, sys: System, f: Phase, sender: Endpoint, m: Datagram, d: Bytes)
      returns (f': Phase)
    requires s.LawfulHandshake() && Inv(s, c, sys, f) && m.Handshake?
    requires GenuineMessage(s, c.idA, c.idB, ExpectedA(s, c, f), Stored(s, Left, f), sys.initiator.accepted, m)
    ensures Inv(s, c, sys.(responder := Handle(s, sys.responder, Receives(sender, m, Some(d)))), f')
    ensures f' == if f.Asked? && !Ignored(sys.responder.p, m) then Replied(f.ea, d) else f
  {
    hide HandleMessage1, Started, Answered, Finished, Initial;
    var node := sys.responder;
    var i := Receives(sender, m, Some(d));
    PhaseFacts(s, c, f, d);
    StepSound(s, node.p, i);
    f' := f;
    if !Ignored(node.p, m) {
      assert s.decode64(m.payload) == Some(s.publicKey(f.ea));
      HandleMessage1Keeps(s, node.p.noise.value, s.publicKey(f.ea), Some(d));
      if f.Asked? {
        f' := Replied(f.ea, d);
        Carry(s, c.idB, c.idA, ExpectedB(s, c, f), Stored(s, Right, f), ExpectedB(s, c, f'), Stored(s, Right, f'),
              node.accepted, sys.initiator.accepted, node.out);
      }
    }
  }

  lemma HandshakeStepInitiator(s: Suite, c: Config, sys: System, f: Phase, sender: Endpoint, m: Datagram,
      d: Option<Bytes>) returns (f': Phase)
    requires s.LawfulHandshake() && Inv(s, c, sys, f) && m.Handshake?
    requires GenuineMessage(s, c.idB, c.idA, ExpectedB(s, c, f), Stored(s, Right, f), sys.responder.accepted, m)
    ensures Inv(s, c, sys.(initiator := Handle(s, sys.initiator, Receives(sender, m, d))), f')
    ensures f' == if f.Replied? && !Ignored(sys.initiator.p, m) then Agreed(f.ea, f.eb) else f
  {
    hide HandleMessage2, Started, Answered, Finished, Initial;
    var node := sys.initiator;
    var i := Receives(sender, m, d);
    PhaseFacts(s, c, f, []);
    StepSound(s, node.p, i);
    f' := f;
    if !Ignored(node.p, m) {
      assert s.decode64(m.payload) == Some(s.publicKey(f.eb));
      if f.Replied? {
        f' := Agreed(f.ea, f.eb);
        Carry(s, c.idA, c.idB, ExpectedA(s, c, f), Stored(s, Left, f), ExpectedA(s, c, f'), Stored(s, Left, f'),
              node.accepted, sys.responder.accepted, node.out);
      }
    }
  }

  /** The handshake only moves forward, and a key once drawn stays. */
  predicate Forward(f: Phase, g: Phase) {
    || f == g || f.Idle?
    || (f.Asked? && !g.Idle? && g.ea == f.ea)
    || (f.Replied? && g == Agreed(f.ea, f.eb))
  }

  lemma EventInv(s: Suite, c: Config, sys: System, f: Phase, e: Event) returns (f': Phase)
    requires s.LawfulHandshake() && Inv(s, c, sys, f)
    ensures Inv(s, c, Next(s, sys, e), f') && Forward(f, f')
  {
    hide ExpectedA, ExpectedB, Receive, OnBurst, OnTimeout, OnRetry, SendPacket;
    f' := f;
    match e
    case Deliver(to, sender, m, d) =>
      if InFlight(sys.At(Other(to)), m) {
        f' := DeliverInv(s, c, sys, f, to, sender, m, d);
      }
    case Fire(at, timer) =>
      var i := TimerInput(timer);
      if at == Left {
        QuietStep(s, c.idA, c.idB, sys.initiator, ExpectedA(s, c, f), Stored(s, Left, f), sys.responder.accepted, i);
      } else {
        QuietStep(s, c.idB, c.idA, sys.responder, ExpectedB(s, c, f), Stored(s, Right, f), sys.initiator.accepted, i);
      }
    case Transmit(from, number, payload, w) =>
      if from == Left {
        TransmitStep(s, c.idA, c.idB, sys.initiator, ExpectedA(s, c, f), Stored(s, Left, f), sys.responder.accepted,
            number, payload, w);
        MorePackets(s, c.idB, c.idA, sys.responder, ExpectedB(s, c, f), Stored(s, Right, f), sys.initiator.accepted,
            [(number, payload)]);
      } else {
        TransmitStep(s, c.idB, c.idA, sys.responder, ExpectedB(s, c, f), Stored(s, Right, f), sys.initiator.accepted,
            number, payload, w);
        MorePackets(s, c.idA, c.idB, sys.initiator, ExpectedA(s, c, f), Stored(s, Left, f), sys.responder.accepted,
            [(number, payload)]);
      }
  }

  lemma DeliverInv(s: Suite, c: Config, sys: System, f: Phase, to: Side, sender: Endpoint, m: Datagram, d: Bytes)
      returns (f': Phase)
    requires s.LawfulHandshake() && Inv(s, c, sys, f)
    requires InFlight(sys.At(Other(to)), m)
    ensures Inv(s, c, sys.Put(to, Handle(s, sys.At(to), Receives(sender, m, Some(d)))), f') && Forward(f, f')
  {
    hide Step, ExpectedA, ExpectedB;
    var i := Receives(sender, m, Some(d));
    var nA, nB, sA, sB := ExpectedA(s, c, f), ExpectedB(s, c, f), Stored(s, Left, f), Stored(s, Right, f);
    PhaseFacts(s, c, f, d);
    f' := f;
    if to == Left {
      match m
      case Punch(_, _) => QuietStep(s, c.idA, c.idB, sys.initiator, nA, sA, sys.responder.accepted, i);
      case PunchAck(src, dst) => f' := AckStepInitiator(s, c, sys, f, sender, src, dst, d);
      case Handshake(_, _, _, _) => f' := HandshakeStepInitiator(s, c, sys, f, sender, m, Some(d));
      case Packet(_, _, _, _) => PacketStep(s, c.idA, c.idB, sys.initiator, nA, sA, sys.responder.accepted, i, nB, sB);
      case Other => QuietStep(s, c.idA, c.idB, sys.initiator, nA, sA, sys.responder.accepted, i);
    } else {
      match m
      case Punch(_, _) => QuietStep(s, c.idB, c.idA, sys.responder, nB, sB, sys.initiator.accepted, i);
      case PunchAck(_, _) => AckStepResponder(s, c.idB, c.idA, sys.responder, nB, sB, sys.initiator.accepted, i);
      case Handshake(_, _, _, _) => f' := HandshakeStepResponder(s, c, sys, f, sender, m, d);
      case Packet(_, _, _, _) => PacketStep(s, c.idB, c.idA, sys.responder, nB, sB, sys.initiator.accepted, i, nA, sA);
      case Other => QuietStep(s, c.idB, c.idA, sys.responder, nB, sB, sys.initiator.accepted, i);
    }
  }

  lemma {:induction false} RunInv(s: Suite, c: Config, sys: System, f: Phase, events: seq<Event>) returns (f': Phase)
    requires s.LawfulHandshake() && Inv(s, c, sys, f)
    ensures Inv(s, c, After(s, sys, events), f') && Forward(f, f')
    decreases events
  {
    hide Inv, Next;
    f' := f;
    if events != [] {
      var g := EventInv(s, c, sys, f, events[0]);
      f' := RunInv(s, c, Next(s, sys, events[0]), g, events[1..]);
    }
  }

  // ----- What every run guarantees -----

  /**
   In every run the initiator completes only after the responder has, and once both have completed they
   hold crossed keys, the same transcript hash and the same chaining key.
   */
  lemma KeyAgreement(s: Suite, c: Config, events: seq<Event>)
    requires s.LawfulHandshake()
    ensures var sys := After(s, Init(s, c), events);
            && sys.initiator.p.noise.Some? && sys.responder.p.noise.Some?
            && var nA, nB := sys.initiator.p.noise.value, sys.responder.p.noise.value;
            && (nA.complete ==> nB.complete)
            && (nA.complete && nB.complete ==>
                KeysAgree(nA, nB) && nA.h == nB.h && nA.ck == nB.ck && (nA.sendKey, nA.recvKey) == s.hkdf(nA.ck, []))
  {
    hide After, Init, ExpectedA, ExpectedB;
    InitInv(s, c);
    var f := RunInv(s, c, Init(s, c), Idle, events);
    PhaseFacts(s, c, f, []);
  }

  /**
   Whatever happens after an end has completed, its keys, transcript and draws never change again, and a
   completed responder keeps its message 2, the public key of the draw its keys were made with.
   */
  lemma CompletedIsFrozen(s: Suite, c: Config, events: seq<Event>, later: seq<Event>)
    requires s.LawfulHandshake()
    ensures var before := After(s, Init(s, c), events);
            var after := After(s, before, later);
            && before.initiator.p.noise.Some? && before.responder.p.noise.Some?
            && (before.initiator.p.noise.value.complete ==> after.initiator.p.noise == before.initiator.p.noise)
            && (before.responder.p.noise.value.complete ==>
                && after.responder.p.noise == before.responder.p.noise
                && before.responder.p.noise.value.localEphemeral.Some?
                && (after.responder.p.lastStage, after.responder.p.lastMessage)
                   == (2, before.responder.p.noise.value.localEphemeral.value.public))
  {
    hide After, Init, ExpectedA, ExpectedB;
    InitInv(s, c);
    var f := RunInv(s, c, Init(s, c), Idle, events);
    var g := RunInv(s, c, After(s, Init(s, c), events), f, later);
    PhaseFacts(s, c, f, []);
    PhaseFacts(s, c, g, []);
    if f.Replied? || f.Agreed? {
      RepliedDraw(s, c, f);
      ExpectedSame(s, c, f, g);
    }
  }

  lemma RepliedDraw(s: Suite, c: Config, f: Phase)
    requires s.LawfulDh() && (f.Replied? || f.Agreed?)
    ensures ExpectedB(s, c, f).localEphemeral == Some(DeriveKeypair(s, f.eb))
  {
  }

  lemma ExpectedSame(s: Suite, c: Config, f: Phase, g: Phase)
    requires Forward(f, g) && (f.Replied? || f.Agreed?)
    ensures ExpectedB(s, c, f) == ExpectedB(s, c, g) && Stored(s, Right, f) == Stored(s, Right, g)
    ensures f.Agreed? ==> f == g
  {
    hide Answered;
  }

  /**
   Every packet handed over at either end, in every run, is the one the other end accepted under that number,
   byte for byte. Of an empty packet, whose sealing the program leaves undefined, only the number is sure.
   */
  lemma PacketIdentity(s: Suite, c: Config, events: seq<Event>, side: Side, o: Output)
    requires s.Lawful()
    requires o in After(s, Init(s, c), events).At(side).out && o.Delivered?
    ensures o.src == (if side == Left then c.idB else c.idA)
    ensures Accepted(After(s, Init(s, c), events).At(Other(side)).accepted, o.number, o.payload)
  {
    hide After, Init, ExpectedA, ExpectedB;
    InitInv(s, c);
    var f := RunInv(s, c, Init(s, c), Idle, events);
  }

  /** What an end sends for an accepted packet, from any state the run reaches. */
  function Sealed(s: Suite, p: Puncher, number: Int64, payload: Bytes): (r: Datagram)
    requires p.noise.Some? && number >= 0
  {
    Packet(p.myId, p.targetId, number,
           s.encode64(s.seal(p.noise.value.sendKey, Nonce(number), payload, PacketAd(p.myId, p.targetId, number))))
  }

  /**
   A packet sealed by an end that has completed is handed over unchanged whenever it arrives: at once, or after
   anything else has happened, as long as the other end has completed by then.
   */
  lemma PacketArrives(s: Suite, c: Config, events: seq<Event>, later: seq<Event>, side: Side, number: Int64,
      payload: Bytes,
                      sender: Endpoint, d: Option<Bytes>)
    requires s.Lawful() && number >= 0 && payload != [] && c.idA != c.idB
    requires After(s, Init(s, c), events).At(Other(side)).p.noiseReady
    requires After(s, After(s, Init(s, c), events), later).At(side).p.noiseReady
    ensures var sys := After(s, Init(s, c), events);
            var (from, to) := (sys.At(Other(side)).p, After(s, sys, later).At(side).p);
            && from.noise.Some?
            && Step(s, to, Receives(sender, Sealed(s, from, number, payload), d)).1
                == [Delivered(from.myId, payload, number)]
  {
    hide After, Init, ExpectedA, ExpectedB, Step;
    InitInv(s, c);
    var f := RunInv(s, c, Init(s, c), Idle, events);
    var g := RunInv(s, c, After(s, Init(s, c), events), f, later);
    PhaseFacts(s, c, f, []);
    PhaseFacts(s, c, g, []);
    if f.Replied? || f.Agreed? {
      ExpectedSame(s, c, f, g);
    }
    var sys := After(s, Init(s, c), events);
    Opens(s, sys.At(Other(side)).p, After(s, sys, later).At(side).p, number, payload, sender, d);
  }

  /**
   There is no replay window: a packet's datagram delivered a second time, at any later time, is handed over a
   second time.
   */
  lemma PacketRepeats(s: Suite, c: Config, events: seq<Event>, later: seq<Event>, more: seq<Event>, side: Side,
      number: Int64, payload: Bytes, x: Endpoint, y: Endpoint, d: Bytes)
    requires s.Lawful() && number >= 0 && payload != [] && c.idA != c.idB
    requires After(s, Init(s, c), events).At(Other(side)).p.noiseReady
    requires var sys := After(s, Init(s, c), events);
             var mid := After(s, sys, later);
             && sys.At(Other(side)).p.noise.Some? && mid.At(side).p.noiseReady
             && InFlight(mid.At(Other(side)), Sealed(s, sys.At(Other(side)).p, number, payload))
    ensures var sys := After(s, Init(s, c), events);
            var mid := After(s, sys, later);
            var m := Sealed(s, sys.At(Other(side)).p, number, payload);
            var once := Next(s, mid, Deliver(side, x, m, d));
            var end := After(s, once, more);
            var twice := Next(s, end, Deliver(side, y, m, d));
            var o := Delivered(sys.At(Other(side)).p.myId, payload, number);
            && once.At(side).out == mid.At(side).out + [o] && mid.At(side).out <= end.At(side).out
            && twice.At(side).out == end.At(side).out + [o]
  {
    hide After, Init, Step, Sealed;
    var sys := After(s, Init(s, c), events);
    var mid := After(s, sys, later);
    var m := Sealed(s, sys.At(Other(side)).p, number, payload);
    var e := Deliver(side, x, m, d);
    var once := Next(s, mid, e);
    PacketArrives(s, c, events, later, side, number, payload, x, Some(d));
    AfterJoins(s, sys, later, [e] + more);
    AfterStep(s, mid, e, more);
    AfterJoins(s, Init(s, c), events, later);
    ReadyStays(s, c, events + later, [e] + more, side);
    PacketArrives(s, c, events, later + ([e] + more), side, number, payload, y, Some(d));
    AfterGrows(s, once, more);
  }

  lemma AfterStep(s: Suite, sys: System, e: Event, more: seq<Event>)
    ensures After(s, sys, [e] + more) == After(s, Next(s, sys, e), more)
  {
    hide Next;
    assert ([e] + more)[1..] == more;
  }

  lemma {:induction false} AfterJoins(s: Suite, sys: System, a: seq<Event>, b: seq<Event>)
    ensures After(s, sys, a + b) == After(s, After(s, sys, a), b)
    decreases |a|
  {
    hide Next;
    if a == [] {
      assert a + b == b;
    } else {
      AfterJoins(s, Next(s, sys, a[0]), a[1..], b);
      assert (a + b)[1..] == a[1..] + b && (a + b)[0] == a[0];
    }
  }

  /** What has been put out stays put out, and a sent datagram in flight. */
  lemma {:induction false} AfterGrows(s: Suite, sys: System, events: seq<Event>)
    ensures forall side :: sys.At(side).out <= After(s, sys, events).At(side).out
    ensures forall side, m :: InFlight(sys.At(side), m) ==> InFlight(After(s, sys, events).At(side), m)
    decreases events
  {
    hide Step, SendPacket;
    if events != [] {
      AfterGrows(s, Next(s, sys, events[0]), events[1..]);
    }
  }

  lemma ReadyStays(s: Suite, c: Config, events: seq<Event>, later: seq<Event>, side: Side)
    requires s.LawfulHandshake() && After(s, Init(s, c), events).At(side).p.noiseReady
    ensures After(s, After(s, Init(s, c), events), later).At(side).p.noiseReady
  {
    hide After, Init;
    CompletedIsFrozen(s, c, events, later);
    ReadyIsComplete(s, c, events);
    InitInv(s, c);
    AfterJoins(s, Init(s, c), events, later);
    ReadyIsComplete(s, c, events + later);
  }

  lemma ReadyIsComplete(s: Suite, c: Config, events: seq<Event>)
    requires s.LawfulHandshake()
    ensures forall side :: var p := After(s, Init(s, c), events).At(side).p;
              p.noise.Some? && p.noiseReady == p.noise.value.complete
  {
    hide After, Init;
    InitInv(s, c);
    var f := RunInv(s, c, Init(s, c), Idle, events);
  }

  /** What one end seals another that receives under the same key and expects it opens. */
  lemma Opens(s: Suite, from: Puncher, to: Puncher, number: Int64, payload: Bytes, sender: Endpoint, d: Option<Bytes>)
    requires s.Lawful() && number >= 0 && payload != [] && from.noise.Some?
    requires Sound(to) && to.noiseReady && to.noise.value.recvKey == from.noise.value.sendKey
    requires to.myId == from.targetId && to.myId != from.myId
    ensures Step(s, to, Receives(sender, Sealed(s, from, number, payload), d)).1
            == [Delivered(from.myId, payload, number)]
  {
    hide OnAck, OnHandshake, OnPunch;
  }

  /** To a completed responder, a repeated message 1 is answered with the very same message 2 and changes no key. */
  lemma DuplicateMessage1(s: Suite, c: Config, events: seq<Event>, m: Datagram, sender: Endpoint, d: Bytes)
    requires s.LawfulHandshake() && c.idA != c.idB
    requires var sys := After(s, Init(s, c), events);
             InFlight(sys.initiator, m) && m.Handshake? && sys.responder.p.success
    ensures var p := After(s, Init(s, c), events).responder.p;
            && p.noise.Some? && p.noise.value.localEphemeral.Some?
            && Step(s, p, Receives(sender, m, Some(d)))
               == (p.(peer := Some(sender)),
                   [Sent(sender, Handshake(c.idB, c.idA, 2, s.encode64(p.noise.value.localEphemeral.value.public)))])
  {
    hide After, Init, ExpectedA, ExpectedB, HandleMessage1, OnAck, OnPacket, OnPunch;
    InitInv(s, c);
    var f := RunInv(s, c, Init(s, c), Idle, events);
    PhaseFacts(s, c, f, []);
    RepliedDraw(s, c, f);
    HandleMessage1Keeps(s, ExpectedB(s, c, f), s.publicKey(f.ea), Some(d));
    assert |s.publicKey(f.eb)| == KEY_SIZE;
  }

  /** To a completed initiator, a repeated message 2 only refreshes the peer's address. */
  lemma DuplicateMessage2(s: Suite, c: Config, events: seq<Event>, m: Datagram, sender: Endpoint, d: Option<Bytes>)
    requires s.LawfulHandshake() && c.idA != c.idB
    requires var sys := After(s, Init(s, c), events);
             InFlight(sys.responder, m) && m.Handshake? && sys.initiator.p.success
    ensures var p := After(s, Init(s, c), events).initiator.p;
            Step(s, p, Receives(sender, m, d)) == (p.(peer := Some(sender)), [])
  {
    hide After, Init, ExpectedA, ExpectedB, HandleMessage2, OnAck, OnPacket, OnPunch;
    InitInv(s, c);
    var f := RunInv(s, c, Init(s, c), Idle, events);
    PhaseFacts(s, c, f, []);
  }

  // ----- When the handshake can finish -----

  lemma {:induction false} RunRetryInv(s: Suite, c: Config, sys: System, f: Phase, events: seq<Event>)
    requires s.LawfulHandshake() && Inv(s, c, sys, f) && RetryInv(sys.initiator.p)
    ensures RetryInv(After(s, sys, events).initiator.p)
    decreases events
  {
    if events != [] {
      hide Inv, RetryInv, Step;
      InvSound(s, c, sys, f);
      NextRetryInv(s, sys, events[0]);
      var g := EventInv(s, c, sys, f, events[0]);
      RunRetryInv(s, c, Next(s, sys, events[0]), g, events[1..]);
    }
  }

  lemma InvSound(s: Suite, c: Config, sys: System, f: Phase)
    requires Inv(s, c, sys, f)
    ensures Sound(sys.initiator.p) && Sound(sys.responder.p)
  {
  }

  lemma NextRetryInv(s: Suite, sys: System, e: Event)
    requires s.LawfulDh() && Sound(sys.initiator.p) && RetryInv(sys.initiator.p)
    ensures RetryInv(Next(s, sys, e).initiator.p)
  {
    hide RetryInv, Step, Sound;
    var p := sys.initiator.p;
    match e
    case Deliver(to, sender, m, d) => StepRetry(s, p, Receives(sender, m, Some(d)));
    case Fire(at, timer) => StepRetry(s, p, TimerInput(timer));
    case Transmit(from, number, payload, w) => StepRetry(s, p, Sends(p.myId, p.targetId, number, payload, w));
  }

  lemma InitRetryInv(s: Suite, c: Config)
    ensures RetryInv(Init(s, c).initiator.p)
  {
    hide Launch;
    LaunchSound(s, Initiator, DeriveKeypair(s, c.a), s.publicKey(c.b), c.targetsA, c.idA, c.idB);
  }

  /** The first thing an end has put out since. */
  function FirstNew(before: Node, after: Node): (r: Option<Output>) {
    if |after.out| > |before.out| then Some(after.out[|before.out|]) else None
  }

  /** The responder answers the message 1 of the round, the first time and every other. */
  lemma AnswersMessage1(s: Suite, c: Config, sys: System, f: Phase, sender: Endpoint, d: Bytes) returns (g: Phase)
    requires s.LawfulHandshake() && Inv(s, c, sys, f) && c.idA != c.idB && (f.Asked? || f.Replied?)
    ensures var m := Handshake(c.idA, c.idB, 1, s.encode64(s.publicKey(f.ea)));
            var node := Handle(s, sys.responder, Receives(sender, m, Some(d)));
            && g.Replied? && Inv(s, c, sys.(responder := node), g)
            && FirstNew(sys.responder, node)
                == Some(Sent(sender, Handshake(c.idB, c.idA, 2, s.encode64(s.publicKey(g.eb)))))
  {
    hide ExpectedA, ExpectedB, HandleMessage1, OnAck, OnPacket, OnPunch;
    var m := Handshake(c.idA, c.idB, 1, s.encode64(s.publicKey(f.ea)));
    PhaseFacts(s, c, f, d);
    g := HandshakeStepResponder(s, c, sys, f, sender, m, d);
    HandleMessage1Keeps(s, ExpectedB(s, c, f), s.publicKey(f.ea), Some(d));
    assert |s.publicKey(g.eb)| == KEY_SIZE;
  }

  /** An event at the initiator by which its stored message 1 leaves for an address. */
  ghost predicate Asks(s: Suite, c: Config, sys: System, e: Event, dest: Endpoint) {
    var next := Next(s, sys, e);
    && next == sys.(initiator := next.initiator) && next.initiator.p.lastMessage == sys.initiator.p.lastMessage
    && next.initiator.out
        == sys.initiator.out + [Sent(dest, Handshake(c.idA, c.idB, 1, s.encode64(sys.initiator.p.lastMessage)))]
  }

  /** Both ends succeed after an event, the delivery of the message 1 it sends, and that of the answer. */
  ghost predicate Finishes(s: Suite, c: Config, sys: System, e: Event, dest: Endpoint, atB: Endpoint, atA: Endpoint,
      d: Bytes)
  {
    var m1 := Handshake(c.idA, c.idB, 1, s.encode64(sys.initiator.p.lastMessage));
    var sys1 := Next(s, sys, e);
    var sys2 := Next(s, sys1, Deliver(Right, atB, m1, d));
    var m2 := Handshake(c.idB, c.idA, 2, s.encode64(sys2.responder.p.lastMessage));
    var sys3 := Next(s, sys2, Deliver(Left, atA, m2, d));
    && FirstNew(sys.initiator, sys1.initiator) == Some(Sent(dest, m1))
    && FirstNew(sys1.responder, sys2.responder) == Some(Sent(atB, m2))
    && sys3.initiator.p.success && sys3.initiator.p.noiseReady && sys3.responder.p.success
    && sys3.responder.p.noiseReady
  }

  lemma AskedFinishes(s: Suite, c: Config, sys: System, f: Phase, e: Event, dest: Endpoint, atB: Endpoint,
      atA: Endpoint, d: Bytes)
    requires s.LawfulHandshake() && c.idA != c.idB && (f.Asked? || f.Replied?)
    requires Inv(s, c, sys, f) && Inv(s, c, Next(s, sys, e), f) && Asks(s, c, sys, e, dest)
    ensures Finishes(s, c, sys, e, dest, atB, atA, d)
  {
    hide ExpectedA, ExpectedB, Handle, Next;
    var sys1 := Next(s, sys, e);
    PhaseFacts(s, c, f, d);
    var m1 := Handshake(c.idA, c.idB, 1, s.encode64(s.publicKey(f.ea)));
    assert Sent(dest, m1) in sys1.initiator.out;
    var g := AnswersMessage1(s, c, sys1, f, atB, d);
    DeliverIs(s, sys1, Right, atB, m1, d);
    AnsweredFinishes(s, c, Next(s, sys1, Deliver(Right, atB, m1, d)), g, atB, atA, d);
  }

  lemma AnsweredFinishes(s: Suite, c: Config, sys: System, f: Phase, atB: Endpoint, atA: Endpoint, d: Bytes)
    requires s.LawfulHandshake() && c.idA != c.idB && f.Replied? && Inv(s, c, sys, f)
    requires Sent(atB, Handshake(c.idB, c.idA, 2, s.encode64(s.publicKey(f.eb)))) in sys.responder.out
    ensures var m2 := Handshake(c.idB, c.idA, 2, s.encode64(sys.responder.p.lastMessage));
            var end := Next(s, sys, Deliver(Left, atA, m2, d));
            && sys.responder.p.lastMessage == s.publicKey(f.eb)
            && end.initiator.p.success && end.initiator.p.noiseReady && end.responder.p.success
            && end.responder.p.noiseReady
  {
    hide ExpectedA, ExpectedB, Handle, Next;
    var m2 := Handshake(c.idB, c.idA, 2, s.encode64(s.publicKey(f.eb)));
    PhaseFacts(s, c, f, d);
    var h := HandshakeStepInitiator(s, c, sys, f, atA, m2, Some(d));
    DeliverIs(s, sys, Left, atA, m2, d);
    PhaseFacts(s, c, h, d);
  }

  lemma DeliverIs(s: Suite, sys: System, to: Side, sender: Endpoint, m: Datagram, d: Bytes)
    requires InFlight(sys.At(Other(to)), m)
    ensures Next(s, sys, Deliver(to, sender, m, d))
            == sys.Put(to, Handle(s, sys.At(to), Receives(sender, m, Some(d))))
  {
  }

  lemma RetryAsks(s: Suite, c: Config, sys: System, f: Phase) returns (dest: Endpoint)
    requires s.LawfulHandshake() && Inv(s, c, sys, f) && RetryInv(sys.initiator.p) && sys.initiator.p.retrySet
    ensures (f.Asked? || f.Replied?) && sys.initiator.p.peer == Some(dest)
    ensures Inv(s, c, Next(s, sys, Fire(Left, Retry)), f) && Asks(s, c, sys, Fire(Left, Retry), dest)
  {
    hide ExpectedA, ExpectedB;
    PhaseFacts(s, c, f, []);
    dest := sys.initiator.p.peer.value;
    QuietStep(s, c.idA, c.idB, sys.initiator, ExpectedA(s, c, f), Stored(s, Left, f), sys.responder.accepted, Retries);
  }

  lemma AckAsks(s: Suite, c: Config, sys: System, f: Phase, from: Endpoint, src: string, d: Bytes)
    requires s.LawfulHandshake() && Inv(s, c, sys, f) && RetryInv(sys.initiator.p) && Waits(sys.initiator.p)
    requires InFlight(sys.responder, PunchAck(src, c.idA)) && src != c.idA
    ensures f.Asked? || f.Replied?
    ensures var e := Deliver(Left, from, PunchAck(src, c.idA), d);
            Inv(s, c, Next(s, sys, e), f) && Asks(s, c, sys, e, from)
  {
    hide ExpectedA, ExpectedB, BuildMessage1, OnHandshake, OnPacket, OnPunch;
    PhaseFacts(s, c, f, []);
    LaterAck(s, c, sys, f, from, src, c.idA, d);
  }

  /**
   In every reachable state in which the retry timer is set, the handshake can still finish, on datagrams sent
   from then on alone: the retry resends message 1, and delivering it and its answer completes both ends.
   */
  lemma CanStillFinish(s: Suite, c: Config, events: seq<Event>, atB: Endpoint, atA: Endpoint, d: Bytes)
    requires s.LawfulHandshake() && c.idA != c.idB
    requires After(s, Init(s, c), events).initiator.p.retrySet
    ensures var sys := After(s, Init(s, c), events);
            && sys.initiator.p.peer.Some?
            && Finishes(s, c, sys, Fire(Left, Retry), sys.initiator.p.peer.value, atB, atA, d)
  {
    hide After, Init, Next, Inv, Asks, Finishes;
    InitInv(s, c);
    InitRetryInv(s, c);
    var f := RunInv(s, c, Init(s, c), Idle, events);
    RunRetryInv(s, c, Init(s, c), Idle, events);
    var sys := After(s, Init(s, c), events);
    var dest := RetryAsks(s, c, sys, f);
    AskedFinishes(s, c, sys, f, Fire(Left, Retry), dest, atB, atA, d);
  }

  /**
   In every reachable state in which a message 1 is stored, a failure reported before or not, an acknowledgement
   still in flight lets it finish in the same way.
   */
  lemma AckLetsFinish(s: Suite, c: Config, events: seq<Event>, from: Endpoint, atB: Endpoint, atA: Endpoint, d: Bytes)
    requires s.LawfulHandshake() && c.idA != c.idB
    requires Waits(After(s, Init(s, c), events).initiator.p)
    requires InFlight(After(s, Init(s, c), events).responder, PunchAck(c.idB, c.idA))
    ensures Finishes(s, c, After(s, Init(s, c), events), Deliver(Left, from, PunchAck(c.idB, c.idA), d), from, atB, atA,
                     d)
  {
    hide After, Init, Next, Inv, Asks, Finishes, InFlight, Waits;
    InitInv(s, c);
    InitRetryInv(s, c);
    var f := RunInv(s, c, Init(s, c), Idle, events);
    RunRetryInv(s, c, Init(s, c), Idle, events);
    var sys := After(s, Init(s, c), events);
    AckAsks(s, c, sys, f, from, c.idB, d);
    AskedFinishes(s, c, sys, f, Deliver(Left, from, PunchAck(c.idB, c.idA), d), from, atB, atA, d);
  }

  // ----- From a punch to a session -----

  function IdOf(c: Config, side: Side): (r: string) { if side == Left then c.idA else c.idB }

  lemma NamesAre(s: Suite, c: Config, events: seq<Event>, side: Side)
    requires s.LawfulHandshake()
    ensures var p := After(s, Init(s, c), events).At(side).p;
            Sound(p) && p.myId == IdOf(c, side) && p.targetId == IdOf(c, Other(side))
  {
    hide After, Init, ExpectedA, ExpectedB;
    InitInv(s, c);
    var f := RunInv(s, c, Init(s, c), Idle, events);
  }

  /** In every reachable state a punch that arrives is acknowledged, once, to where it came from. */
  lemma PunchIsAcknowledged(s: Suite, c: Config, events: seq<Event>, side: Side, sender: Endpoint, d: Bytes)
    requires s.LawfulHandshake() && c.idA != c.idB
    requires InFlight(After(s, Init(s, c), events).At(Other(side)), Punch(IdOf(c, Other(side)), IdOf(c, side)))
    ensures var sys := After(s, Init(s, c), events);
            var next := Next(s, sys, Deliver(side, sender, Punch(IdOf(c, Other(side)), IdOf(c, side)), d));
            && next.At(side).out
                == sys.At(side).out + [Sent(sender, PunchAck(IdOf(c, side), IdOf(c, Other(side))))]
            && next.At(side).p.peer == Some(sender) && next.At(Other(side)) == sys.At(Other(side))
  {
    hide After, Init, OnAck, OnHandshake, OnPacket;
    NamesAre(s, c, events, side);
  }

  /** Where a punch came from is punched back by the next burst, be it a target or not. */
  lemma DiscoveredIsPunched(s: Suite, c: Config, events: seq<Event>, side: Side, sender: Endpoint, d: Bytes)
    requires s.LawfulHandshake() && c.idA != c.idB
    requires InFlight(After(s, Init(s, c), events).At(Other(side)), Punch(IdOf(c, Other(side)), IdOf(c, side)))
    requires var p := After(s, Init(s, c), events).At(side).p; p.punching && !p.success && Burst in p.armed
    ensures var heard := Next(s, After(s, Init(s, c), events),
                              Deliver(side, sender, Punch(IdOf(c, Other(side)), IdOf(c, side)), d));
            var next := Next(s, heard, Fire(side, Burst));
            && heard.At(side).out <= next.At(side).out
            && Sent(sender, Punch(IdOf(c, side), IdOf(c, Other(side)))) in next.At(side).out[|heard.At(side).out|..]
  {
    hide After, Init, OnAck, OnHandshake, OnPacket, Punches;
    NamesAre(s, c, events, side);
    var p := After(s, Init(s, c), events).At(side).p;
    PunchesReach(Discover(p, sender), Discover(p, sender).targets, sender);
  }

  /** Starting puts a punch to every target on its way, at either end. */
  lemma InitPunches(s: Suite, c: Config, side: Side, target: Endpoint)
    requires target in (if side == Left then c.targetsA else c.targetsB)
    ensures Sent(target, Punch(IdOf(c, side), IdOf(c, Other(side)))) in Init(s, c).At(side).out
    ensures InFlight(Init(s, c).At(side), Punch(IdOf(c, side), IdOf(c, Other(side))))
  {
    hide Initial, Punches;
    var targets := if side == Left then c.targetsA else c.targetsB;
    var blank := Puncher("", "", targets, false, false, None, false, false, false, 0, [], None, {}, false);
    var (role, local, remote) := if side == Left then (Initiator, DeriveKeypair(s, c.a), s.publicKey(c.b))
        else (Responder, DeriveKeypair(s, c.b), s.publicKey(c.a));
    var p := Restarted(ConfigureNoise(s, blank, role, local, remote), IdOf(c, side), IdOf(c, Other(side)));
    PunchesReach(p, targets, target);
    assert Sent(target, Punch(p.myId, p.targetId)) in Init(s, c).At(side).out;
  }

  lemma {:induction false} PunchesReach(p: Puncher, targets: seq<Endpoint>, target: Endpoint)
    requires target in targets
    ensures Sent(target, Punch(p.myId, p.targetId)) in Punches(p, targets)
  {
    if targets[0] != target {
      PunchesReach(p, targets[1..], target);
    }
  }

  /** The datagram an end has put out first since, if it has. */
  function FirstSent(before: Node, after: Node): (r: Datagram) {
    match FirstNew(before, after) case Some(Sent(_, m)) => m case _ => Datagram.Other
  }

  /** Four deliveries: a datagram to the responder, and three times what the last receiver put out first on it. */
  function FourDeliveries(s: Suite, sys: System, m: Datagram, atB: Endpoint, atA: Endpoint, d: Bytes): (r: System) {
    var sys1 := Next(s, sys, Deliver(Right, atB, m, d));
    var sys2 := Next(s, sys1, Deliver(Left, atA, FirstSent(sys.responder, sys1.responder), d));
    var sys3 := Next(s, sys2, Deliver(Right, atB, FirstSent(sys1.initiator, sys2.initiator), d));
    Next(s, sys3, Deliver(Left, atA, FirstSent(sys2.responder, sys3.responder), d))
  }

  /**
   From every reachable state in which the initiator has not succeeded and a punch of it is in flight, both ends
   succeed after four deliveries: the punch, what the responder puts out on it, what the initiator puts out on that, and
   the answer.
   */
  lemma PunchConnects(s: Suite, c: Config, events: seq<Event>, atB: Endpoint, atA: Endpoint, d: Bytes)
    requires s.LawfulHandshake() && c.idA != c.idB
    requires var sys := After(s, Init(s, c), events);
             !sys.initiator.p.success && InFlight(sys.initiator, Punch(c.idA, c.idB))
    ensures var end := FourDeliveries(s, After(s, Init(s, c), events), Punch(c.idA, c.idB), atB, atA, d);
            && end.initiator.p.success && end.initiator.p.noiseReady
            && end.responder.p.success && end.responder.p.noiseReady
  {
    hide After, Init, Next, Inv, Stored, ExpectedA, ExpectedB;
    InitInv(s, c);
    var f := RunInv(s, c, Init(s, c), Idle, events);
    var sys := After(s, Init(s, c), events);
    var e := Deliver(Right, atB, Punch(c.idA, c.idB), d);
    PunchIsAcknowledged(s, c, events, Right, atB, d);
    var sys1 := Next(s, sys, e);
    var g := EventInv(s, c, sys, f, e);
    assert Sent(atB, PunchAck(c.idB, c.idA)) in sys1.responder.out;
    var h := AckAsksFor(s, c, sys1, g, atA, d);
    var sys2 := Next(s, sys1, Deliver(Left, atA, PunchAck(c.idB, c.idA), d));
    var m1 := Handshake(c.idA, c.idB, 1, s.encode64(s.publicKey(h.ea)));
    assert Sent(atA, m1) in sys2.initiator.out;
    var k := AnswersMessage1(s, c, sys2, h, atB, d);
    DeliverIs(s, sys2, Right, atB, m1, d);
    AnsweredFinishes(s, c, Next(s, sys2, Deliver(Right, atB, m1, d)), k, atB, atA, d);
  }

  /**
   The acknowledgement of the responder makes an initiator that has not succeeded send its message 1, new or stored.
   */
  lemma AckAsksFor(s: Suite, c: Config, sys: System, f: Phase, from: Endpoint, d: Bytes) returns (h: Phase)
    requires s.LawfulHandshake() && Inv(s, c, sys, f) && c.idA != c.idB && !sys.initiator.p.success
    requires InFlight(sys.responder, PunchAck(c.idB, c.idA))
    ensures var next := Next(s, sys, Deliver(Left, from, PunchAck(c.idB, c.idA), d));
            && (h.Asked? || h.Replied?) && Inv(s, c, next, h)
            && next.responder == sys.responder
            && next.initiator.out
                == sys.initiator.out + [Sent(from, Handshake(c.idA, c.idB, 1, s.encode64(s.publicKey(h.ea))))]
  {
    hide ExpectedA, ExpectedB, BuildMessage1, OnHandshake, OnPacket, OnPunch;
    PhaseFacts(s, c, f, d);
    if f.Idle? {
      h := Asked(d);
      FirstAck(s, c, sys, from, c.idB, c.idA, d);
    } else {
      h := f;
      LaterAck(s, c, sys, f, from, c.idB, c.idA, d);
      assert |s.publicKey(f.ea)| == KEY_SIZE;
    }
  }

  /** So a round started with a target can always connect: nothing but four deliveries is needed. */
  lemma RoundConnects(s: Suite, c: Config, atB: Endpoint, atA: Endpoint, d: Bytes)
    requires s.LawfulHandshake() && c.idA != c.idB && c.targetsA != []
    ensures var end := FourDeliveries(s, Init(s, c), Punch(c.idA, c.idB), atB, atA, d);
            && end.initiator.p.success && end.initiator.p.noiseReady
            && end.responder.p.success && end.responder.p.noiseReady
  {
    hide Init, FourDeliveries;
    InitPunches(s, c, Left, c.targetsA[0]);
    InitInv(s, c);
    InitFresh(s, c);
    assert After(s, Init(s, c), []) == Init(s, c);
    PunchConnects(s, c, [], atB, atA, d);
  }

  lemma InitFresh(s: Suite, c: Config)
    ensures !Init(s, c).initiator.p.success
  {
    hide Launch;
    LaunchSound(s, Initiator, DeriveKeypair(s, c.a), s.publicKey(c.b), c.targetsA, c.idA, c.idB);
  }
}

/** The session over the SHA-256 and HKDF of this project. */
module ConcreteSession {
  import opened Basics
  import opened Noise
  import Sha256
  import Hmac
  import opened Session

  function HkdfHalves(ck: Bytes, ikm: Bytes): (r: (Bytes, Bytes)) {
    var okm := Hmac.HkdfOutput(ck, ikm, 2 * KEY_SIZE);
    (okm[..KEY_SIZE], okm[KEY_SIZE..])
  }

  function WithSha256(s: Suite): (r: Suite) {
    s.(hash := (x: Bytes) => Sha256.Hash(x), hkdf := (ck: Bytes, ikm: Bytes) => HkdfHalves(ck, ikm))
  }

  /** Given a lawful X25519 and base64, agreement holds over the real hash and key derivation, on keys of 32 octets. */
  lemma ConcreteAgreement(s: Suite, c: Config, events: seq<Event>)
    requires s.LawfulHandshake()
    ensures var t := WithSha256(s);
            var sys := After(t, Init(t, c), events);
            && sys.initiator.p.noise.Some? && sys.responder.p.noise.Some?
            && var nA, nB := sys.initiator.p.noise.value, sys.responder.p.noise.value;
            && (nA.complete ==> nB.complete)
            && (nA.complete && nB.complete ==>
                && KeysAgree(nA, nB) && nA.h == nB.h && nA.ck == nB.ck
                && |nA.sendKey| == |nA.recvKey| == |nB.sendKey| == |nB.recvKey| == KEY_SIZE)
  {
    hide After, Init, Sha256.Hash, Hmac.HkdfOutput;
    assert WithSha256(s).LawfulHandshake();
    KeyAgreement(WithSha256(s), c, events);
  }
}
