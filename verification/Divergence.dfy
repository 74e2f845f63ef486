/**
 How a round can end with two successful ends and different keys: a message of another round is taken for one
 of this round, or a message 1 is mixed and then, the draw failing, not answered
 (src/crypto/NoiseProtocol.cpp, src/client/UdpPuncher.cpp).
 */
module Divergence {
  import opened Agreement
  import opened Basics
  import opened Noise
  import opened Puncher
  import Session

  // ----- What the two ends hold -----

  /** An initiator drawn as `ea` that has taken a message 2 drawn as `eb`, whoever drew it. */
  lemma FinishedHolds(s: Suite, c: Session.Config, ea: Bytes, eb: Bytes)
    requires s.LawfulDh()
    ensures var i := Finished(s, c.a, c.b, ea, s.publicKey(eb));
            i.complete && AskerInv(s, c, i) && i.localEphemeral.Some? && Held(s, i) == Secrets(s, c.a, c.b, ea, eb)
  {
    hide AskerInv, Initial, BuildMessage1, HandleMessage2;
    var m2 := s.publicKey(eb);
    StartInvs(s, c);
    BuildKeepsAsker(s, c, Session.InitialA(s, c), Some(ea));
    ConcludeKeepsAsker(s, c, Started(s, c.a, c.b, ea), m2);
    FinishedSecrets(s, c, ea, eb);
  }

  lemma FinishedSecrets(s: Suite, c: Session.Config, ea: Bytes, eb: Bytes)
    requires s.LawfulDh()
    ensures var i := Finished(s, c.a, c.b, ea, s.publicKey(eb));
            i.complete && i.localEphemeral.Some? && Held(s, i) == Secrets(s, c.a, c.b, ea, eb)
  {
  }

  /** A responder not yet complete that answers a message 1 drawn as `ea` with its own draw `eb`. */
  lemma AnswerHolds(s: Suite, c: Session.Config, n: State, ea: Bytes, eb: Bytes)
    requires s.LawfulDh() && AnswererInv(s, c, n, n.ck) && !n.complete
    ensures var (r, reply) := HandleMessage1(s, n, s.publicKey(ea), Some(eb));
            && reply == Some(s.publicKey(eb)) && r.complete && r.role == Responder && AnswererInv(s, c, r, n.ck)
            && r.localEphemeral.Some? && Held(s, r) == Secrets(s, c.a, c.b, ea, eb)
  {
    AnswerKeepsAnswerer(s, c, n, s.publicKey(ea), Some(eb), n.ck);
    var _ := Secrets(s, c.a, c.b, ea, eb);
  }

  /** A responder that has mixed a message 1 drawn as `lost` and failed to draw. */
  function Failed(s: Suite, c: Session.Config, lost: Bytes): (r: State) {
    HandleMessage1(s, Session.InitialB(s, c), s.publicKey(lost), None).0
  }

  /** The protocol name with es and ss of a message 1 mixed in. */
  function MixedOnce(s: Suite, c: Session.Config, lost: Bytes): (r: Bytes)
    requires s.LawfulDh()
  {
    var (es, ss, _) := Secrets(s, c.a, c.b, lost, lost);
    s.hkdf(s.hkdf(Name(), es).0, ss).0
  }

  lemma FailedIs(s: Suite, c: Session.Config, lost: Bytes)
    requires s.LawfulDh()
    ensures var n := Failed(s, c, lost);
            !n.complete && n.role == Responder && n.ck == MixedOnce(s, c, lost) && AnswererInv(s, c, n, n.ck)
  {
    StartInvs(s, c);
    Refusing(s, c, Session.InitialB(s, c), s.publicKey(lost), None, Name());
    var _ := Secrets(s, c.a, c.b, lost, lost);
  }

  /**
   A responder that answers a message 1 from another draw, `stale`, leaves both ends complete. If the two
   draws give the same DH secrets the keys agree; and if the keys agree, then they do, or HKDF has given one
   output for two different arguments of this very exchange.
   */
  lemma StaleMessage1(s: Suite, c: Session.Config, ea: Bytes, stale: Bytes, eb: Bytes)
    requires s.LawfulDh()
    ensures var (i, r) := (Finished(s, c.a, c.b, ea, s.publicKey(eb)),
                           Answered(s, c.a, c.b, s.publicKey(stale), eb));
            var ((es, ss, ee), (es', _, ee')) := (Secrets(s, c.a, c.b, ea, eb), Secrets(s, c.a, c.b, stale, eb));
            && i.complete && r.complete
            && (es == es' && ee == ee' ==> KeysAgree(i, r))
            && (KeysAgree(i, r) ==>
                (es == es' && ee == ee') || Collides(s, Name(), Inputs(es, ss, ee), Name(), Inputs(es', ss, ee')))
  {
    hide Finished, HandleMessage1, Initial, Secrets, Held, AskerInv, Collides;
    StartInvs(s, c);
    FinishedHolds(s, c, ea, eb);
    InitialIs(s, c);
    AnswerHolds(s, c, Session.InitialB(s, c), stale, eb);
    AgreeExactly(s, c, Finished(s, c.a, c.b, ea, s.publicKey(eb)), Answered(s, c.a, c.b, s.publicKey(stale), eb),
                 Name());
  }

  lemma InitialIs(s: Suite, c: Session.Config)
    ensures !Session.InitialB(s, c).complete && Session.InitialB(s, c).ck == Name()
  {
  }

  /**
   A responder whose draw fails on a message 1 drawn as `lost`, of this round or another, has mixed it. When this
   round's message 1 is then answered, both ends are complete. If mixing the lost one into the protocol name
   changes nothing the keys agree; and if they agree, then it does, or HKDF collides inside this exchange.
   */
  lemma RetriedMessage1(s: Suite, c: Session.Config, lost: Bytes, ea: Bytes, eb: Bytes)
    requires s.LawfulDh()
    ensures var i := Finished(s, c.a, c.b, ea, s.publicKey(eb));
            var r := HandleMessage1(s, Failed(s, c, lost), s.publicKey(ea), Some(eb)).0;
            var (es, ss, ee) := Secrets(s, c.a, c.b, ea, eb);
            var mixed := MixedOnce(s, c, lost);
            && i.complete && r.complete
            && (mixed == Name() ==> KeysAgree(i, r))
            && (KeysAgree(i, r) ==>
                mixed == Name() || Collides(s, Name(), Inputs(es, ss, ee), mixed, Inputs(es, ss, ee)))
  {
    hide Finished, Failed, HandleMessage1, MixedOnce, Secrets, Held, AskerInv, AnswererInv, Collides;
    FinishedHolds(s, c, ea, eb);
    FailedIs(s, c, lost);
    AnswerHolds(s, c, Failed(s, c, lost), ea, eb);
    AgreeExactly(s, c, Finished(s, c.a, c.b, ea, s.publicKey(eb)),
                 HandleMessage1(s, Failed(s, c, lost), s.publicKey(ea), Some(eb)).0, MixedOnce(s, c, lost));
  }

  // ----- The rounds, through the punchers' own handlers -----

  function Message1(s: Suite, c: Session.Config, draw: Bytes): (r: Datagram) {
    Handshake(c.idA, c.idB, 1, s.encode64(s.publicKey(draw)))
  }

  function Message2(s: Suite, c: Session.Config, draw: Bytes): (r: Datagram) {
    Handshake(c.idB, c.idA, 2, s.encode64(s.publicKey(draw)))
  }

  /** Acknowledged, the initiator draws and sends message 1. */
  lemma Asks(s: Suite, c: Session.Config, ea: Bytes, from: Endpoint)
    requires s.LawfulHandshake() && c.idA != c.idB
    ensures var (p, out) := Step(s, EndA(s, c), Receives(from, PunchAck(c.idB, c.idA), Some(ea)));
            && out == [Sent(from, Message1(s, c, ea))]
            && Sound(p) && !p.success && p.myId == c.idA && p.targetId == c.idB && p.noiseInitiator
            && p.noise == Some(Started(s, c.a, c.b, ea))
  {
    hide BuildMessage1, Started, EndA, Initial, OnHandshake, OnPacket, OnPunch;
    EndsAre(s, c);
    Session.PhaseFacts(s, c, Session.Idle, ea);
    StepSound(s, EndA(s, c), Receives(from, PunchAck(c.idB, c.idA), Some(ea)));
  }

  /** A responder with a handshake that answers message 1 completes and reports success. */
  lemma Answers(s: Suite, c: Session.Config, q: Puncher, draw: Bytes, eb: Bytes, from: Endpoint)
    requires s.LawfulHandshake() && c.idA != c.idB && Sound(q) && q.myId == c.idB && q.targetId == c.idA
            && !q.noiseInitiator && !q.success
    requires HandleMessage1(s, q.noise.value, s.publicKey(draw), Some(eb)).1 == Some(s.publicKey(eb))
    ensures var (q', out) := Step(s, q, Receives(from, Message1(s, c, draw), Some(eb)));
            && out == [Sent(from, Message2(s, c, eb)), PunchDone(true, c.idA)]
            && q'.success && q'.noise == Some(HandleMessage1(s, q.noise.value, s.publicKey(draw), Some(eb)).0)
  {
    hide HandleMessage1, OnAck, OnPacket, OnPunch;
    var payload := s.publicKey(draw);
    assert s.decode64(s.encode64(payload)) == Some(payload);
  }

  /** With a failed draw message 1 is dropped, but not without a trace. */
  lemma FailsToAnswer(s: Suite, c: Session.Config, lost: Bytes, from: Endpoint)
    requires s.LawfulHandshake() && c.idA != c.idB
    ensures var (q, out) := Step(s, EndB(s, c), Receives(from, Message1(s, c, lost), None));
            && out == [] && Sound(q) && !q.success && q.myId == c.idB && q.targetId == c.idA && !q.noiseInitiator
            && q.noise == Some(Failed(s, c, lost))
  {
    hide HandleMessage1, EndB, Initial, OnAck, OnPacket, OnPunch;
    EndsAre(s, c);
    var payload := s.publicKey(lost);
    assert s.decode64(s.encode64(payload)) == Some(payload);
    StepSound(s, EndB(s, c), Receives(from, Message1(s, c, lost), None));
    FailedIs(s, c, lost);
    HandleMessage1Keeps(s, Session.InitialB(s, c), payload, None);
  }

  /** Message 2 completes the initiator, which reports success. */
  lemma Concludes(s: Suite, c: Session.Config, p: Puncher, ea: Bytes, eb: Bytes, from: Endpoint)
    requires s.LawfulHandshake() && c.idA != c.idB && Sound(p) && p.myId == c.idA && !p.success && p.noiseInitiator
    requires p.noise == Some(Started(s, c.a, c.b, ea))
    ensures var (p', out) := Step(s, p, Receives(from, Message2(s, c, eb), None));
            && out == [PunchDone(true, c.idB)] && p'.success
            && p'.noise == Some(Finished(s, c.a, c.b, ea, s.publicKey(eb)))
  {
    hide HandleMessage2, Started, Finished, OnAck, OnPacket, OnPunch;
    Session.RepliedStep(s, c, ea, eb);
    var payload := s.publicKey(eb);
    assert s.decode64(s.encode64(payload)) == Some(payload);
  }

  /**
   A message 1 of an earlier round of the same two nodes, drawn as `stale`, reaches the responder of this round
   before this round's own: it is answered, the answer completes the initiator, and both report success.
   */
  lemma StaleRound(s: Suite, c: Session.Config, stale: Bytes, ea: Bytes, eb: Bytes, atA: Endpoint, atB: Endpoint)
    requires s.LawfulHandshake() && c.idA != c.idB
    ensures var earlier := Step(s, EndA(s, c), Receives(atA, PunchAck(c.idB, c.idA), Some(stale)));
            var p := Step(s, EndA(s, c), Receives(atA, PunchAck(c.idB, c.idA), Some(ea))).0;
            var (q, answer) := Step(s, EndB(s, c), Receives(atB, Message1(s, c, stale), Some(eb)));
            var (p', report) := Step(s, p, Receives(atA, Message2(s, c, eb), None));
            && earlier.1 == [Sent(atA, Message1(s, c, stale))]
            && answer == [Sent(atB, Message2(s, c, eb)), PunchDone(true, c.idA)] && report == [PunchDone(true, c.idB)]
            && p'.noise == Some(Finished(s, c.a, c.b, ea, s.publicKey(eb)))
            && q.noise == Some(Answered(s, c.a, c.b, s.publicKey(stale), eb))
  {
    hide Step, EndA, EndB, HandleMessage1, Finished;
    Asks(s, c, stale, atA);
    Asks(s, c, ea, atA);
    EndsAre(s, c);
    Session.AskedStep(s, c, stale, eb);
    Answers(s, c, EndB(s, c), stale, eb, atB);
    Concludes(s, c, Step(s, EndA(s, c), Receives(atA, PunchAck(c.idB, c.idA), Some(ea))).0, ea, eb, atA);
  }

  /**
   The responder's draw fails on a message 1 drawn as `lost`, of this round or another, and this round's is then
   answered: the answer completes the initiator, and both report success.
   */
  lemma RetriedRound(s: Suite, c: Session.Config, lost: Bytes, ea: Bytes, eb: Bytes, atA: Endpoint, atB: Endpoint)
    requires s.LawfulHandshake() && c.idA != c.idB
    ensures var p := Step(s, EndA(s, c), Receives(atA, PunchAck(c.idB, c.idA), Some(ea))).0;
            var (q, nothing) := Step(s, EndB(s, c), Receives(atB, Message1(s, c, lost), None));
            var (q', answer) := Step(s, q, Receives(atB, Message1(s, c, ea), Some(eb)));
            var (p', report) := Step(s, p, Receives(atA, Message2(s, c, eb), None));
            && nothing == []
            && answer == [Sent(atB, Message2(s, c, eb)), PunchDone(true, c.idA)] && report == [PunchDone(true, c.idB)]
            && p'.noise == Some(Finished(s, c.a, c.b, ea, s.publicKey(eb)))
            && q'.noise == Some(HandleMessage1(s, Failed(s, c, lost), s.publicKey(ea), Some(eb)).0)
  {
    hide Step, EndA, EndB, HandleMessage1, Failed, Finished, AnswererInv, Held, Secrets;
    Asks(s, c, ea, atA);
    FailsToAnswer(s, c, lost, atB);
    FailedIs(s, c, lost);
    AnswerHolds(s, c, Failed(s, c, lost), ea, eb);
    Answers(s, c, Step(s, EndB(s, c), Receives(atB, Message1(s, c, lost), None)).0, ea, eb, atB);
    Concludes(s, c, Step(s, EndA(s, c), Receives(atA, PunchAck(c.idB, c.idA), Some(ea))).0, ea, eb, atA);
  }

  /**
   The responder answers this round's message 1, but the answer of another round, drawn as `stale`, reaches the
   initiator first: it completes the initiator too, and both report success.
   */
  lemma StaleAnswerRound(s: Suite, c: Session.Config, ea: Bytes, eb: Bytes, stale: Bytes, atA: Endpoint, atB: Endpoint)
    requires s.LawfulHandshake() && c.idA != c.idB
    ensures var p := Step(s, EndA(s, c), Receives(atA, PunchAck(c.idB, c.idA), Some(ea))).0;
            var (q, answer) := Step(s, EndB(s, c), Receives(atB, Message1(s, c, ea), Some(eb)));
            var (p', report) := Step(s, p, Receives(atA, Message2(s, c, stale), None));
            && answer == [Sent(atB, Message2(s, c, eb)), PunchDone(true, c.idA)] && report == [PunchDone(true, c.idB)]
            && p'.noise == Some(Finished(s, c.a, c.b, ea, s.publicKey(stale)))
            && q.noise == Some(Answered(s, c.a, c.b, s.publicKey(ea), eb))
  {
    hide Step, EndA, EndB, HandleMessage1, Finished;
    Asks(s, c, ea, atA);
    EndsAre(s, c);
    Session.AskedStep(s, c, ea, eb);
    Answers(s, c, EndB(s, c), ea, eb, atB);
    Concludes(s, c, Step(s, EndA(s, c), Receives(atA, PunchAck(c.idB, c.idA), Some(ea))).0, ea, stale, atA);
  }

  // ----- A suite in which the keys differ -----

  function First(b: Bytes): (r: Byte) { if b == [] then 0 else b[0] }

  function Plus(x: Byte, y: Byte): (r: Byte) { (x + y) % 256 }

  function Block(x: Byte, y: Byte): (r: Bytes)
    ensures |r| == 32 && r[0] == x && r[1] == y
  {
    [x, y] + Zeros(30)
  }

  /** Additive groups in place of curves: every law holds, and an HKDF half has 32 octets. */
  function Additive(): (s: Suite) {
    Suite((k: Bytes) => Block(First(k), 0),
          (k: Bytes, q: Bytes) => Some([Plus(First(k), First(q))]),
          (x: Bytes) => Zeros(32),
          (ck: Bytes, x: Bytes) => (Block(Plus(First(ck), First(x)), 0), Block(Plus(First(ck), First(x)), 1)),
          (k: Bytes, n: Bytes, p: Bytes, ad: string) => p,
          (k: Bytes, n: Bytes, x: Bytes, ad: string) => Some(x),
          (x: Bytes) => x,
          (x: Bytes) => Some(x))
  }

  lemma AdditiveIsLawful()
    ensures Additive().Lawful()
  {
    hide Additive;
    AdditiveDhLaws();
    var s := Additive();
    forall x: Bytes
      ensures s.decode64(s.encode64(x)) == Some(x)
    {
      AdditiveText(x);
    }
    forall k: Bytes, n: Bytes, p: Bytes, ad: string
      ensures s.open(k, n, s.seal(k, n, p, ad), ad) == Some(p)
    {
      AdditivePacket(k, n, p, ad);
    }
  }

  lemma AdditiveDhLaws()
    ensures Additive().LawfulDh()
  {
    hide Additive;
    var s := Additive();
    forall k: Bytes
      ensures |s.publicKey(k)| == KEY_SIZE
    {
      AdditiveDh(k, k);
    }
    forall k: Bytes, l: Bytes
      ensures s.dh(k, s.publicKey(l)).Some?
    {
      AdditiveDh(k, l);
    }
    forall k: Bytes, l: Bytes
      ensures s.dh(k, s.publicKey(l)) == s.dh(l, s.publicKey(k))
    {
      AdditiveDh(k, l);
      AdditiveDh(l, k);
      PlusCommutes(First(k), First(l));
    }
  }

  lemma AdditiveText(x: Bytes)
    ensures Additive().decode64(Additive().encode64(x)) == Some(x)
  {
  }

  lemma AdditivePacket(k: Bytes, n: Bytes, p: Bytes, ad: string)
    ensures Additive().open(k, n, Additive().seal(k, n, p, ad), ad) == Some(p)
  {
  }

  lemma PlusCommutes(x: Byte, y: Byte)
    ensures Plus(x, y) == Plus(y, x)
  {
  }

  lemma AdditiveDh(k: Bytes, l: Bytes)
    ensures Additive().dh(k, Additive().publicKey(l)) == Some([Plus(First(k), First(l))])
    ensures |Additive().publicKey(k)| == KEY_SIZE
  {
    hide Plus;
    assert First(Block(First(l), 0)) == First(l);
  }

  lemma AdditiveSecrets(a: Bytes, b: Bytes, ea: Bytes, eb: Bytes)
    requires Additive().LawfulDh()
    ensures Secrets(Additive(), a, b, ea, eb)
            == ([Plus(First(ea), First(b))], [Plus(First(a), First(b))], [Plus(First(ea), First(eb))])
  {
    hide Additive, Plus, First;
    AdditiveDh(ea, b);
    AdditiveDh(a, b);
    AdditiveDh(ea, eb);
  }

  lemma AdditiveMix(ck: Bytes, x: Bytes)
    ensures var k := Additive().hkdf(ck, x).0; k != [] && k[0] == First(k) == Plus(First(ck), First(x))
  {
  }

  /** The first octet of a chaining key is the sum of what was mixed in. */
  lemma AdditiveChain(ck: Bytes, es: Bytes, ss: Bytes, ee: Bytes)
    ensures var s := Additive();
            First(s.hkdf(Chained(s, ck, es, ss, ee), []).0)
            == Plus(Plus(Plus(Plus(First(ck), First(es)), First(ss)), First(ee)), First(es))
  {
    hide Additive, First, Plus;
    var s := Additive();
    var c1 := s.hkdf(ck, es).0;
    var c2 := s.hkdf(c1, ss).0;
    var c3 := s.hkdf(c2, ee).0;
    AdditiveMix(ck, es);
    AdditiveMix(c1, ss);
    AdditiveMix(c2, ee);
    AdditiveMix(c3, es);
    AdditiveMix(s.hkdf(c3, es).0, []);
    NothingFirst();
    PlusZero(First(s.hkdf(c3, es).0));
  }

  lemma PlusZero(x: Byte)
    ensures Plus(x, 0) == x
  {
  }

  lemma NothingFirst()
    ensures First([]) == 0
  {
  }

  /** The first octet of the key an initiator sends under, and of the one a responder receives under. */
  lemma AdditiveKeys(c: Session.Config, i: State, r: State, before: Bytes)
    requires var s := Additive();
             s.LawfulDh() && AskerInv(s, c, i) && AnswererInv(s, c, r, before) && i.complete && r.complete
    ensures var s := Additive();
            var ((es, ss, ee), (es', ss', ee')) := (Held(s, i), Held(s, r));
            && First(i.sendKey) == Plus(Plus(Plus(Plus(First(Name()), First(es)), First(ss)), First(ee)), First(es))
            && First(r.recvKey) == Plus(Plus(Plus(Plus(First(before), First(es')), First(ss')), First(ee')), First(es'))
  {
    hide Additive, Plus, First, Held, Name, Chained;
    var s := Additive();
    var (es, ss, ee) := Held(s, i);
    var (es', ss', ee') := Held(s, r);
    AdditiveChain(Name(), es, ss, ee);
    AdditiveChain(before, es', ss', ee');
  }

  /** A stale message 1 makes two successful ends hold different keys. */
  lemma StaleRoundDiverges(c: Session.Config, atA: Endpoint, atB: Endpoint)
    requires c.idA != c.idB && c.a == c.b == [0]
    ensures var s := Additive();
            var p := Step(s, EndA(s, c), Receives(atA, PunchAck(c.idB, c.idA), Some([1]))).0;
            var q := Step(s, EndB(s, c), Receives(atB, Message1(s, c, [0]), Some([0]))).0;
            var p' := Step(s, p, Receives(atA, Message2(s, c, [0]), None)).0;
            && s.Lawful() && p'.noise.Some? && q.noise.Some?
            && p'.noise.value.complete && q.noise.value.complete && !KeysAgree(p'.noise.value, q.noise.value)
  {
    hide Additive, Step, EndA, EndB, Finished, HandleMessage1, Initial, Secrets, Name, Held, AskerInv, AnswererInv;
    var s := Additive();
    AdditiveIsLawful();
    StaleRound(s, c, [0], [1], [0], atA, atB);
    FinishedHolds(s, c, [1], [0]);
    AnswersFresh(s, c, [0], [0]);
    AdditiveKeys(c, Finished(s, c.a, c.b, [1], s.publicKey([0])), Answered(s, c.a, c.b, s.publicKey([0]), [0]), Name());
    AdditiveSecrets(c.a, c.b, [1], [0]);
    AdditiveSecrets(c.a, c.b, [0], [0]);
    NameStarts();
  }

  lemma AnswersFresh(s: Suite, c: Session.Config, ea: Bytes, eb: Bytes)
    requires s.LawfulDh()
    ensures var r := Answered(s, c.a, c.b, s.publicKey(ea), eb);
            && r.complete && AnswererInv(s, c, r, Name()) && r.localEphemeral.Some?
            && Held(s, r) == Secrets(s, c.a, c.b, ea, eb)
  {
    hide HandleMessage1, Initial, Held, Secrets;
    StartInvs(s, c);
    InitialIs(s, c);
    AnswerHolds(s, c, Session.InitialB(s, c), ea, eb);
  }

  /** A message 1 mixed with a failed draw, this round's or a foreign one, does too. */
  lemma RetriedRoundDiverges(c: Session.Config, lost: Byte, atA: Endpoint, atB: Endpoint)
    requires c.idA != c.idB && c.a == c.b == [0] && lost != 0
    ensures var s := Additive();
            var p := Step(s, EndA(s, c), Receives(atA, PunchAck(c.idB, c.idA), Some([1]))).0;
            var q := Step(s, EndB(s, c), Receives(atB, Message1(s, c, [lost]), None)).0;
            var q' := Step(s, q, Receives(atB, Message1(s, c, [1]), Some([0]))).0;
            var p' := Step(s, p, Receives(atA, Message2(s, c, [0]), None)).0;
            && s.Lawful() && p'.noise.Some? && q'.noise.Some?
            && p'.noise.value.complete && q'.noise.value.complete && !KeysAgree(p'.noise.value, q'.noise.value)
  {
    hide Additive, Step, EndA, EndB, Finished, HandleMessage1, Failed, AnswererInv, Held, Secrets;
    var s := Additive();
    AdditiveIsLawful();
    RetriedRound(s, c, [lost], [1], [0], atA, atB);
    FailedIs(s, c, [lost]);
    AnswerHolds(s, c, Failed(s, c, [lost]), [1], [0]);
    RetriedKeysDiffer(c, lost);
  }

  lemma RetriedKeysDiffer(c: Session.Config, lost: Byte)
    requires Additive().LawfulDh() && c.a == c.b == [0] && lost != 0
    ensures var s := Additive();
            var (i, r) := (Finished(s, c.a, c.b, [1], s.publicKey([0])),
                           HandleMessage1(s, Failed(s, c, [lost]), s.publicKey([1]), Some([0])).0);
            i.complete && !KeysAgree(i, r)
  {
    hide Additive, Finished, HandleMessage1, Failed, Secrets, Held, AskerInv, AnswererInv, Name, MixedOnce, Plus;
    var s := Additive();
    FinishedHolds(s, c, [1], [0]);
    FailedIs(s, c, [lost]);
    AnswerHolds(s, c, Failed(s, c, [lost]), [1], [0]);
    AdditiveKeys(c, Finished(s, c.a, c.b, [1], s.publicKey([0])),
                 HandleMessage1(s, Failed(s, c, [lost]), s.publicKey([1]), Some([0])).0, MixedOnce(s, c, [lost]));
    AdditiveSecrets(c.a, c.b, [1], [0]);
    MixedFirst(c, lost);
    NameStarts();
    SumsDiffer(lost);
  }

  lemma MixedFirst(c: Session.Config, lost: Byte)
    requires Additive().LawfulDh() && c.a == c.b == [0]
    ensures First(MixedOnce(Additive(), c, [lost])) == Plus(78, lost)
  {
    hide Additive, Secrets, Name;
    AdditiveSecrets(c.a, c.b, [lost], [lost]);
    AdditiveTwice(Name(), [Plus(lost, 0)], [0]);
    NameStarts();
  }

  lemma SumsDiffer(lost: Byte)
    requires lost != 0
    ensures Plus(Plus(Plus(Plus(78, Plus(1, 0)), Plus(0, 0)), Plus(1, 0)), Plus(1, 0))
            != Plus(Plus(Plus(Plus(Plus(78, lost), Plus(1, 0)), Plus(0, 0)), Plus(1, 0)), Plus(1, 0))
  {
    var x, y := 78, Plus(78, lost);
    assert x != y;
    hide Plus;
    PlusCancels(x, y, Plus(1, 0));
    PlusCancels(Plus(x, Plus(1, 0)), Plus(y, Plus(1, 0)), Plus(0, 0));
    x, y := Plus(Plus(x, Plus(1, 0)), Plus(0, 0)), Plus(Plus(y, Plus(1, 0)), Plus(0, 0));
    PlusCancels(x, y, Plus(1, 0));
    PlusCancels(Plus(x, Plus(1, 0)), Plus(y, Plus(1, 0)), Plus(1, 0));
  }

  lemma PlusCancels(x: Byte, y: Byte, k: Byte)
    ensures Plus(x, k) == Plus(y, k) ==> x == y
  {
  }

  /** And so does an answer of another round that overtakes this round's. */
  lemma StaleAnswerDiverges(c: Session.Config, atA: Endpoint, atB: Endpoint)
    requires c.idA != c.idB && c.a == c.b == [0]
    ensures var s := Additive();
            var p := Step(s, EndA(s, c), Receives(atA, PunchAck(c.idB, c.idA), Some([1]))).0;
            var q := Step(s, EndB(s, c), Receives(atB, Message1(s, c, [1]), Some([0]))).0;
            var p' := Step(s, p, Receives(atA, Message2(s, c, [2]), None)).0;
            && s.Lawful() && p'.noise.Some? && q.noise.Some?
            && p'.noise.value.complete && q.noise.value.complete && !KeysAgree(p'.noise.value, q.noise.value)
  {
    hide Additive, Step, EndA, EndB, Finished, HandleMessage1, Initial, Secrets, Name, Held, AskerInv, AnswererInv;
    var s := Additive();
    AdditiveIsLawful();
    StaleAnswerRound(s, c, [1], [0], [2], atA, atB);
    FinishedHolds(s, c, [1], [2]);
    AnswersFresh(s, c, [1], [0]);
    AdditiveKeys(c, Finished(s, c.a, c.b, [1], s.publicKey([2])), Answered(s, c.a, c.b, s.publicKey([1]), [0]), Name());
    AdditiveSecrets(c.a, c.b, [1], [2]);
    AdditiveSecrets(c.a, c.b, [1], [0]);
    NameStarts();
  }

  lemma AdditiveTwice(ck: Bytes, es: Bytes, ss: Bytes)
    ensures var s := Additive(); First(s.hkdf(s.hkdf(ck, es).0, ss).0) == Plus(Plus(First(ck), First(es)), First(ss))
  {
    hide Additive, First;
    AdditiveMix(ck, es);
    AdditiveMix(Additive().hkdf(ck, es).0, ss);
  }

  lemma NameStarts()
    ensures First(Name()) == 78
  {
    assert PROTOCOL_NAME[0] == 'N';
  }
}
