/**
 When the two ends of a round hold the same keys, whatever datagrams from whomever reach them and whichever
 draws fail (src/crypto/NoiseProtocol.cpp, src/client/UdpPuncher.cpp).

 Nothing in a handshake message is authenticated, so a message of another round is taken like one of this
 round, and a message 1 that is handled but not answered leaves its trace in the chaining key.
 */
module Agreement {
  import opened Basics
  import opened Noise
  import opened Puncher
  import Session

  // ----- Chains of HKDF -----

  /** The chaining key after mixing in several inputs. */
  function Mixes(s: Suite, ck: Bytes, inputs: seq<Bytes>): (r: Bytes)
    decreases |inputs|
  {
    if inputs == [] then ck else Mixes(s, s.hkdf(ck, inputs[0]).0, inputs[1..])
  }

  /** At some step the two chains give HKDF different arguments and get the same first half. */
  ghost predicate Collides(s: Suite, c: Bytes, xs: seq<Bytes>, d: Bytes, ys: seq<Bytes>)
    requires |xs| == |ys|
    decreases |xs|
  {
    xs != [] &&
    (((c, xs[0]) != (d, ys[0]) && s.hkdf(c, xs[0]).0 == s.hkdf(d, ys[0]).0)
     || Collides(s, s.hkdf(c, xs[0]).0, xs[1..], s.hkdf(d, ys[0]).0, ys[1..]))
  }

  /** Two chains that end alike are alike throughout, or collide. */
  lemma {:induction false} SameEnd(s: Suite, c: Bytes, xs: seq<Bytes>, d: Bytes, ys: seq<Bytes>)
    requires |xs| == |ys| && Mixes(s, c, xs) == Mixes(s, d, ys)
    ensures (c == d && xs == ys) || Collides(s, c, xs, d, ys)
    decreases |xs|
  {
    if xs != [] {
      SameEnd(s, s.hkdf(c, xs[0]).0, xs[1..], s.hkdf(d, ys[0]).0, ys[1..]);
      assert xs == [xs[0]] + xs[1..] && ys == [ys[0]] + ys[1..];
    }
  }

  /** What a handshake mixes into the chaining key, up to its split into keys. */
  function Inputs(es: Bytes, ss: Bytes, ee: Bytes): (r: seq<Bytes>) { [es, ss, ee, es, []] }

  /** The chaining key after the four DH secrets of a handshake. */
  function Chained(s: Suite, ck: Bytes, es: Bytes, ss: Bytes, ee: Bytes): (r: Bytes) {
    s.hkdf(s.hkdf(s.hkdf(s.hkdf(ck, es).0, ss).0, ee).0, es).0
  }

  /** The first key of a split, after a chain from a chaining key. */
  lemma MixesIs(s: Suite, ck: Bytes, es: Bytes, ss: Bytes, ee: Bytes)
    ensures Mixes(s, ck, Inputs(es, ss, ee)) == s.hkdf(Chained(s, ck, es, ss, ee), []).0
  {
    var l0 := Inputs(es, ss, ee);
    var l1, l2, l3, l4 := l0[1..], l0[2..], l0[3..], l0[4..];
    assert l0[0] == es && l1[0] == ss && l2[0] == ee && l3[0] == es && l4[0] == [];
    assert l1[1..] == l2 && l2[1..] == l3 && l3[1..] == l4 && l4[1..] == [];
    var c1 := s.hkdf(ck, es).0;
    var c2 := s.hkdf(c1, ss).0;
    var c3 := s.hkdf(c2, ee).0;
    var c4 := s.hkdf(c3, es).0;
    assert Mixes(s, ck, l0) == Mixes(s, c1, l1) == Mixes(s, c2, l2);
    assert Mixes(s, c2, l2) == Mixes(s, c3, l3) == Mixes(s, c4, l4);
    assert Mixes(s, c4, l4) == Mixes(s, s.hkdf(c4, []).0, []);
  }

  // ----- What an end holds -----

  function Value(o: Option<Bytes>): (r: Bytes) { if o.Some? then o.value else [] }

  /** The DH secrets an end computes: es, ss and ee, with the messages it has sent and taken. */
  function Held(s: Suite, n: State): (r: (Bytes, Bytes, Bytes))
    requires n.localEphemeral.Some?
  {
    var e := n.localEphemeral.value.private;
    var es := if n.role == Initiator then s.dh(e, n.remoteStatic) else s.dh(n.localStatic.private, n.remoteEphemeral);
    (Value(es), Value(s.dh(n.localStatic.private, n.remoteStatic)), Value(s.dh(e, n.remoteEphemeral)))
  }

  /** An initiator of b: nothing mixed, message 1 mixed, or message 2 as well. */
  ghost predicate AskerInv(s: Suite, c: Session.Config, n: State) {
    && n.role == Initiator && n.localStatic == DeriveKeypair(s, c.a) && n.remoteStatic == s.publicKey(c.b)
    && (!n.msg1Sent ==> n.ck == Name() && !n.complete)
    && (n.msg1Sent ==> Drawn(s, n))
    && (n.msg1Sent && !n.complete ==> var (es, ss, ee) := Held(s, n); n.ck == s.hkdf(s.hkdf(Name(), es).0, ss).0)
    && (n.complete ==>
        var (es, ss, ee) := Held(s, n);
        && s.dh(n.localEphemeral.value.private, n.remoteEphemeral).Some?
        && n.ck == Chained(s, Name(), es, ss, ee) && (n.sendKey, n.recvKey) == s.hkdf(n.ck, []))
  }

  ghost predicate Drawn(s: Suite, n: State) {
    n.localEphemeral.Some? && n.localEphemeral.value == DeriveKeypair(s, n.localEphemeral.value.private)
  }

  /** A responder to a, whose chaining key is, or was before the message it answered, `before`. */
  ghost predicate AnswererInv(s: Suite, c: Session.Config, n: State, before: Bytes) {
    && n.role == Responder && n.localStatic == DeriveKeypair(s, c.b) && n.remoteStatic == s.publicKey(c.a)
    && (!n.complete ==> n.ck == before && (!n.msg1Received ==> before == Name()))
    && (n.complete ==> Drawn(s, n))
    && (n.complete ==>
        var (es, ss, ee) := Held(s, n);
        && s.dh(c.b, n.remoteEphemeral).Some? && s.dh(n.localEphemeral.value.private, n.remoteEphemeral).Some?
        && n.ck == Chained(s, before, es, ss, ee) && (n.recvKey, n.sendKey) == s.hkdf(n.ck, []))
  }

  /**
   Two complete ends hold crossed keys if the responder had mixed nothing before and both hold the same secrets;
   and if their keys are crossed, then that is so, or HKDF has given one output for two different arguments of
   this very exchange.
   */
  lemma AgreeExactly(s: Suite, c: Session.Config, i: State, r: State, before: Bytes)
    requires s.LawfulDh() && AskerInv(s, c, i) && AnswererInv(s, c, r, before) && i.complete && r.complete
    ensures var ((es, ss, ee), (es', ss', ee')) := (Held(s, i), Held(s, r));
            && ss == ss'
            && (before == Name() && es == es' && ee == ee' ==> KeysAgree(i, r) && i.ck == r.ck)
            && (KeysAgree(i, r) ==>
                || (before == Name() && es == es' && ee == ee')
                || Collides(s, Name(), Inputs(es, ss, ee), before, Inputs(es', ss, ee')))
  {
    hide Chained, Collides, Mixes;
    var (es, ss, ee) := Held(s, i);
    var (es', ss', ee') := Held(s, r);
    if KeysAgree(i, r) {
      MixesIs(s, Name(), es, ss, ee);
      MixesIs(s, before, es', ss, ee');
      var xs, ys := Inputs(es, ss, ee), Inputs(es', ss, ee');
      SameEnd(s, Name(), xs, before, ys);
      assert xs[0] == es && ys[0] == es' && xs[2] == ee && ys[2] == ee';
    }
  }

  // ----- One step -----

  /** What a step of the puncher may do to its handshake object. */
  ghost predicate Moves(s: Suite, n: State, m: State) {
    || m == n
    || (exists d :: m == BuildMessage1(s, n, d).0)
    || (exists x, d :: m == HandleMessage1(s, n, x, d).0)
    || (exists x :: m == HandleMessage2(s, n, x).0)
  }

  lemma StepMoves(s: Suite, p: Puncher, i: Input)
    requires p.noise.Some?
    ensures var q := Step(s, p, i).0; q.noise.Some? && Moves(s, p.noise.value, q.noise.value)
  {
    hide OnAck, OnHandshake, OnPacket, Punches, SendPacket, Moves;
    MovesAre(s, p.noise.value, None, []);
    if i.Receives? {
      match i.msg
      case PunchAck(src, _) => AckMoves(s, p, i.sender, src, i.draw);
      case Handshake(src, _, stage, text) => HandshakeMoves(s, p, i.sender, src, stage, text, i.draw);
      case Packet(src, dst, number, text) => PacketMoves(s, p, i.sender, src, dst, number, text);
      case Punch(_, _) =>
      case Other =>
    }
  }

  lemma AckMoves(s: Suite, p: Puncher, sender: Endpoint, src: string, d: Option<Bytes>)
    requires p.noise.Some?
    ensures var q := OnAck(s, p, sender, src, d).0; q.noise.Some? && Moves(s, p.noise.value, q.noise.value)
  {
    hide BuildMessage1, Moves;
    MovesAre(s, p.noise.value, d, []);
  }

  lemma HandshakeMoves(s: Suite, p: Puncher, sender: Endpoint, src: string, stage: int, text: Bytes, d: Option<Bytes>)
    requires p.noise.Some?
    ensures var q := OnHandshake(s, p, sender, src, stage, text, d).0;
            q.noise.Some? && Moves(s, p.noise.value, q.noise.value)
  {
    hide HandleMessage1, HandleMessage2, Moves;
    MovesAre(s, p.noise.value, d, Value(s.decode64(text)));
  }

  lemma MovesAre(s: Suite, n: State, d: Option<Bytes>, x: Bytes)
    ensures Moves(s, n, n) && Moves(s, n, BuildMessage1(s, n, d).0)
    ensures Moves(s, n, HandleMessage1(s, n, x, d).0) && Moves(s, n, HandleMessage2(s, n, x).0)
  {
    hide BuildMessage1, HandleMessage1, HandleMessage2;
  }

  lemma PacketMoves(s: Suite, p: Puncher, sender: Endpoint, src: string, dst: string, number: Int64, text: Bytes)
    ensures OnPacket(s, p, sender, src, dst, number, text).0.noise == p.noise
  {
  }

  lemma MoveKeepsAsker(s: Suite, c: Session.Config, n: State, m: State)
    requires s.LawfulDh() && AskerInv(s, c, n) && Moves(s, n, m)
    ensures AskerInv(s, c, m)
  {
    if d :| m == BuildMessage1(s, n, d).0 {
      BuildKeepsAsker(s, c, n, d);
    } else if x :| m == HandleMessage2(s, n, x).0 {
      ConcludeKeepsAsker(s, c, n, x);
    }
  }

  lemma BuildKeepsAsker(s: Suite, c: Session.Config, n: State, d: Option<Bytes>)
    requires s.LawfulDh() && AskerInv(s, c, n)
    ensures AskerInv(s, c, BuildMessage1(s, n, d).0)
  {
  }

  lemma ConcludeKeepsAsker(s: Suite, c: Session.Config, n: State, x: Bytes)
    requires s.LawfulDh() && AskerInv(s, c, n)
    ensures AskerInv(s, c, HandleMessage2(s, n, x).0)
  {
  }

  /** A move that does not answer keeps the chaining key as the one before; answering remembers it. */
  lemma MoveKeepsAnswerer(s: Suite, c: Session.Config, n: State, m: State, before: Bytes)
    requires s.LawfulDh() && AnswererInv(s, c, n, before) && Moves(s, n, m)
    ensures AnswererInv(s, c, m, if m.complete then before else m.ck)
  {
    if x, d :| m == HandleMessage1(s, n, x, d).0 {
      AnswerKeepsAnswerer(s, c, n, x, d, before);
    }
  }

  lemma AnswerKeepsAnswerer(s: Suite, c: Session.Config, n: State, x: Bytes, d: Option<Bytes>, before: Bytes)
    requires s.LawfulDh() && AnswererInv(s, c, n, before)
    ensures var m := HandleMessage1(s, n, x, d).0; AnswererInv(s, c, m, if m.complete then before else m.ck)
  {
    hide HandleMessage1, AnswererInv;
    HandleMessage1Keeps(s, n, x, d);
    if HandleMessage1(s, n, x, d).1.Some? {
      Answering(s, c, n, x, d, before);
    } else {
      Refusing(s, c, n, x, d, before);
    }
  }

  lemma Answering(s: Suite, c: Session.Config, n: State, x: Bytes, d: Option<Bytes>, before: Bytes)
    requires s.LawfulDh() && AnswererInv(s, c, n, before) && HandleMessage1(s, n, x, d).1.Some?
    ensures var m := HandleMessage1(s, n, x, d).0; m.complete && AnswererInv(s, c, m, before)
  {
  }

  lemma Refusing(s: Suite, c: Session.Config, n: State, x: Bytes, d: Option<Bytes>, before: Bytes)
    requires s.LawfulDh() && AnswererInv(s, c, n, before) && HandleMessage1(s, n, x, d).1.None?
    ensures var m := HandleMessage1(s, n, x, d).0; AnswererInv(s, c, m, if m.complete then before else m.ck)
  {
  }

  // ----- Whole runs -----

  /** The two ends as signalling starts them. */
  function EndA(s: Suite, c: Session.Config): (r: Puncher) { Session.Init(s, c).initiator.p }

  function EndB(s: Suite, c: Session.Config): (r: Puncher) { Session.Init(s, c).responder.p }

  lemma EndsAre(s: Suite, c: Session.Config)
    ensures var (p, q) := (EndA(s, c), EndB(s, c));
            && Sound(p) && !p.success && p.myId == c.idA && p.targetId == c.idB && p.lastStage == 0
                && p.lastMessage == []
            && p.noise == Some(Session.InitialA(s, c)) && p.noiseInitiator
            && Sound(q) && !q.success && q.myId == c.idB && q.targetId == c.idA && q.lastStage == 0
                && q.lastMessage == []
            && q.noise == Some(Session.InitialB(s, c)) && !q.noiseInitiator
  {
    hide Launch, Initial;
    LaunchSound(s, Initiator, DeriveKeypair(s, c.a), s.publicKey(c.b), c.targetsA, c.idA, c.idB);
    LaunchSound(s, Responder, DeriveKeypair(s, c.b), s.publicKey(c.a), c.targetsB, c.idB, c.idA);
    InitialRoles(s, c);
  }

  lemma InitialRoles(s: Suite, c: Session.Config)
    ensures Session.InitialA(s, c).role == Initiator && Session.InitialB(s, c).role == Responder
  {
  }

  lemma StartInvs(s: Suite, c: Session.Config)
    ensures AskerInv(s, c, Session.InitialA(s, c)) && AnswererInv(s, c, Session.InitialB(s, c), Name())
  {
  }

  predicate Completes(s: Suite, q: Puncher, i: Input) {
    var m := Step(s, q, i).0.noise; m.Some? && m.value.complete
  }

  /** The chaining key an end has before the step that completes it, or at the end. */
  function KeyBefore(s: Suite, q: Puncher, inputs: seq<Input>): (r: Bytes)
    decreases |inputs|
  {
    if q.noise.None? then []
    else if inputs == [] || Completes(s, q, inputs[0]) then q.noise.value.ck
    else KeyBefore(s, Step(s, q, inputs[0]).0, inputs[1..])
  }

  /** What a responder mixes into its chaining key when it hears a message 1 it does not answer. */
  function Leaves(s: Suite, q: Puncher, i: Input): (r: seq<Bytes>)
    requires q.noise.Some?
  {
    if !i.Receives? || !i.msg.Handshake? || Ignored(q, i.msg) || i.msg.stage != 1 then []
    else
      var n := q.noise.value;
      var x := s.decode64(i.msg.payload);
      if x.None? || |x.value| != KEY_SIZE then []
      else
        var es, ss := s.dh(n.localStatic.private, x.value), s.dh(n.localStatic.private, n.remoteStatic);
        if es.None? || ss.None? then [] else [es.value, ss.value]
  }

  /** Everything it has mixed before the step that completes it. */
  function MixedBefore(s: Suite, q: Puncher, inputs: seq<Input>): (r: seq<Bytes>)
    decreases |inputs|
  {
    if q.noise.None? || inputs == [] || Completes(s, q, inputs[0]) then []
    else Leaves(s, q, inputs[0]) + MixedBefore(s, Step(s, q, inputs[0]).0, inputs[1..])
  }

  lemma {:induction false} MixesJoin(s: Suite, ck: Bytes, xs: seq<Bytes>, ys: seq<Bytes>)
    ensures Mixes(s, ck, xs + ys) == Mixes(s, Mixes(s, ck, xs), ys)
    decreases |xs|
  {
    if xs == [] {
      assert xs + ys == ys;
    } else {
      MixesJoin(s, s.hkdf(ck, xs[0]).0, xs[1..], ys);
      assert (xs + ys)[1..] == xs[1..] + ys;
    }
  }

  lemma StepLeaves(s: Suite, q: Puncher, i: Input)
    requires Sound(q) && !q.noiseInitiator && !Completes(s, q, i)
    ensures var q' := Step(s, q, i).0;
            q'.noise.Some? && !q'.noiseInitiator && q'.noise.value.ck == Mixes(s, q.noise.value.ck, Leaves(s, q, i))
  {
    hide HandleMessage1, HandleMessage2, BuildMessage1, OnPacket, Punches, SendPacket;
    NotYetComplete(s, q, i);
    if i.Receives? && i.msg.Packet? {
      PacketMoves(s, q, i.sender, i.msg.src, i.msg.dst, i.msg.number, i.msg.payload);
      PacketRole(s, q, i.sender, i.msg.src, i.msg.dst, i.msg.number, i.msg.payload);
    } else if i.Receives? && i.msg.Handshake? {
      var x := s.decode64(i.msg.payload);
      if x.Some? {
        UnansweredLeaves(s, q.noise.value, x.value, i.draw);
      }
    }
  }

  lemma NotYetComplete(s: Suite, q: Puncher, i: Input)
    requires Sound(q) && !Completes(s, q, i)
    ensures q.noise.Some? && !q.noise.value.complete
  {
    hide Step;
    StepSound(s, q, i);
  }

  lemma PacketRole(s: Suite, p: Puncher, sender: Endpoint, src: string, dst: string, number: Int64, text: Bytes)
    ensures OnPacket(s, p, sender, src, dst, number, text).0.noiseInitiator == p.noiseInitiator
  {
  }

  lemma TwoMixes(s: Suite, ck: Bytes, x: Bytes, y: Bytes)
    ensures Mixes(s, ck, [x, y]) == s.hkdf(s.hkdf(ck, x).0, y).0
  {
    assert [x, y][1..] == [y] && [y][1..] == [];
    assert Mixes(s, s.hkdf(ck, x).0, [y]) == Mixes(s, s.hkdf(s.hkdf(ck, x).0, y).0, []);
  }

  lemma UnansweredLeaves(s: Suite, n: State, x: Bytes, d: Option<Bytes>)
    requires n.role == Responder && !n.complete
    ensures var (m, reply) := HandleMessage1(s, n, x, d);
            var es, ss := s.dh(n.localStatic.private, x), s.dh(n.localStatic.private, n.remoteStatic);
            var left := if |x| != KEY_SIZE || es.None? || ss.None? then [] else [es.value, ss.value];
            m.complete == reply.Some? && (!m.complete ==> m.ck == Mixes(s, n.ck, left))
  {
    var es, ss := s.dh(n.localStatic.private, x), s.dh(n.localStatic.private, n.remoteStatic);
    if |x| == KEY_SIZE && es.Some? && ss.Some? {
      TwoMixes(s, n.ck, es.value, ss.value);
    }
  }

  /** The chaining key before the answer is the protocol name with everything mixed that was heard before. */
  lemma {:induction false} KeyBeforeIs(s: Suite, q: Puncher, inputs: seq<Input>)
    requires Sound(q) && !q.noiseInitiator
    ensures KeyBefore(s, q, inputs) == Mixes(s, q.noise.value.ck, MixedBefore(s, q, inputs))
    decreases |inputs|
  {
    hide Step, Sound, Completes, Leaves;
    SoundHasNoise(q);
    if inputs != [] && !Completes(s, q, inputs[0]) {
      var q' := Step(s, q, inputs[0]).0;
      StepSound(s, q, inputs[0]);
      StepLeaves(s, q, inputs[0]);
      KeyBeforeIs(s, q', inputs[1..]);
      MixesJoin(s, q.noise.value.ck, Leaves(s, q, inputs[0]), MixedBefore(s, q', inputs[1..]));
    }
  }

  lemma SoundHasNoise(q: Puncher)
    requires Sound(q)
    ensures q.noise.Some?
  {
  }

  /** The step that completes an end finds it with no message 1 received. */
  predicate AnswersFirst(s: Suite, q: Puncher, inputs: seq<Input>)
    decreases |inputs|
  {
    && inputs != [] && q.noise.Some?
    && if Completes(s, q, inputs[0]) then !q.noise.value.msg1Received
       else AnswersFirst(s, Step(s, q, inputs[0]).0, inputs[1..])
  }

  lemma {:induction false} RunAsks(s: Suite, c: Session.Config, p: Puncher, inputs: seq<Input>)
    requires s.LawfulDh() && p.noise.Some? && AskerInv(s, c, p.noise.value)
    ensures var end := Run(s, p, inputs).0; end.noise.Some? && AskerInv(s, c, end.noise.value)
    decreases |inputs|
  {
    hide Step, AskerInv, Moves;
    if inputs != [] {
      var q := Step(s, p, inputs[0]).0;
      StepMoves(s, p, inputs[0]);
      MoveKeepsAsker(s, c, p.noise.value, q.noise.value);
      RunAsks(s, c, q, inputs[1..]);
    }
  }

  lemma {:induction false} RunAnswers(s: Suite, c: Session.Config, p: Puncher, inputs: seq<Input>)
    requires s.LawfulDh() && Sound(p) && !p.success && AnswererInv(s, c, p.noise.value, p.noise.value.ck)
    ensures var end := Run(s, p, inputs).0;
            && end.noise.Some? && AnswererInv(s, c, end.noise.value, KeyBefore(s, p, inputs))
            && (AnswersFirst(s, p, inputs) ==> KeyBefore(s, p, inputs) == Name())
    decreases |inputs|
  {
    hide Step, Moves;
    if inputs != [] {
      var q := Step(s, p, inputs[0]).0;
      StepMoves(s, p, inputs[0]);
      StepSound(s, p, inputs[0]);
      MoveKeepsAnswerer(s, c, p.noise.value, q.noise.value, p.noise.value.ck);
      if q.success {
        PunchOutcome(s, q, inputs[1..]);
      } else {
        RunAnswers(s, c, q, inputs[1..]);
      }
    }
  }

  /**
   Whatever arrives at the two ends, from whomever and in whatever order, and whichever draws fail: once both are
   complete, their keys agree if what the responder mixed before it answered left the protocol name as it was and
   the messages each took give them the same secrets, and otherwise only by an HKDF collision in this exchange.
   */
  lemma EndsAgreeExactly(s: Suite, c: Session.Config, inputsA: seq<Input>, inputsB: seq<Input>)
    requires s.LawfulDh()
    requires var (i, r) := (Run(s, EndA(s, c), inputsA).0.noise, Run(s, EndB(s, c), inputsB).0.noise);
             i.Some? && r.Some? && i.value.complete && r.value.complete
    ensures var (i, r) := (Run(s, EndA(s, c), inputsA).0.noise.value, Run(s, EndB(s, c), inputsB).0.noise.value);
            var before := KeyBefore(s, EndB(s, c), inputsB);
            && i.localEphemeral.Some? && r.localEphemeral.Some?
            && before == Mixes(s, Name(), MixedBefore(s, EndB(s, c), inputsB))
            && var ((es, ss, ee), (es', ss', ee')) := (Held(s, i), Held(s, r));
               && ss == ss'
               && (before == Name() && es == es' && ee == ee' ==> KeysAgree(i, r) && i.ck == r.ck)
               && (KeysAgree(i, r) ==>
                   || (before == Name() && es == es' && ee == ee')
                   || Collides(s, Name(), Inputs(es, ss, ee), before, Inputs(es', ss, ee')))
  {
    hide Run, EndA, EndB, Initial, KeyBefore, MixedBefore, Held, Collides;
    RunsHold(s, c, inputsA, inputsB);
    AgreeExactly(s, c, Run(s, EndA(s, c), inputsA).0.noise.value, Run(s, EndB(s, c), inputsB).0.noise.value,
                 KeyBefore(s, EndB(s, c), inputsB));
  }

  lemma RunsHold(s: Suite, c: Session.Config, inputsA: seq<Input>, inputsB: seq<Input>)
    requires s.LawfulDh()
    ensures var (p, q) := (Run(s, EndA(s, c), inputsA).0, Run(s, EndB(s, c), inputsB).0);
            && p.noise.Some? && q.noise.Some? && AskerInv(s, c, p.noise.value)
            && AnswererInv(s, c, q.noise.value, KeyBefore(s, EndB(s, c), inputsB))
            && KeyBefore(s, EndB(s, c), inputsB) == Mixes(s, Name(), MixedBefore(s, EndB(s, c), inputsB))
            && (AnswersFirst(s, EndB(s, c), inputsB) ==> KeyBefore(s, EndB(s, c), inputsB) == Name())
  {
    hide Run, EndA, EndB, Initial, KeyBefore, MixedBefore, AnswersFirst, AskerInv, Session.InitialA, Session.InitialB;
    EndsAre(s, c);
    KeyBeforeIs(s, EndB(s, c), inputsB);
    StartInvs(s, c);
    RunAsks(s, c, EndA(s, c), inputsA);
    RunAnswers(s, c, EndB(s, c), inputsB);
  }

  /**
   The guard of a sound exchange: the responder has received no message 1 when it answers this round's, and the
   initiator takes that answer. Then the keys agree, whatever else arrives and whichever other draws fail.
   */
  lemma GuardedEndsAgree(s: Suite, c: Session.Config, inputsA: seq<Input>, inputsB: seq<Input>)
    requires s.LawfulDh() && AnswersFirst(s, EndB(s, c), inputsB)
    requires var (i, r) := (Run(s, EndA(s, c), inputsA).0.noise, Run(s, EndB(s, c), inputsB).0.noise);
             && i.Some? && r.Some? && i.value.complete && r.value.complete
             && i.value.localEphemeral.Some? && r.value.localEphemeral.Some?
             && r.value.remoteEphemeral == i.value.localEphemeral.value.public
             && i.value.remoteEphemeral == r.value.localEphemeral.value.public
    ensures var (i, r) := (Run(s, EndA(s, c), inputsA).0.noise.value, Run(s, EndB(s, c), inputsB).0.noise.value);
            KeysAgree(i, r) && i.ck == r.ck
  {
    hide Run, EndA, EndB, Initial, KeyBefore, AnswersFirst;
    RunsHold(s, c, inputsA, inputsB);
    EndsAgreeExactly(s, c, inputsA, inputsB);
  }
}
