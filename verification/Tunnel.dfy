/**
 Two clients in one signalling round, from TUN device to TUN device: src/client/TestClient.cpp at both ends
 over the lossy network of `Session`.

 The control server and the TUN devices are events at one client: a packet read, a packet handed down by the
 server. The relay is one more lossy network: what a client sends through it can reach the other at any later
 time, any number of times.
 */
module Tunnel {
  import opened Basics
  import opened Noise
  import opened Puncher
  import Client
  import Hex
  import Session

  /** A client and everything it has caused. */
  datatype End = End(client: Client.Client, effects: seq<Client.Effect>)

  datatype Pair = Pair(left: End, right: End) {
    function At(side: Session.Side): (r: End) { if side == Session.Left then left else right }

    function Put(side: Session.Side, e: End): (r: Pair) {
      if side == Session.Left then this.(left := e) else this.(right := e)
    }
  }

  /** The round's two ends, their network, and whether the clients have a relay to fall back to. */
  datatype Setup = Setup(c: Session.Config, network: string, relay: bool) {
    function Id(side: Session.Side): (r: string) { if side == Session.Left then c.idA else c.idB }

    function Options(s: Suite, side: Session.Side): (r: Client.Options) {
      Client.Options(Id(side), network, DeriveKeypair(s, if side == Session.Left then c.a else c.b), relay)
    }
  }

  datatype Event =
    | Deliver(to: Session.Side, sender: Endpoint, msg: Datagram, draw: Bytes)
    | Fire(at: Session.Side, timer: Timer)
    | Relayed(to: Session.Side, payload: Bytes)
    | Local(at: Session.Side, what: Client.Event)

  /** Both clients told by the server to punch at each other. */
  function Init(s: Suite, u: Setup): (r: Pair) {
    var (a, ea) := Client.OnPunchStart(s, u.Options(s, Session.Left), Client.Fresh(), u.c.idB, true,
        Some(s.publicKey(u.c.b)), u.c.targetsA, true);
    var (b, eb) := Client.OnPunchStart(s, u.Options(s, Session.Right), Client.Fresh(), u.c.idA, false,
        Some(s.publicKey(u.c.a)), u.c.targetsB, true);
    Pair(End(a, ea), End(b, eb))
  }

  predicate InFlight(end: End, m: Datagram) {
    exists e :: e in end.effects && e.ToNet? && e.msg == m
  }

  /** Sent through the relay to a node. */
  predicate InRelay(end: End, to: string, payload: Bytes) {
    exists e :: e in end.effects && e.ToRelay? && e.to == to && e.payload == payload
  }

  /** What happens at one client without starting another round. */
  predicate InRound(e: Client.Event) {
    !e.PunchStart? && !e.PuncherInput? && !e.Reconnect? && !e.RelayArrived?
  }

  function Act(s: Suite, o: Client.Options, end: End, e: Client.Event): (r: End) {
    var (client, effects) := Client.Next(s, o, end.client, e);
    End(client, end.effects + effects)
  }

  /** A step that is not possible changes nothing. */
  function Next(s: Suite, u: Setup, pair: Pair, e: Event): (r: Pair) {
    match e
    case Deliver(to, sender, m, d) =>
      if InFlight(pair.At(Session.Other(to)), m)
      then pair.Put(to, Act(s, u.Options(s, to), pair.At(to), Client.PuncherInput(Receives(sender, m, Some(d)))))
      else pair
    case Fire(at, timer) =>
      pair.Put(at, Act(s, u.Options(s, at), pair.At(at), Client.PuncherInput(Session.TimerInput(timer))))
    case Relayed(to, payload) =>
      if InRelay(pair.At(Session.Other(to)), u.Id(to), payload)
      then pair.Put(to, Act(s, u.Options(s, to), pair.At(to), Client.RelayArrived(payload)))
      else pair
    case Local(at, what) => if InRound(what) then pair.Put(at, Act(s, u.Options(s, at), pair.At(at), what)) else pair
  }

  function Run(s: Suite, u: Setup, events: seq<Event>): (r: Pair)
    decreases |events|
  {
    if events == [] then Init(s, u) else Next(s, u, Run(s, u, events[..|events| - 1]), events[|events| - 1])
  }

  // ----- The clients refine the two punchers of a session -----

  ghost predicate FromPeer(node: Session.Node, b: Bytes) {
    exists o :: o in node.out && o.Delivered? && b == Hex.Decode(o.payload, true)
  }

  ghost predicate FromServer(events: seq<Event>, side: Session.Side, b: Bytes) {
    exists payload :: Local(side, Client.ServerPacket(payload)) in events && b == Hex.Decode(payload, true)
  }

  ghost predicate WasRead(events: seq<Event>, side: Session.Side, b: Bytes) {
    exists w :: Local(side, Client.TunRead(b, w)) in events
  }

  /** What an end may have heard of: all events so far, and everything the other end has caused. */
  datatype History = History(events: seq<Event>, theirs: seq<Client.Effect>)

  predicate Extends(h: History, h': History) { h.events <= h'.events && h.theirs <= h'.theirs }

  ghost predicate FromRelay(theirs: seq<Client.Effect>, b: Bytes) {
    exists x :: x in theirs && x.ToRelay? && b == Hex.Decode(x.payload, true)
  }

  /** The text of a packet the client has read. */
  ghost predicate IsRead(events: seq<Event>, side: Session.Side, text: Bytes) {
    exists b: Bytes :: text == Hex.Encode(b) && WasRead(events, side, b)
  }

  /** The numbered greeting a client in relay mode sends. */
  predicate IsTest(me: string, e: Client.Effect) { e.ToRelay? && e.payload == Client.TestText(me, e.number) }

  /** What a client's effects are made of. */
  ghost predicate Explained(me: string, node: Session.Node, h: History, side: Session.Side, e: Client.Effect) {
    && (e.ToNet? ==> Sent(e.dest, e.msg) in node.out)
    && (e.TunWrite? ==>
        FromPeer(node, e.packet) || FromServer(h.events, side, e.packet) || FromRelay(h.theirs, e.packet))
    && (e.ToRelay? ==> IsRead(h.events, side, e.payload) || IsTest(me, e))
  }

  ghost predicate Linked(o: Client.Options, end: End, node: Session.Node, h: History, side: Session.Side) {
    && end.client.puncher == Some(node.p) && Client.ModeInv(o, end.client)
    && (forall e :: e in end.effects ==> Explained(o.nodeId, node, h, side, e))
    && (forall a :: a in node.accepted ==> a.1 != [] && IsRead(h.events, side, a.1))
  }

  function HistoryOf(pair: Pair, events: seq<Event>, side: Session.Side): (r: History) {
    History(events, pair.At(Session.Other(side)).effects)
  }

  ghost predicate LinkedBoth(s: Suite, u: Setup, pair: Pair, sys: Session.System, events: seq<Event>) {
    forall side :: Linked(u.Options(s, side), pair.At(side), sys.At(side), HistoryOf(pair, events, side), side)
  }

  lemma InitLinked(s: Suite, u: Setup)
    requires s.LawfulDh()
    ensures LinkedBoth(s, u, Init(s, u), Session.Init(s, u.c), [])
  {
    hide Linked, Launch;
    forall side: Session.Side
      ensures Linked(u.Options(s, side), Init(s, u).At(side), Session.Init(s, u.c).At(side),
                     HistoryOf(Init(s, u), [], side), side)
    {
      InitLinkedAt(s, u, side);
    }
  }

  lemma InitLinkedAt(s: Suite, u: Setup, side: Session.Side)
    requires s.LawfulDh()
    ensures Linked(u.Options(s, side), Init(s, u).At(side), Session.Init(s, u.c).At(side),
                   HistoryOf(Init(s, u), [], side), side)
  {
    hide Client.ModeInv, Launch, HistoryOf;
    var o := u.Options(s, side);
    var c := u.c;
    var (role, local, remote, targets, me, peer) :=
      if side == Session.Left then (Initiator, DeriveKeypair(s, c.a), s.publicKey(c.b), c.targetsA, c.idA, c.idB)
      else (Responder, DeriveKeypair(s, c.b), s.publicKey(c.a), c.targetsB, c.idB, c.idA);
    Client.FreshIsInMode(o);
    Client.NextKeepsMode(s, o, Client.Fresh(),
        Client.PunchStart(peer, side == Session.Left, Some(remote), targets, true));
    NetOfExplained(Launch(s, role, local, remote, targets, me, peer).1);
  }

  lemma {:induction false} NetOfExplained(out: seq<Output>)
    ensures forall e :: e in Client.NetOf(out) ==> e.ToNet? && Sent(e.dest, e.msg) in out
    decreases |out|
  {
    if out != [] {
      NetOfExplained(out[1..]);
    }
  }

  /** Reports heard turn into effects they explain. */
  lemma {:induction false} HearExplained(o: Client.Options, c: Client.Client, out: seq<Output>)
    ensures forall e :: e in Client.Hear(o, c, out).1 ==>
              && (e.ToNet? ==> Sent(e.dest, e.msg) in out) && !e.ToRelay?
              && (e.TunWrite? ==> exists m :: m in out && m.Delivered? && e.packet == Hex.Decode(m.payload, true))
    decreases |out|
  {
    if out != [] {
      var c1 := Client.HearOne(o, c, out[0]).0;
      HearExplained(o, c1, out[1..]);
      forall e | e in Client.Hear(o, c1, out[1..]).1 && e.TunWrite?
        ensures exists m :: m in out && m.Delivered? && e.packet == Hex.Decode(m.payload, true)
      {
        var m :| m in out[1..] && m.Delivered? && e.packet == Hex.Decode(m.payload, true);
        assert m in out;
      }
    }
  }

  lemma StaysRead(events: seq<Event>, events': seq<Event>, side: Session.Side, b: Bytes)
    requires WasRead(events, side, b) && events <= events'
    ensures WasRead(events', side, b)
  {
    var w :| Local(side, Client.TunRead(b, w)) in events;
    assert Local(side, Client.TunRead(b, w)) in events';
  }

  lemma StaysText(events: seq<Event>, events': seq<Event>, side: Session.Side, text: Bytes)
    requires IsRead(events, side, text) && events <= events'
    ensures IsRead(events', side, text)
  {
    hide WasRead, Hex.Encode;
    var b: Bytes :| text == Hex.Encode(b) && WasRead(events, side, b);
    StaysRead(events, events', side, b);
  }

  lemma StaysSent(h: History, h': History, side: Session.Side, b: Bytes)
    requires Extends(h, h')
    ensures FromServer(h.events, side, b) ==> FromServer(h'.events, side, b)
    ensures FromRelay(h.theirs, b) ==> FromRelay(h'.theirs, b)
  {
    if FromServer(h.events, side, b) {
      var payload :| Local(side, Client.ServerPacket(payload)) in h.events && b == Hex.Decode(payload, true);
      assert Local(side, Client.ServerPacket(payload)) in h'.events;
    }
    if x :| x in h.theirs && x.ToRelay? && b == Hex.Decode(x.payload, true) {
      assert x in h'.theirs;
    }
  }

  /** Effects stay explained when the node puts out more and more happens. */
  lemma StaysExplained(me: string, node: Session.Node, node': Session.Node, h: History, h': History,
      side: Session.Side, e: Client.Effect)
    requires Explained(me, node, h, side, e) && node.out <= node'.out && Extends(h, h')
    ensures Explained(me, node', h', side, e)
  {
    hide FromServer, FromRelay, IsRead, IsTest;
    assert forall o :: o in node.out ==> o in node'.out;
    if e.TunWrite? {
      StaysSent(h, h', side, e.packet);
    }
    if e.ToRelay? && IsRead(h.events, side, e.payload) {
      StaysText(h.events, h'.events, side, e.payload);
    }
  }

  /** An end nothing happens to stays linked. */
  lemma IdleLinked(o: Client.Options, end: End, node: Session.Node, h: History, h': History, side: Session.Side)
    requires Linked(o, end, node, h, side) && Extends(h, h')
    ensures Linked(o, end, node, h', side)
  {
    hide Explained, IsRead, Client.ModeInv;
    forall e | e in end.effects
      ensures Explained(o.nodeId, node, h', side, e)
    {
      StaysExplained(o.nodeId, node, node, h, h', side, e);
    }
    forall a | a in node.accepted
      ensures IsRead(h'.events, side, a.1)
    {
      StaysText(h.events, h'.events, side, a.1);
    }
  }

  /** A datagram or timer at one end moves client and puncher alike. */
  lemma InputLinked(s: Suite, o: Client.Options, end: End, node: Session.Node, h: History, h': History,
      side: Session.Side, i: Input)
    requires Linked(o, end, node, h, side) && Extends(h, h') && !i.Sends?
    ensures Linked(o, Act(s, o, end, Client.PuncherInput(i)), Session.Handle(s, node, i), h', side)
  {
    hide Explained, IsRead, Client.ModeInv, Step, Client.Hear;
    var (p, out) := Step(s, node.p, i);
    var node' := Session.Handle(s, node, i);
    var heard := end.client.(puncher := Some(p));
    Client.InputKeepsMode(s, o, end.client, i);
    InputHears(s, o, end.client, i);
    HearExplained(o, heard, out);
    IdleLinked(o, end, node, h, h', side);
    forall e | e in end.effects
      ensures Explained(o.nodeId, node', h', side, e)
    {
      StaysExplained(o.nodeId, node, node', h, h', side, e);
    }
    forall e | e in Client.Hear(o, heard, out).1
      ensures Explained(o.nodeId, node', h', side, e)
    {
      HeardExplained(o.nodeId, node', h', side, out, e);
    }
  }

  lemma HeardExplained(me: string, node: Session.Node, h: History, side: Session.Side, out: seq<Output>,
      e: Client.Effect)
    requires forall m :: m in out ==> m in node.out
    requires (e.ToNet? ==> Sent(e.dest, e.msg) in out) && !e.ToRelay?
    requires e.TunWrite? ==> exists m :: m in out && m.Delivered? && e.packet == Hex.Decode(m.payload, true)
    ensures Explained(me, node, h, side, e)
  {
  }

  lemma InputHears(s: Suite, o: Client.Options, c: Client.Client, i: Input)
    requires Client.ModeInv(o, c) && c.puncher.Some? && !i.Sends?
    ensures var (p, out) := Step(s, c.puncher.value, i);
            && Client.OnInput(s, o, c, i) == Client.Hear(o, c.(puncher := Some(p)), out)
            && Client.OnInput(s, o, c, i).0.puncher == Some(p)
  {
    hide Step, Client.Hear;
    var (p, out) := Step(s, c.puncher.value, i);
    StepSound(s, c.puncher.value, i);
    Client.HearIs(o, c.(puncher := Some(p)), out);
  }

  /** The session's step for a packet read from TUN, if the client sends it directly. */
  function Direct(c: Client.Client, side: Session.Side, packet: Bytes, w: Outcome): (r: seq<Session.Event>) {
    if c.mode == Client.P2P && c.peerId != "" && packet != []
    then [Session.Transmit(side, Client.Increment(c.seqNo), Hex.Encode(packet), w)]
    else []
  }

  function Transmitted(s: Suite, node: Session.Node, number: Int64, payload: Bytes, w: Outcome): (r: Session.Node) {
    var (accepted, out) := SendPacket(s, node.p, node.p.myId, node.p.targetId, number, payload, w);
    Session.Node(node.p, node.out + out, if accepted then node.accepted + [(number, payload)] else node.accepted)
  }

  lemma TransmittedIs(s: Suite, sys: Session.System, side: Session.Side, number: Int64, payload: Bytes, w: Outcome)
    ensures Session.Next(s, sys, Session.Transmit(side, number, payload, w))
            == sys.Put(side, Transmitted(s, sys.At(side), number, payload, w))
  {
    hide SendPacket;
  }

  /** A packet read while the client does not send directly causes nothing the session sees. */
  lemma IndirectRead(s: Suite, o: Client.Options, end: End, node: Session.Node, h: History, h': History,
      side: Session.Side, packet: Bytes, w: Outcome)
    requires Linked(o, end, node, h, side) && Direct(end.client, side, packet, w) == [] && Extends(h, h')
    requires Local(side, Client.TunRead(packet, w)) in h'.events
    ensures Linked(o, Act(s, o, end, Client.TunRead(packet, w)), node, h', side)
  {
    hide Explained, IsRead, Client.ModeInv, Hex.Encode, SendPacket;
    var e := Client.TunRead(packet, w);
    Client.NextKeepsMode(s, o, end.client, e);
    IdleLinked(o, end, node, h, h', side);
    ReadNow(h'.events, side, packet, w);
    var added := Client.Next(s, o, end.client, e).1;
    forall x | x in added
      ensures Explained(o.nodeId, node, h', side, x)
    {
      Unseen(o.nodeId, node, h', side, x);
    }
  }

  lemma Unseen(me: string, node: Session.Node, h: History, side: Session.Side, e: Client.Effect)
    requires !e.ToNet? && !e.TunWrite? && (e.ToRelay? ==> IsRead(h.events, side, e.payload) || IsTest(me, e))
    ensures Explained(me, node, h, side, e)
  {
  }

  /** A packet sent directly is a transmission of the session. */
  lemma DirectRead(s: Suite, o: Client.Options, end: End, node: Session.Node, h: History, h': History,
      side: Session.Side, packet: Bytes, w: Outcome)
    requires Linked(o, end, node, h, side) && Direct(end.client, side, packet, w) != [] && Extends(h, h')
    requires Local(side, Client.TunRead(packet, w)) in h'.events
    ensures Linked(o, Act(s, o, end, Client.TunRead(packet, w)),
                   Transmitted(s, node, Client.Increment(end.client.seqNo), Hex.Encode(packet), w), h', side)
  {
    hide Explained, IsRead, Hex.Encode, SendPacket, Client.Sealings, Client.NetOf;
    var e := Client.TunRead(packet, w);
    var text := Hex.Encode(packet);
    var n := Client.Increment(end.client.seqNo);
    Client.NextKeepsMode(s, o, end.client, e);
    IdleLinked(o, end, node, h, h', side);
    var (ok, out) := SendPacket(s, node.p, node.p.myId, node.p.targetId, n, text, w);
    var node' := Transmitted(s, node, n, text, w);
    Client.SendIs(s, node.p, node.p.myId, node.p.targetId, n, text, w);
    assert node.out <= node'.out;
    forall x | x in end.effects
      ensures Explained(o.nodeId, node', h', side, x)
    {
      StaysExplained(o.nodeId, node, node', h, h', side, x);
    }
    var added := Client.Sealings(node.p, n, w) + if ok then Client.NetOf(out) else [Client.ToServer(text)];
    assert Act(s, o, end, e).effects == end.effects + added;
    forall x | x in added
      ensures Explained(o.nodeId, node', h', side, x)
    {
      AddedExplained(o.nodeId, node', h', side, node.p, n, w, ok, out, text, x);
    }
    ReadNow(h'.events, side, packet, w);
  }

  lemma ReadNow(events: seq<Event>, side: Session.Side, packet: Bytes, w: Outcome)
    requires Local(side, Client.TunRead(packet, w)) in events
    ensures WasRead(events, side, packet) && IsRead(events, side, Hex.Encode(packet))
  {
    hide Hex.Encode;
    assert WasRead(events, side, packet);
  }

  lemma AddedExplained(me: string, node: Session.Node, h: History, side: Session.Side, p: Puncher, n: Int64, w: Outcome,
                       ok: bool, out: seq<Output>, text: Bytes, e: Client.Effect)
    requires forall m :: m in out ==> m in node.out
    requires e in Client.Sealings(p, n, w) + if ok then Client.NetOf(out) else [Client.ToServer(text)]
    ensures Explained(me, node, h, side, e)
  {
    hide Nonce;
    NetOfExplained(out);
  }

  /** Everything else that can happen at a client in a round. */
  lemma OtherLinked(s: Suite, o: Client.Options, end: End, node: Session.Node, h: History, h': History,
      side: Session.Side, e: Client.Event)
    requires Linked(o, end, node, h, side) && InRound(e) && !e.TunRead? && Extends(h, h')
    requires Local(side, e) in h'.events
    ensures Linked(o, Act(s, o, end, e), node, h', side)
  {
    hide IsRead, Client.ModeInv, FromPeer, Explained, Client.TestText;
    Client.NextKeepsMode(s, o, end.client, e);
    IdleLinked(o, end, node, h, h', side);
    var added := Client.Next(s, o, end.client, e).1;
    forall x | x in added
      ensures Explained(o.nodeId, node, h', side, x)
    {
      if e.ServerPacket? {
        ServerExplained(o.nodeId, node, h', side, e.payload);
      } else {
        Unseen(o.nodeId, node, h', side, x);
      }
    }
  }

  lemma ServerExplained(me: string, node: Session.Node, h: History, side: Session.Side, payload: Bytes)
    requires Local(side, Client.ServerPacket(payload)) in h.events
    ensures Explained(me, node, h, side, Client.TunWrite(Hex.Decode(payload, true)))
  {
    assert FromServer(h.events, side, Hex.Decode(payload, true));
  }

  /** A packet from the relay is written to TUN, or causes nothing. */
  lemma RelayedLinked(s: Suite, o: Client.Options, end: End, node: Session.Node, h: History, h': History,
      side: Session.Side, x: Client.Effect)
    requires Linked(o, end, node, h, side) && Extends(h, h') && x in h'.theirs && x.ToRelay?
    ensures Linked(o, Act(s, o, end, Client.RelayArrived(x.payload)), node, h', side)
  {
    hide IsRead, Client.ModeInv, FromPeer, Explained;
    IdleLinked(o, end, node, h, h', side);
    RelayExplained(o.nodeId, node, h', side, x);
  }

  lemma RelayExplained(me: string, node: Session.Node, h: History, side: Session.Side, x: Client.Effect)
    requires x in h.theirs && x.ToRelay?
    ensures Explained(me, node, h, side, Client.TunWrite(Hex.Decode(x.payload, true)))
  {
    assert FromRelay(h.theirs, Hex.Decode(x.payload, true));
  }

  /** The session's steps for one event. */
  function Shadow(pair: Pair, e: Event): (r: seq<Session.Event>) {
    match e
    case Deliver(to, sender, m, d) =>
      if InFlight(pair.At(Session.Other(to)), m) then [Session.Deliver(to, sender, m, d)] else []
    case Fire(at, timer) => [Session.Fire(at, timer)]
    case Relayed(_, _) => []
    case Local(at, what) => if what.TunRead? then Direct(pair.At(at).client, at, what.packet, what.outcome) else []
  }

  /** The session that stands behind a run of the clients. */
  function Trace(s: Suite, u: Setup, events: seq<Event>): (r: seq<Session.Event>)
    decreases |events|
  {
    if events == [] then []
    else
      var before := events[..|events| - 1];
      Trace(s, u, before) + Shadow(Run(s, u, before), events[|events| - 1])
  }

  lemma ShadowLinks(s: Suite, u: Setup, pair: Pair, sys: Session.System, events: seq<Event>, e: Event)
    requires LinkedBoth(s, u, pair, sys, events)
    ensures LinkedBoth(s, u, Next(s, u, pair, e), Session.After(s, sys, Shadow(pair, e)), events + [e])
  {
    hide Linked, Act, Session.Handle, InFlight, InRelay, InRound, Client.Increment, Direct, Transmitted, HistoryOf;
    var next, sys' := Next(s, u, pair, e), Session.After(s, sys, Shadow(pair, e));
    ShadowIs(s, u, pair, sys, events, e);
    forall side: Session.Side
      ensures Linked(u.Options(s, side), next.At(side), sys'.At(side), HistoryOf(next, events + [e], side), side)
    {
      ShadowLinksAt(s, u, pair, sys, events, e, side);
    }
  }

  function Shadowed(s: Suite, pair: Pair, sys: Session.System, e: Event): (r: Session.System) {
    match e
    case Deliver(to, sender, m, d) =>
      if InFlight(pair.At(Session.Other(to)), m)
      then sys.Put(to, Session.Handle(s, sys.At(to), Receives(sender, m, Some(d))))
      else sys
    case Fire(at, timer) => sys.Put(at, Session.Handle(s, sys.At(at), Session.TimerInput(timer)))
    case Relayed(_, _) => sys
    case Local(at, what) =>
      if what.TunRead? && Direct(pair.At(at).client, at, what.packet, what.outcome) != [] then
        var n := Client.Increment(pair.At(at).client.seqNo);
        sys.Put(at, Transmitted(s, sys.At(at), n, Hex.Encode(what.packet), what.outcome))
      else sys
  }

  /** The shadow of an event in closed form. */
  lemma ShadowIs(s: Suite, u: Setup, pair: Pair, sys: Session.System, events: seq<Event>, e: Event)
    requires LinkedBoth(s, u, pair, sys, events)
    ensures Session.After(s, sys, Shadow(pair, e)) == Shadowed(s, pair, sys, e)
  {
    hide Session.Handle, Transmitted, Hex.Encode, SendPacket, Client.ModeInv, Step;
    OneStep(s, sys, Shadow(pair, e));
    match e
    case Deliver(to, sender, m, d) =>
      if InFlight(pair.At(Session.Other(to)), m) {
        InFlightBelow(s, u, pair, sys, events, Session.Other(to), m);
      }
    case Fire(_, _) =>
    case Relayed(_, _) =>
    case Local(at, what) =>
      if what.TunRead? {
        TransmittedIs(s, sys, at, Client.Increment(pair.At(at).client.seqNo), Hex.Encode(what.packet), what.outcome);
      }
  }

  lemma OneStep(s: Suite, sys: Session.System, trace: seq<Session.Event>)
    ensures |trace| == 0 ==> Session.After(s, sys, trace) == sys
    ensures |trace| == 1 ==> Session.After(s, sys, trace) == Session.Next(s, sys, trace[0])
  {
    hide Session.Next;
    if |trace| == 1 {
      assert trace[1..] == [];
    }
  }

  lemma InFlightBelow(s: Suite, u: Setup, pair: Pair, sys: Session.System, events: seq<Event>, side: Session.Side,
      m: Datagram)
    requires LinkedBoth(s, u, pair, sys, events) && InFlight(pair.At(side), m)
    ensures Session.InFlight(sys.At(side), m)
  {
    var e :| e in pair.At(side).effects && e.ToNet? && e.msg == m;
    assert Linked(u.Options(s, side), pair.At(side), sys.At(side), HistoryOf(pair, events, side), side);
    assert Explained(u.Id(side), sys.At(side), HistoryOf(pair, events, side), side, e);
  }

  lemma ShadowLinksAt(s: Suite, u: Setup, pair: Pair, sys: Session.System, events: seq<Event>, e: Event,
      side: Session.Side)
    requires LinkedBoth(s, u, pair, sys, events)
    ensures Linked(u.Options(s, side), Next(s, u, pair, e).At(side), Session.After(s, sys, Shadow(pair, e)).At(side),
                   HistoryOf(Next(s, u, pair, e), events + [e], side), side)
  {
    hide Linked, Act, Session.Handle, Session.After, Shadow, Next, HistoryOf, LinkedBoth;
    match e
    case Deliver(_, _, _, _) => DeliverLinksAt(s, u, pair, sys, events, e, side);
    case Fire(_, _) => FireLinksAt(s, u, pair, sys, events, e, side);
    case Relayed(_, _) => RelayLinksAt(s, u, pair, sys, events, e, side);
    case Local(_, _) => LocalLinksAt(s, u, pair, sys, events, e, side);
  }

  lemma DeliverLinksAt(s: Suite, u: Setup, pair: Pair, sys: Session.System, events: seq<Event>, e: Event,
      side: Session.Side)
    requires LinkedBoth(s, u, pair, sys, events) && e.Deliver?
    ensures Linked(u.Options(s, side), Next(s, u, pair, e).At(side), Session.After(s, sys, Shadow(pair, e)).At(side),
                   HistoryOf(Next(s, u, pair, e), events + [e], side), side)
  {
    hide Linked, Act, Session.Handle, Session.After, Shadow, InFlight, InRelay, InRound, Direct, Transmitted,
        Client.Increment;
    ShadowIs(s, u, pair, sys, events, e);
    var (o, end, node) := (u.Options(s, side), pair.At(side), sys.At(side));
    var (h, h') := (HistoryOf(pair, events, side), HistoryOf(Next(s, u, pair, e), events + [e], side));
    assert Linked(o, end, node, h, side);
    NextGrows(s, u, pair, e);
    IdleLinked(o, end, node, h, h', side);
    if e.to == side {
      InputLinked(s, o, end, node, h, h', side, Receives(e.sender, e.msg, Some(e.draw)));
    }
  }

  lemma FireLinksAt(s: Suite, u: Setup, pair: Pair, sys: Session.System, events: seq<Event>, e: Event,
      side: Session.Side)
    requires LinkedBoth(s, u, pair, sys, events) && e.Fire?
    ensures Linked(u.Options(s, side), Next(s, u, pair, e).At(side), Session.After(s, sys, Shadow(pair, e)).At(side),
                   HistoryOf(Next(s, u, pair, e), events + [e], side), side)
  {
    hide Linked, Act, Session.Handle, Session.After, Shadow, InFlight, InRelay, InRound, Direct, Transmitted,
        Client.Increment;
    ShadowIs(s, u, pair, sys, events, e);
    var (o, end, node) := (u.Options(s, side), pair.At(side), sys.At(side));
    var (h, h') := (HistoryOf(pair, events, side), HistoryOf(Next(s, u, pair, e), events + [e], side));
    assert Linked(o, end, node, h, side);
    NextGrows(s, u, pair, e);
    IdleLinked(o, end, node, h, h', side);
    if e.at == side {
      InputLinked(s, o, end, node, h, h', side, Session.TimerInput(e.timer));
    }
  }

  lemma RelayLinksAt(s: Suite, u: Setup, pair: Pair, sys: Session.System, events: seq<Event>, e: Event,
      side: Session.Side)
    requires LinkedBoth(s, u, pair, sys, events) && e.Relayed?
    ensures Linked(u.Options(s, side), Next(s, u, pair, e).At(side), Session.After(s, sys, Shadow(pair, e)).At(side),
                   HistoryOf(Next(s, u, pair, e), events + [e], side), side)
  {
    hide Linked, Act, Session.Handle, Session.After, Shadow, InFlight, InRelay, InRound, Direct, Transmitted,
        Client.Increment;
    ShadowIs(s, u, pair, sys, events, e);
    var (o, end, node) := (u.Options(s, side), pair.At(side), sys.At(side));
    var (h, h') := (HistoryOf(pair, events, side), HistoryOf(Next(s, u, pair, e), events + [e], side));
    assert Linked(o, end, node, h, side);
    NextGrows(s, u, pair, e);
    IdleLinked(o, end, node, h, h', side);
    if e.to == side && InRelay(pair.At(Session.Other(side)), u.Id(side), e.payload) {
      var x := RelayedFrom(pair.At(Session.Other(side)), u.Id(side), e.payload);
      RelayedLinked(s, o, end, node, h, h', side, x);
    }
  }

  lemma LocalLinksAt(s: Suite, u: Setup, pair: Pair, sys: Session.System, events: seq<Event>, e: Event,
      side: Session.Side)
    requires LinkedBoth(s, u, pair, sys, events) && e.Local?
    ensures Linked(u.Options(s, side), Next(s, u, pair, e).At(side), Session.After(s, sys, Shadow(pair, e)).At(side),
                   HistoryOf(Next(s, u, pair, e), events + [e], side), side)
  {
    hide Linked, Act, Session.Handle, Session.After, Shadow, InFlight, InRelay, InRound, Direct, Transmitted,
        Client.Increment;
    ShadowIs(s, u, pair, sys, events, e);
    var (o, end, node) := (u.Options(s, side), pair.At(side), sys.At(side));
    var (h, h') := (HistoryOf(pair, events, side), HistoryOf(Next(s, u, pair, e), events + [e], side));
    assert Linked(o, end, node, h, side);
    NextGrows(s, u, pair, e);
    IdleLinked(o, end, node, h, h', side);
    if e.at == side {
      LocalLinked(s, o, end, node, h, h', side, e.what);
    }
  }

  lemma RelayedFrom(end: End, to: string, payload: Bytes) returns (x: Client.Effect)
    requires InRelay(end, to, payload)
    ensures x in end.effects && x.ToRelay? && x.payload == payload
  {
    x :| x in end.effects && x.ToRelay? && x.to == to && x.payload == payload;
  }

  lemma LocalLinked(s: Suite, o: Client.Options, end: End, node: Session.Node, h: History, h': History,
      side: Session.Side, what: Client.Event)
    requires Linked(o, end, node, h, side) && Extends(h, h') && Local(side, what) in h'.events
    ensures var direct := what.TunRead? && Direct(end.client, side, what.packet, what.outcome) != [];
            Linked(o, if InRound(what) then Act(s, o, end, what) else end,
                   if direct then Transmitted(s, node, Client.Increment(end.client.seqNo), Hex.Encode(what.packet),
                       what.outcome) else node,
                   h', side)
  {
    hide Linked, Act, Direct, Transmitted, Client.Increment, Hex.Encode;
    if what.TunRead? {
      if Direct(end.client, side, what.packet, what.outcome) != [] {
        DirectRead(s, o, end, node, h, h', side, what.packet, what.outcome);
      } else {
        IndirectRead(s, o, end, node, h, h', side, what.packet, what.outcome);
      }
    } else if InRound(what) {
      OtherLinked(s, o, end, node, h, h', side, what);
    } else {
      IdleLinked(o, end, node, h, h', side);
    }
  }

  /** Every run of the two clients is a run of the session, as far as the session sees. */
  lemma {:induction false} RunLinked(s: Suite, u: Setup, events: seq<Event>)
    requires s.LawfulDh()
    ensures LinkedBoth(s, u, Run(s, u, events), Session.After(s, Session.Init(s, u.c), Trace(s, u, events)), events)
    decreases |events|
  {
    hide LinkedBoth, Next, Init, Session.Init, Shadow;
    if events == [] {
      InitLinked(s, u);
    } else {
      var before, e := events[..|events| - 1], events[|events| - 1];
      RunLinked(s, u, before);
      var sys := Session.After(s, Session.Init(s, u.c), Trace(s, u, before));
      ShadowLinks(s, u, Run(s, u, before), sys, before, e);
      Session.AfterJoins(s, Session.Init(s, u.c), Trace(s, u, before), Shadow(Run(s, u, before), e));
      assert before + [e] == events;
    }
  }

  // ----- From TUN to TUN -----

  /** The other end's greeting, taken for a packet. */
  ghost predicate FromTest(theirs: seq<Client.Effect>, they: string, b: Bytes) {
    exists x :: x in theirs && IsTest(they, x) && b == Hex.Decode(x.payload, true)
  }

  /**
   In every run of two clients, over networks that lose, repeat and reorder, what a client writes to its TUN
   device is byte for byte a packet the other client read from its own, or one the server handed down, or the
   bytes read out of a test message the other client sent through the relay.
   */
  lemma TunIdentity(s: Suite, u: Setup, events: seq<Event>, side: Session.Side, b: Bytes)
    requires s.Lawful() && Client.TunWrite(b) in Run(s, u, events).At(side).effects
    ensures || WasRead(events, Session.Other(side), b) || FromServer(events, side, b)
            || FromTest(Run(s, u, events).At(Session.Other(side)).effects, u.Id(Session.Other(side)), b)
  {
    hide Run, Trace, Session.After, Session.Init, FromServer, FromPeer, FromRelay, Client.ModeInv, IsRead, IsTest;
    RunLinked(s, u, events);
    var pair := Run(s, u, events);
    var sys := Session.After(s, Session.Init(s, u.c), Trace(s, u, events));
    var other := Session.Other(side);
    assert Linked(u.Options(s, side), pair.At(side), sys.At(side), HistoryOf(pair, events, side), side);
    assert Linked(u.Options(s, other), pair.At(other), sys.At(other), HistoryOf(pair, events, other), other);
    assert Explained(u.Id(side), sys.At(side), HistoryOf(pair, events, side), side, Client.TunWrite(b));
    if FromPeer(sys.At(side), b) {
      PeerPacketRead(s, u, events, side, b);
    } else if FromRelay(pair.At(other).effects, b) {
      var x := RelayPacket(pair.At(other).effects, b);
      assert Explained(u.Id(other), sys.At(other), HistoryOf(pair, events, other), other, x);
      TextRead(events, other, x.payload, b);
    }
  }

  lemma RelayPacket(theirs: seq<Client.Effect>, b: Bytes) returns (x: Client.Effect)
    requires FromRelay(theirs, b)
    ensures x in theirs && x.ToRelay? && b == Hex.Decode(x.payload, true)
  {
    x :| x in theirs && x.ToRelay? && b == Hex.Decode(x.payload, true);
  }

  lemma TextRead(events: seq<Event>, side: Session.Side, text: Bytes, b: Bytes)
    requires b == Hex.Decode(text, true)
    ensures IsRead(events, side, text) ==> WasRead(events, side, b)
  {
    hide WasRead;
    if packet: Bytes :| text == Hex.Encode(packet) && WasRead(events, side, packet) {
      Hex.RoundTrip(packet, true);
    }
  }

  lemma PeerPacketRead(s: Suite, u: Setup, events: seq<Event>, side: Session.Side, b: Bytes)
    requires s.Lawful() && FromPeer(Session.After(s, Session.Init(s, u.c), Trace(s, u, events)).At(side), b)
    ensures WasRead(events, Session.Other(side), b)
  {
    hide Run, Trace, Session.After, Session.Init, Client.ModeInv, IsRead, WasRead, Explained;
    RunLinked(s, u, events);
    var pair := Run(s, u, events);
    var sys := Session.After(s, Session.Init(s, u.c), Trace(s, u, events));
    var other := Session.Other(side);
    assert Linked(u.Options(s, other), pair.At(other), sys.At(other), HistoryOf(pair, events, other), other);
    var o :| o in sys.At(side).out && o.Delivered? && b == Hex.Decode(o.payload, true);
    Session.PacketIdentity(s, u.c, Trace(s, u, events), side, o);
    var p :| (o.number, p) in sys.At(other).accepted && (p == o.payload || p == []);
    TextRead(events, other, p, b);
  }

  // ----- The relay -----

  /** No packet's text begins as a greeting does. */
  lemma TestIsNoPacket(me: string, n: Int64, b: Bytes)
    ensures Client.TestText(me, n) != Hex.Encode(b)
  {
    var text := "hello-from-" + me + "-seq=" + Client.Signed(n);
    assert text[0] == 'h';
    assert Client.TestText(me, n)[0] == 104;
    assert b != [] ==> Hex.Encode(b)[0] == Hex.HexDigit(b[0] / 16);
  }

  /**
   In every run, what a client sends through the relay is the text of a packet it has read exactly unless it is a
   test message. Delivered to a client that writes relay packets to its TUN device, it is decoded and written: that
   packet itself, or whatever the test message decodes to.
   */
  lemma RelayedExactly(s: Suite, u: Setup, events: seq<Event>, side: Session.Side, x: Client.Effect)
    requires s.LawfulDh() && x in Run(s, u, events).At(side).effects && x.ToRelay?
    ensures IsRead(events, side, x.payload) <==> !IsTest(u.Id(side), x)
    ensures var pair := Run(s, u, events);
            var to := pair.At(Session.Other(side));
            to.client.relayCallback == Client.WritesTun && to.client.tunReady && x.to == u.Id(Session.Other(side)) ==>
              Next(s, u, pair, Relayed(Session.Other(side), x.payload)).At(Session.Other(side)).effects
              == to.effects + [Client.TunWrite(Hex.Decode(x.payload, true))]
    ensures forall b: Bytes :: x.payload == Hex.Encode(b) ==> Hex.Decode(x.payload, true) == b
  {
    hide Run, Trace, Session.After, Session.Init, Client.ModeInv, Next, IsRead, IsTest, Hex.Encode, Hex.Decode;
    RunLinked(s, u, events);
    var pair := Run(s, u, events);
    var sys := Session.After(s, Session.Init(s, u.c), Trace(s, u, events));
    var other := Session.Other(side);
    assert Linked(u.Options(s, side), pair.At(side), sys.At(side), HistoryOf(pair, events, side), side);
    assert Explained(u.Id(side), sys.At(side), HistoryOf(pair, events, side), side, x);
    ReadIsNoTest(u.Id(side), events, side, x);
    forall b: Bytes | x.payload == Hex.Encode(b)
      ensures Hex.Decode(x.payload, true) == b
    {
      Hex.RoundTrip(b, true);
    }
    Ends(s, u, events, other);
    if pair.At(other).client.relayCallback == Client.WritesTun && pair.At(other).client.tunReady
        && x.to == u.Id(other) {
      assert InRelay(pair.At(side), u.Id(other), x.payload);
      RelayWrites(s, u, pair, other, x.payload);
    }
  }

  lemma ReadIsNoTest(me: string, events: seq<Event>, side: Session.Side, x: Client.Effect)
    ensures x.ToRelay? && IsRead(events, side, x.payload) ==> !IsTest(me, x)
  {
    hide WasRead, Client.TestText, Hex.Encode;
    if x.ToRelay? && IsRead(events, side, x.payload) {
      var b: Bytes :| x.payload == Hex.Encode(b) && WasRead(events, side, b);
      TestIsNoPacket(me, x.number, b);
    }
  }

  /** A client of the round keeps the other end as its peer. */
  lemma PeerIs(s: Suite, u: Setup, events: seq<Event>, side: Session.Side)
    requires s.LawfulHandshake()
    ensures Run(s, u, events).At(side).client.peerId == u.Id(Session.Other(side))
  {
    hide Run, Trace, Session.After, Session.Init, Session.ExpectedA, Session.ExpectedB;
    Ends(s, u, events, side);
    Session.InitInv(s, u.c);
    var f := Session.RunInv(s, u.c, Session.Init(s, u.c), Session.Idle, Trace(s, u, events));
  }

  /**
   A packet a registered client reads from TUN in mode RELAY goes to the relay; and whenever it comes out there, if
   it does, at a client that writes relay packets to its TUN device, exactly that packet is written.
   */
  lemma RelayArrives(s: Suite, u: Setup, events: seq<Event>, later: seq<Event>, side: Session.Side, packet: Bytes,
      w: Outcome)
    requires s.LawfulHandshake() && u.Id(side) != ""
    requires var from := Run(s, u, events).At(Session.Other(side)).client; from.mode == Client.Relay && from.registered
    requires var to := Run(s, u, events + [Local(Session.Other(side), Client.TunRead(packet, w))] + later)
                 .At(side).client;
             to.relayCallback == Client.WritesTun && to.tunReady
    ensures var pair := Run(s, u, events + [Local(Session.Other(side), Client.TunRead(packet, w))] + later);
            && InRelay(pair.At(Session.Other(side)), u.Id(side), Hex.Encode(packet))
            && Next(s, u, pair, Relayed(side, Hex.Encode(packet))).At(side).effects
                == pair.At(side).effects + [Client.TunWrite(packet)]
  {
    hide Run, Trace, Next, Hex.Encode, Session.After, Session.Init, Client.ModeInv;
    var other := Session.Other(side);
    var e := Local(other, Client.TunRead(packet, w));
    var from := Run(s, u, events).At(other).client;
    PeerIs(s, u, events, other);
    RunAppend(s, u, events, e);
    RelaySends(s, u, Run(s, u, events), other, packet, w);
    TraceGrows(s, u, events + [e], later);
    var x := Client.ToRelay(u.Id(other), u.Id(side), Client.Increment(from.seqNo), Hex.Encode(packet));
    var (sent, now) := (Run(s, u, events + [e]).At(other).effects, Run(s, u, events + [e] + later).At(other).effects);
    assert sent[|sent| - 1] == x;
    assert now[|sent| - 1] == x;
    Ends(s, u, events + [e] + later, side);
    RelayWrites(s, u, Run(s, u, events + [e] + later), side, Hex.Encode(packet));
    Hex.RoundTrip(packet, true);
  }

  lemma RelaySends(s: Suite, u: Setup, pair: Pair, side: Session.Side, packet: Bytes, w: Outcome)
    requires var c := pair.At(side).client; c.mode == Client.Relay && c.registered && c.peerId != ""
    ensures var c := pair.At(side).client;
            Next(s, u, pair, Local(side, Client.TunRead(packet, w))).At(side).effects
            == pair.At(side).effects
               + [Client.ToRelay(u.Id(side), c.peerId, Client.Increment(c.seqNo), Hex.Encode(packet))]
  {
  }

  lemma RelayWrites(s: Suite, u: Setup, pair: Pair, side: Session.Side, payload: Bytes)
    requires InRelay(pair.At(Session.Other(side)), u.Id(side), payload)
    requires var c := pair.At(side).client;
             c.puncher.Some? && c.relayCallback == Client.WritesTun && c.tunReady
    ensures Next(s, u, pair, Relayed(side, payload)).At(side).effects
            == pair.At(side).effects + [Client.TunWrite(Hex.Decode(payload, true))]
  {
    hide InRelay;
  }

  /** Everything that happens in the run below: no packet is read, and none handed down. */
  function TestRun(u: Setup): (r: seq<Event>) {
    [Local(Session.Right, Client.TunOpened),
     Fire(Session.Left, Timeout), Local(Session.Left, Client.RelaySetup), Local(Session.Left, Client.RelayRegistered),
     Fire(Session.Right, Timeout), Local(Session.Right, Client.RelaySetup),
     Local(Session.Left, Client.RelayTest), Relayed(Session.Right, Client.TestText(u.c.idA, 1))]
  }

  /**
   A test message is written to TUN: both punches time out, the clients fall back to the relay, and the right one,
   its TUN device open, takes the greeting of the left one for a packet, though nobody has read any.
   */
  lemma TestMessageIsWritten(s: Suite, u: Setup)
    requires s.LawfulDh() && u.relay && u.c.idB != ""
    ensures Client.TunWrite(Hex.Decode(Client.TestText(u.c.idA, 1), true)) in Run(s, u, TestRun(u)).right.effects
    ensures forall side, b :: !WasRead(TestRun(u), side, b) && !FromServer(TestRun(u), side, b)
  {
    hide Run, Next, Init, Client.TestText;
    var es := TestRun(u);
    var p0 := Init(s, u);
    var p1 := Next(s, u, p0, es[0]);
    var p2 := Next(s, u, p1, es[1]);
    var p3 := Next(s, u, p2, es[2]);
    var p4 := Next(s, u, p3, es[3]);
    var p5 := Next(s, u, p4, es[4]);
    var p6 := Next(s, u, p5, es[5]);
    var p7 := Next(s, u, p6, es[6]);
    StartsPunching(s, u, Session.Left);
    StartsPunching(s, u, Session.Right);
    OpensTun(s, u, p0);
    FallsBack(s, u, p1, Session.Left);
    SetsUp(s, u, p2, Session.Left);
    Registers(s, u, p3);
    FallsBack(s, u, p4, Session.Right);
    SetsUp(s, u, p5, Session.Right);
    SendsTest(s, u, p6);
    RelayWrites(s, u, p7, Session.Right, Client.TestText(u.c.idA, 1));
    EightSteps(s, u, es);
  }

  /** A client whose punch is on, as a round starts it. */
  predicate Punches(c: Client.Client) {
    c.puncher.Some? && !c.puncher.value.success && Timeout in c.puncher.value.armed
  }

  lemma StartsPunching(s: Suite, u: Setup, side: Session.Side)
    requires s.LawfulDh()
    ensures var c := Init(s, u).At(side).client;
            && Punches(c) && c.relayPosts == 0 && c.seqNo == 0 && !c.tunReady && c.peerId == u.Id(Session.Other(side))
  {
    hide Launch;
    if side == Session.Left {
      LaunchSound(s, Initiator, DeriveKeypair(s, u.c.a), s.publicKey(u.c.b), u.c.targetsA, u.c.idA, u.c.idB);
    } else {
      LaunchSound(s, Responder, DeriveKeypair(s, u.c.b), s.publicKey(u.c.a), u.c.targetsB, u.c.idB, u.c.idA);
    }
  }

  lemma OpensTun(s: Suite, u: Setup, pair: Pair)
    ensures Next(s, u, pair, Local(Session.Right, Client.TunOpened))
            == pair.(right := pair.right.(client := pair.right.client.(tunReady := true)))
  {
  }

  lemma FallsBack(s: Suite, u: Setup, pair: Pair, side: Session.Side)
    requires Punches(pair.At(side).client) && u.relay
    ensures var next := Next(s, u, pair, Fire(side, Timeout));
            var c := pair.At(side).client;
            && next.At(Session.Other(side)) == pair.At(Session.Other(side))
            && next.At(side).client == c.(mode := Client.Relay, punchDone := true, relayPosts := c.relayPosts + 1,
                                          puncher := next.At(side).client.puncher)
            && next.At(side).client.puncher.Some?
  {
    var c := pair.At(side).client;
    var (p, out) := OnTimeout(c.puncher.value);
    assert out == [PunchDone(false, c.puncher.value.targetId)] && out[1..] == [];
    assert Client.Hear(u.Options(s, side), Client.OnPunchResult(u.Options(s, side), c.(puncher := Some(p)), false), [])
           == (Client.OnPunchResult(u.Options(s, side), c.(puncher := Some(p)), false), []);
  }

  lemma SetsUp(s: Suite, u: Setup, pair: Pair, side: Session.Side)
    requires var c := pair.At(side).client; c.puncher.Some? && c.relayPosts == 1
    ensures var next := Next(s, u, pair, Local(side, Client.RelaySetup));
            var c := pair.At(side).client;
            && next.At(Session.Other(side)) == pair.At(Session.Other(side))
            && next.At(side).client
                == c.(relayPosts := 0, testing := true,
                      relayCallback := if c.tunReady then Client.WritesTun else Client.LogsOnly)
  {
  }

  lemma Registers(s: Suite, u: Setup, pair: Pair)
    requires Client.HasCallbacks(pair.left.client)
    ensures Next(s, u, pair, Local(Session.Left, Client.RelayRegistered))
            == pair.(left := pair.left.(client := pair.left.client.(registered := true)))
  {
  }

  lemma SendsTest(s: Suite, u: Setup, pair: Pair)
    requires pair.left.client.testing && pair.left.client.registered && pair.left.client.seqNo == 0
    requires pair.left.client.peerId == u.c.idB && u.c.idB != ""
    ensures var next := Next(s, u, pair, Local(Session.Left, Client.RelayTest));
            && next.right == pair.right && InRelay(next.left, u.c.idB, Client.TestText(u.c.idA, 1))
  {
    hide Client.TestText;
    var next := Next(s, u, pair, Local(Session.Left, Client.RelayTest));
    assert next.left.effects[|pair.left.effects|]
           == Client.ToRelay(u.c.idA, u.c.idB, 1, Client.TestText(u.c.idA, 1));
  }

  lemma EightSteps(s: Suite, u: Setup, es: seq<Event>)
    requires |es| == 8
    ensures Run(s, u, es)
            == var p4 := Next(s, u, Next(s, u, Next(s, u, Next(s, u, Init(s, u), es[0]), es[1]), es[2]), es[3]);
               Next(s, u, Next(s, u, Next(s, u, Next(s, u, p4, es[4]), es[5]), es[6]), es[7])
  {
    hide Next, Init;
    FourSteps(s, u, es[..4]);
    assert es[..8][..7] == es[..7] && es[..7][..6] == es[..6] && es[..6][..5] == es[..5] && es[..5][..4] == es[..4];
    assert es[..8] == es;
    assert Run(s, u, es[..5]) == Next(s, u, Run(s, u, es[..4]), es[4]);
    assert Run(s, u, es[..6]) == Next(s, u, Run(s, u, es[..5]), es[5]);
    assert Run(s, u, es[..7]) == Next(s, u, Run(s, u, es[..6]), es[6]);
  }

  lemma FourSteps(s: Suite, u: Setup, es: seq<Event>)
    requires |es| == 4
    ensures Run(s, u, es)
            == Next(s, u, Next(s, u, Next(s, u, Next(s, u, Init(s, u), es[0]), es[1]), es[2]), es[3])
  {
    hide Next, Init;
    assert es[..4] == es && es[..4][..3] == es[..3] && es[..3][..2] == es[..2] && es[..2][..1] == es[..1];
    assert es[..1][..0] == [];
    assert Run(s, u, es[..1]) == Next(s, u, Run(s, u, []), es[0]);
    assert Run(s, u, es[..2]) == Next(s, u, Run(s, u, es[..1]), es[1]);
    assert Run(s, u, es[..3]) == Next(s, u, Run(s, u, es[..2]), es[2]);
  }

  lemma {:induction false} TraceGrows(s: Suite, u: Setup, events: seq<Event>, later: seq<Event>)
    ensures Trace(s, u, events) <= Trace(s, u, events + later)
    ensures forall side :: Run(s, u, events).At(side).effects <= Run(s, u, events + later).At(side).effects
    decreases |later|
  {
    hide Shadow, Init, Next;
    if later == [] {
      assert events + later == events;
    } else {
      var before := later[..|later| - 1];
      TraceGrows(s, u, events, before);
      var all := events + later;
      assert all[..|all| - 1] == events + before;
      NextGrows(s, u, Run(s, u, events + before), all[|all| - 1]);
    }
  }

  lemma NextGrows(s: Suite, u: Setup, pair: Pair, e: Event)
    ensures forall side :: pair.At(side).effects <= Next(s, u, pair, e).At(side).effects
  {
    hide InFlight, InRelay, InRound, Client.Next;
  }

  /**
   A packet a client reads from TUN in mode P2P, if sealing and sending work, is one datagram in flight; and
   whenever that datagram reaches the other client in mode P2P with its TUN device open, whatever else has
   happened in between, exactly that packet is written there.
   */
  lemma TunArrives(s: Suite, u: Setup, events: seq<Event>, later: seq<Event>, side: Session.Side, packet: Bytes,
                   sender: Endpoint, d: Bytes)
    requires s.Lawful() && u.c.idA != u.c.idB && packet != []
    requires var from := Run(s, u, events).At(Session.Other(side)).client;
             from.mode == Client.P2P && from.peerId != "" && 0 <= from.seqNo < Client.MAX_INT64
    requires var to := Run(s, u, events + [Local(Session.Other(side), Client.TunRead(packet, Works))]
            + later).At(side).client;
             to.mode == Client.P2P && to.tunReady
    ensures var from := Run(s, u, events).At(Session.Other(side)).client;
            var read := events + [Local(Session.Other(side), Client.TunRead(packet, Works))];
            var pair := Run(s, u, read + later);
            && from.puncher.Some? && from.puncher.value.noise.Some?
            && var m := Session.Sealed(s, from.puncher.value, from.seqNo + 1, Hex.Encode(packet));
            && InFlight(Run(s, u, read).At(Session.Other(side)), m)
            && Next(s, u, pair, Deliver(side, sender, m, d)).At(side).effects
                == pair.At(side).effects + [Client.TunWrite(packet)]
  {
    hide Run, Next, Trace, Step, Hex.Encode, Session.Sealed, InFlight, Session.After, Session.Init, Client.ModeInv;
    var other := Session.Other(side);
    var e := Local(other, Client.TunRead(packet, Works));
    var read := events + [e];
    var pair := Run(s, u, read + later);
    Ends(s, u, events, other);
    Ends(s, u, read + later, side);
    PeerIsReady(u.Options(s, other), Run(s, u, events).At(other).client);
    var from := Run(s, u, events).At(other).client;
    var m := Session.Sealed(s, from.puncher.value, from.seqNo + 1, Hex.Encode(packet));
    DirectInFlight(s, u, events, later, other, packet);
    assert events + ([e] + later) == read + later;
    PeerIsReady(u.Options(s, side), pair.At(side).client);
    SealedArrives(s, u, events, [e] + later, side, packet, from.seqNo + 1, sender, d);
    var i := Receives(sender, m, Some(d));
    DeliveryWrites(s, u, pair, side, i, from.puncher.value.myId, packet, from.seqNo + 1);
  }

  lemma PeerIsReady(o: Client.Options, c: Client.Client)
    requires Client.ModeInv(o, c) && c.mode == Client.P2P
    ensures c.puncher.Some? && c.puncher.value.noise.Some? && c.puncher.value.noiseReady
  {
  }

  lemma DirectInFlight(s: Suite, u: Setup, events: seq<Event>, later: seq<Event>, side: Session.Side, packet: Bytes)
    requires s.LawfulDh() && packet != []
    requires var from := Run(s, u, events).At(side).client;
             from.mode == Client.P2P && from.peerId != "" && 0 <= from.seqNo < Client.MAX_INT64
    ensures var from := Run(s, u, events).At(side).client;
            var read := events + [Local(side, Client.TunRead(packet, Works))];
            && from.puncher.Some? && from.puncher.value.noise.Some?
            && var m := Session.Sealed(s, from.puncher.value, from.seqNo + 1, Hex.Encode(packet));
            InFlight(Run(s, u, read).At(side), m) && InFlight(Run(s, u, read + later).At(side), m)
  {
    hide Run, Next, Trace, SendPacket, Hex.Encode, Session.Sealed, Session.After, Session.Init, Client.ModeInv,
        Client.OnTunRead, InFlight;
    var e := Local(side, Client.TunRead(packet, Works));
    Ends(s, u, events, side);
    var from := Run(s, u, events).At(side).client;
    PeerIsReady(u.Options(s, side), from);
    Client.P2PFallsBackExactly(s, u.Options(s, side), from, packet, Works);
    RunAppend(s, u, events, e);
    ReadEffects(s, u, Run(s, u, events), side, packet);
    var p := from.puncher.value;
    var sent := Client.ToNet(p.peer.value, Session.Sealed(s, p, from.seqNo + 1, Hex.Encode(packet)));
    var effects := Client.OnTunRead(s, u.Options(s, side), from, packet, Works).1;
    assert effects[1] == sent;
    TraceGrows(s, u, events + [e], later);
    InFlightStays(Run(s, u, events + [e]).At(side), Run(s, u, events + [e] + later).At(side), sent);
  }

  lemma ReadEffects(s: Suite, u: Setup, pair: Pair, side: Session.Side, packet: Bytes)
    ensures Next(s, u, pair, Local(side, Client.TunRead(packet, Works))).At(side).effects
            == pair.At(side).effects + Client.OnTunRead(s, u.Options(s, side), pair.At(side).client, packet, Works).1
  {
    hide Client.OnTunRead;
  }

  lemma InFlightStays(end: End, later: End, e: Client.Effect)
    requires e in end.effects && e.ToNet? && end.effects <= later.effects
    ensures InFlight(end, e.msg) && InFlight(later, e.msg)
  {
    var k :| 0 <= k < |end.effects| && end.effects[k] == e;
    assert later.effects[k] == e;
  }

  /** At the puncher: sealed in one state of a run, opened in any later one. */
  lemma SealedArrives(s: Suite, u: Setup, events: seq<Event>, later: seq<Event>, side: Session.Side, packet: Bytes,
      n: Int64,
                      sender: Endpoint, d: Bytes)
    requires s.Lawful() && u.c.idA != u.c.idB && packet != [] && n >= 0
    requires var from := Run(s, u, events).At(Session.Other(side)).client.puncher;
             from.Some? && from.value.noise.Some? && from.value.noiseReady
    requires var to := Run(s, u, events + later).At(side).client.puncher; to.Some? && to.value.noiseReady
    ensures var from, to := Run(s, u, events).At(Session.Other(side)).client.puncher.value,
            Run(s, u, events + later).At(side).client.puncher.value;
            Step(s, to, Receives(sender, Session.Sealed(s, from, n, Hex.Encode(packet)), Some(d))).1
            == [Delivered(from.myId, Hex.Encode(packet), n)]
  {
    hide Run, Trace, Step, Session.After, Session.Init, Hex.Encode, Session.Sealed, Client.ModeInv;
    Ends(s, u, events, Session.Other(side));
    Ends(s, u, events + later, side);
    TraceGrows(s, u, events, later);
    var t0, t1 := Trace(s, u, events), Trace(s, u, events + later);
    var more := t1[|t0|..];
    assert t0 + more == t1;
    Session.AfterJoins(s, Session.Init(s, u.c), t0, more);
    assert |Hex.Encode(packet)| == 2 * |packet|;
    Session.PacketArrives(s, u.c, t0, more, side, n, Hex.Encode(packet), sender, Some(d));
  }

  lemma DeliveryWrites(s: Suite, u: Setup, pair: Pair, side: Session.Side, i: Input, src: string, packet: Bytes,
      n: Int64)
    requires i.Receives? && i.draw.Some? && InFlight(pair.At(Session.Other(side)), i.msg)
    requires var c := pair.At(side).client;
             && Client.ModeInv(u.Options(s, side), c) && c.puncher.Some? && c.tunReady
             && Step(s, c.puncher.value, i).1 == [Delivered(src, Hex.Encode(packet), n)]
    ensures Next(s, u, pair, Deliver(side, i.sender, i.msg, i.draw.value)).At(side).effects
            == pair.At(side).effects + [Client.TunWrite(packet)]
  {
    hide Step, Hex.Encode, InFlight, Client.Hear, Client.ModeInv, Client.OnInput;
    var c := pair.At(side).client;
    InputHears(s, u.Options(s, side), c, i);
    Client.HearDelivery(u.Options(s, side), c.(puncher := Some(Step(s, c.puncher.value, i).0)), src,
        Hex.Encode(packet), n);
    Hex.RoundTrip(packet, true);
  }

  lemma RunAppend(s: Suite, u: Setup, events: seq<Event>, e: Event)
    ensures Run(s, u, events + [e]) == Next(s, u, Run(s, u, events), e)
  {
    hide Next, Init;
    assert (events + [e])[..|events + [e]| - 1] == events;
  }

  /** The client at one end of a run, and the puncher of the session behind it. */
  lemma Ends(s: Suite, u: Setup, events: seq<Event>, side: Session.Side)
    requires s.LawfulDh()
    ensures var client := Run(s, u, events).At(side).client;
            && Client.ModeInv(u.Options(s, side), client)
            && client.puncher == Some(Session.After(s, Session.Init(s, u.c), Trace(s, u, events)).At(side).p)
  {
    hide Run, Trace, Session.After, Session.Init, Client.ModeInv;
    RunLinked(s, u, events);
    assert Linked(u.Options(s, side), Run(s, u, events).At(side),
                  Session.After(s, Session.Init(s, u.c), Trace(s, u, events)).At(side),
                  HistoryOf(Run(s, u, events), events, side), side);
  }
}
