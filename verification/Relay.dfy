/**
 The UDP relay and its registry (src/relay/RelayServer.cpp, src/relay/RelayRegistry.cpp).

 The registry is a map that forgets. What a run makes of it is said below by the history of datagrams and
 sweeps alone: who is present, at which endpoint, in which network, and where a packet goes.
 */
module Relay {
  import opened Basics
  import Puncher

  type Endpoint = Puncher.Endpoint

  const NODE_TIMEOUT: int := 30

  datatype Entry = Entry(endpoint: Endpoint, network: string, lastSeen: int)

  type Entries = map<string, Entry>

  /** A datagram as parsed; `Malformed` is whatever the parser or a field access rejects. */
  datatype Message =
    | Register(node: string, network: string, token: string)
    | Packet(from: string, to: string, payload: string, seqNo: Int64, extra: string)
    | Heartbeat(node: string)
    | UnknownType
    | Malformed

  datatype Reply = RegisterOk(node: string) | Error(text: string) | Forwarded(packet: Message)

  datatype Sent = Sent(dest: Endpoint, what: Reply)

  predicate Expired(e: Entry, now: int, timeout: int) {
    WholeSeconds(now - e.lastSeen) >= timeout
  }

  // ----- The registry's operations -----

  function Put(nodes: Entries, id: string, network: string, endpoint: Endpoint, now: int): (r: Entries) {
    if id in nodes then nodes[id := nodes[id].(endpoint := endpoint, lastSeen := now)]
    else nodes[id := Entry(endpoint, network, now)]
  }

  function Touch(nodes: Entries, id: string, now: int): (r: Entries) {
    if id in nodes then nodes[id := nodes[id].(lastSeen := now)] else nodes
  }

  function Cleaned(nodes: Entries, now: int, timeout: int): (r: Entries) {
    map id | id in nodes && !Expired(nodes[id], now, timeout) :: nodes[id]
  }

  lemma ExpiredAt(e: Entry, now: int, timeout: int)
    ensures Expired(e, now, timeout) <==> WholeSeconds(now - e.lastSeen) >= timeout
  {
  }

  /**
   Midway through the erasing iteration: what is gone has expired, and what is not is still to be visited or has not.
   */
  ghost predicate Sweeping(was: Entries, nodes: Entries, gone: set<string>, rest: set<string>, now: int, timeout: int) {
    && nodes == was - gone && gone <= was.Keys && rest <= was.Keys && gone !! rest
    && forall id :: id in was && id !in rest ==> (id in gone <==> Expired(was[id], now, timeout))
  }

  lemma SweepStep(was: Entries, nodes: Entries, gone: set<string>, rest: set<string>, now: int, timeout: int,
      id: string)
    requires Sweeping(was, nodes, gone, rest, now, timeout) && id in rest
    ensures id in nodes && id !in gone && |gone + {id}| == |gone| + 1
    ensures if WholeSeconds(now - nodes[id].lastSeen) >= timeout
            then Sweeping(was, nodes - {id}, gone + {id}, rest - {id}, now, timeout)
            else Sweeping(was, nodes, gone, rest - {id}, now, timeout)
  {
    hide WholeSeconds, Expired;
    ExpiredAt(nodes[id], now, timeout);
    assert nodes - {id} == was - (gone + {id});
  }

  lemma CleanedIs(was: Entries, nodes: Entries, gone: set<string>, now: int, timeout: int)
    requires Sweeping(was, nodes, gone, {}, now, timeout)
    ensures nodes == Cleaned(was, now, timeout) && |nodes| == |was| - |gone|
  {
    hide Sweeping;
    SweptIs(was, nodes, gone, now, timeout);
    SweptSize(was, nodes, gone, now, timeout);
  }

  lemma SweptIs(was: Entries, nodes: Entries, gone: set<string>, now: int, timeout: int)
    requires Sweeping(was, nodes, gone, {}, now, timeout)
    ensures nodes == Cleaned(was, now, timeout)
  {
    hide Expired;
  }

  lemma SweptSize(was: Entries, nodes: Entries, gone: set<string>, now: int, timeout: int)
    requires Sweeping(was, nodes, gone, {}, now, timeout)
    ensures |nodes| == |was| - |gone|
  {
    hide Expired;
    var keys := was.Keys;
    assert nodes.Keys == keys - gone;
    assert keys == (keys - gone) + gone;
  }

  lemma SweepStart(was: Entries, now: int, timeout: int)
    ensures Sweeping(was, was, {}, was.Keys, now, timeout)
  {
    assert was - {} == was;
  }

  class RelayRegistry {
    var nodes: Entries

    constructor ()
      ensures nodes == map[]
    {
      nodes := map[];
    }

    method RegisterNode(id: string, network: string, endpoint: Endpoint, now: int) returns (added: bool)
      modifies this
      ensures nodes == Put(old(nodes), id, network, endpoint, now) && added == (id !in old(nodes))
    {
      if id in nodes {
        nodes := nodes[id := nodes[id].(endpoint := endpoint)];
        nodes := nodes[id := nodes[id].(lastSeen := now)];
        return false;
      }
      nodes := nodes[id := Entry(endpoint, network, now)];
      return true;
    }

    method RemoveNode(id: string)
      modifies this
      ensures nodes == old(nodes) - {id}
    {
      if id in nodes {
        nodes := nodes - {id};
      }
    }

    method FindEndpoint(id: string) returns (r: Option<Endpoint>)
      ensures r == if id in nodes then Some(nodes[id].endpoint) else None
    {
      if id !in nodes {
        return None;
      }
      return Some(nodes[id].endpoint);
    }

    method FindNetworkId(id: string) returns (r: Option<string>)
      ensures r == if id in nodes then Some(nodes[id].network) else None
    {
      if id !in nodes {
        return None;
      }
      return Some(nodes[id].network);
    }

    predicate IsOnline(id: string)
      reads this
    {
      id in nodes
    }

    method UpdateHeartbeat(id: string, now: int)
      modifies this
      ensures nodes == Touch(old(nodes), id, now)
    {
      if id in nodes {
        nodes := nodes[id := nodes[id].(lastSeen := now)];
      }
    }

    /** Erases while it iterates, in the order the map yields its entries. */
    method CleanupExpired(now: int, timeout: int) returns (removed: nat)
      modifies this
      ensures nodes == Cleaned(old(nodes), now, timeout)
      ensures removed == |old(nodes)| - |nodes|
    {
      hide WholeSeconds, Expired, Cleaned, Sweeping;
      removed := 0;
      var rest := nodes.Keys;
      ghost var was := nodes;
      ghost var gone: set<string> := {};
      SweepStart(was, now, timeout);
      while rest != {}
        invariant Sweeping(was, nodes, gone, rest, now, timeout) && removed == |gone|
      {
        var id :| id in rest;
        SweepStep(was, nodes, gone, rest, now, timeout, id);
        rest := rest - {id};
        if WholeSeconds(now - nodes[id].lastSeen) >= timeout {
          nodes := nodes - {id};
          gone := gone + {id};
          removed := removed + 1;
        }
      }
      CleanedIs(was, nodes, gone, now, timeout);
    }
  }

  // ----- The server's handlers -----

  function OnRegister(nodes: Entries, m: Message, sender: Endpoint, now: int): (r: (Entries, seq<Sent>))
    requires m.Register?
  {
    if m.node == "" || m.network == "" then (nodes, [Sent(sender, Error("missing_fields"))])
    else if m.token == "" then (nodes, [Sent(sender, Error("missing_token"))])
    else (Put(nodes, m.node, m.network, sender, now), [Sent(sender, RegisterOk(m.node))])
  }

  function OnRelayPacket(nodes: Entries, m: Message): (r: seq<Sent>)
    requires m.Packet?
  {
    if m.from == "" || m.to == "" || m.from !in nodes then []
    else if m.to !in nodes then [Sent(nodes[m.from].endpoint, Error("target_offline"))]
    else if nodes[m.from].network != nodes[m.to].network then [Sent(nodes[m.from].endpoint, Error("network_mismatch"))]
    else [Sent(nodes[m.to].endpoint, Forwarded(m))]
  }

  function OnHeartbeat(nodes: Entries, m: Message, sender: Endpoint, now: int): (r: (Entries, seq<Sent>))
    requires m.Heartbeat?
  {
    if m.node == "" then (nodes, [])
    else if m.node !in nodes then (nodes, [Sent(sender, Error("not_registered"))])
    else (Touch(nodes, m.node, now), [])
  }

  function OnDatagram(nodes: Entries, m: Message, sender: Endpoint, now: int): (r: (Entries, seq<Sent>)) {
    match m
    case Register(_, _, _) => OnRegister(nodes, m, sender, now)
    case Packet(_, _, _, _, _) => (nodes, OnRelayPacket(nodes, m))
    case Heartbeat(_) => OnHeartbeat(nodes, m, sender, now)
    case UnknownType => (nodes, [Sent(sender, Error("unknown_type"))])
    case Malformed => (nodes, [Sent(sender, Error("invalid_message"))])
  }

  class RelayServer {
    const registry: RelayRegistry

    constructor (registry: RelayRegistry)
      ensures this.registry == registry
    {
      this.registry := registry;
    }

    method HandleRegister(m: Message, sender: Endpoint, now: int) returns (out: seq<Sent>)
      requires m.Register?
      modifies registry
      ensures (registry.nodes, out) == OnRegister(old(registry.nodes), m, sender, now)
    {
      if m.node == "" || m.network == "" {
        return [Sent(sender, Error("missing_fields"))];
      }
      if m.token == "" {
        return [Sent(sender, Error("missing_token"))];
      }
      var _ := registry.RegisterNode(m.node, m.network, sender, now);
      return [Sent(sender, RegisterOk(m.node))];
    }

    method HandleRelayPacket(m: Message) returns (out: seq<Sent>)
      requires m.Packet?
      ensures out == OnRelayPacket(registry.nodes, m)
    {
      out := [];
      if m.from == "" || m.to == "" {
        return;
      }
      if !registry.IsOnline(m.from) {
        return;
      }
      var sender := registry.FindEndpoint(m.from);
      var target := registry.FindEndpoint(m.to);
      if target.None? {
        return [Sent(sender.value, Error("target_offline"))];
      }
      var fromNet := registry.FindNetworkId(m.from);
      var toNet := registry.FindNetworkId(m.to);
      if fromNet != toNet {
        return [Sent(sender.value, Error("network_mismatch"))];
      }
      return [Sent(target.value, Forwarded(m))];
    }

    method HandleHeartbeat(m: Message, sender: Endpoint, now: int) returns (out: seq<Sent>)
      requires m.Heartbeat?
      modifies registry
      ensures (registry.nodes, out) == OnHeartbeat(old(registry.nodes), m, sender, now)
    {
      out := [];
      if m.node == "" {
        return;
      }
      if !registry.IsOnline(m.node) {
        return [Sent(sender, Error("not_registered"))];
      }
      registry.UpdateHeartbeat(m.node, now);
    }

    method HandleReceive(m: Message, sender: Endpoint, now: int) returns (out: seq<Sent>)
      modifies registry
      ensures (registry.nodes, out) == OnDatagram(old(registry.nodes), m, sender, now)
    {
      match m
      case Register(_, _, _) => out := HandleRegister(m, sender, now);
      case Packet(_, _, _, _, _) => out := HandleRelayPacket(m);
      case Heartbeat(_) => out := HandleHeartbeat(m, sender, now);
      case UnknownType => out := [Sent(sender, Error("unknown_type"))];
      case Malformed => out := [Sent(sender, Error("invalid_message"))];
    }

    method DoCleanup(now: int) returns (removed: nat)
      modifies registry
      ensures registry.nodes == Cleaned(old(registry.nodes), now, NODE_TIMEOUT)
      ensures removed == |old(registry.nodes)| - |registry.nodes|
    {
      removed := registry.CleanupExpired(now, NODE_TIMEOUT);
    }
  }

  // ----- Histories -----

  datatype Event = Datagram(sender: Endpoint, m: Message, at: int) | Cleanup(at: int)

  type History = seq<Event>

  function After(nodes: Entries, e: Event): (r: Entries) {
    match e
    case Datagram(sender, m, at) => OnDatagram(nodes, m, sender, at).0
    case Cleanup(at) => Cleaned(nodes, at, NODE_TIMEOUT)
  }

  function Run(h: History): (r: Entries)
    decreases |h|
  {
    if h == [] then map[] else After(Run(h[..|h| - 1]), h[|h| - 1])
  }

  /** The clock is monotonic. */
  predicate Timed(h: History) {
    forall i, j :: 0 <= i < j < |h| ==> h[i].at <= h[j].at
  }

  predicate Accepted(e: Event, n: string) {
    e.Datagram? && e.m.Register? && e.m.node == n && n != "" && e.m.network != "" && e.m.token != ""
  }

  /** Events that renew a registered node: accepted registers and heartbeats. */
  predicate Renews(e: Event, n: string) {
    Accepted(e, n) || (e.Datagram? && e.m.Heartbeat? && e.m.node == n && n != "")
  }

  /** The last renewal before `end` is at `t`. */
  predicate LastRenewal(h: History, n: string, t: nat, end: nat)
    requires end <= |h|
  {
    t < end && Renews(h[t], n) && forall k :: t < k < end ==> !Renews(h[k], n)
  }

  /** Between `from` and `s` the node was renewed less than 30 s before the sweep at `s`. */
  predicate Fresh(h: History, n: string, from: nat, s: nat)
    requires s < |h|
  {
    exists j: nat :: from <= j < s && Renews(h[j], n) && h[s].at - h[j].at < NODE_TIMEOUT * SECOND
  }

  /** Registered at `from`, and fresh at every sweep since. */
  predicate AliveSince(h: History, n: string, from: nat) {
    from < |h| && Accepted(h[from], n) && forall s :: from < s < |h| && h[s].Cleanup? ==> Fresh(h, n, from, s)
  }

  ghost predicate Alive(h: History, n: string) {
    exists from: nat :: AliveSince(h, n, from)
  }

  /** Registered at `first` after having been absent, and alive ever since. */
  ghost predicate Joined(h: History, n: string, first: nat) {
    AliveSince(h, n, first) && !Alive(h[..first], n)
  }

  /** The latest accepted register. */
  predicate Latest(h: History, n: string, l: nat) {
    l < |h| && Accepted(h[l], n) && forall k :: l < k < |h| ==> !Accepted(h[k], n)
  }

  /**
   What an entry says about the history: the first register since the node was last absent, the latest one, and the
   last renewal.
   */
  ghost predicate Tells(h: History, n: string, e: Entry, first: nat, latest: nat, last: nat) {
    && first <= latest <= last < |h|
    && Accepted(h[first], n) && e.network == h[first].m.network
    && n !in Run(h[..first]) && (forall k :: first < k <= |h| ==> n in Run(h[..k]))
    && Latest(h, n, latest) && e.endpoint == h[latest].sender
    && LastRenewal(h, n, last, |h|) && e.lastSeen == h[last].at
  }

  lemma ExpiredIs(e: Entry, now: int)
    ensures Expired(e, now, NODE_TIMEOUT) <==> now - e.lastSeen >= NODE_TIMEOUT * SECOND
  {
  }

  /** One event seen from one node's entry. */
  lemma AfterIs(nodes: Entries, e: Event, n: string)
    ensures var after := After(nodes, e);
            && (Accepted(e, n) ==>
                n in after && after[n] == Entry(e.sender, if n in nodes then nodes[n].network else e.m.network, e.at))
            && (!Accepted(e, n) && Renews(e, n) ==>
                if n in nodes then n in after && after[n] == nodes[n].(lastSeen := e.at) else n !in after)
            && (e.Cleanup? ==>
                (n in after <==> n in nodes && e.at - nodes[n].lastSeen < NODE_TIMEOUT * SECOND)
                    && (n in after ==> after[n] == nodes[n]))
            && (!e.Cleanup? && !Renews(e, n) ==> if n in nodes then n in after && after[n] == nodes[n] else n !in after)
  {
    hide Expired;
    if e.Cleanup? && n in nodes {
      ExpiredIs(nodes[n], e.at);
    }
  }

  lemma {:induction false} RunTells(h: History, n: string) returns (first: nat, latest: nat, last: nat)
    requires n in Run(h)
    ensures Tells(h, n, Run(h)[n], first, latest, last)
    decreases |h|
  {
    hide After, Accepted, Renews;
    var k := |h| - 1;
    var before := h[..k];
    AfterIs(Run(before), h[k], n);
    RenewsIs(h[k], n);
    assert h[..|h|] == h;
    if n in Run(before) {
      first, latest, last := RunTells(before, n);
      if Accepted(h[k], n) {
        latest := k;
      }
      if Renews(h[k], n) {
        last := k;
      }
      forall i | 0 <= i <= k
        ensures h[..i] == before[..i]
      {
      }
    } else {
      first, latest, last := k, k, k;
    }
  }

  lemma RenewsIs(e: Event, n: string)
    ensures (Accepted(e, n) ==> Renews(e, n)) && (Renews(e, n) ==> e.Datagram?)
  {
  }

  lemma RunStep(h: History, k: nat)
    requires k < |h|
    ensures Run(h[..k + 1]) == After(Run(h[..k]), h[k])
  {
    assert h[..k + 1][..k] == h[..k];
  }

  lemma PresentIsAlive(h: History, n: string, first: nat, latest: nat, last: nat)
    requires n in Run(h) && Tells(h, n, Run(h)[n], first, latest, last)
    ensures AliveSince(h, n, first)
  {
    hide After, Accepted, Renews, Run;
    forall s | first < s < |h| && h[s].Cleanup?
      ensures Fresh(h, n, first, s)
    {
      RunStep(h, s);
      AfterIs(Run(h[..s]), h[s], n);
      assert n in Run(h[..s]) && n in Run(h[..s + 1]);
      var _, _, j := RunTells(h[..s], n);
      RenewsIs(h[first], n);
      assert h[..s][first] == h[first];
      assert first <= j;
      assert Renews(h[j], n) && h[s].at - h[j].at < NODE_TIMEOUT * SECOND;
    }
  }

  lemma {:induction false} AliveIsPresent(h: History, n: string, from: nat, k: nat)
    requires Timed(h) && AliveSince(h, n, from) && from < k <= |h|
    ensures n in Run(h[..k])
    decreases k
  {
    hide After, Accepted, Renews, Run;
    RunStep(h, k - 1);
    AfterIs(Run(h[..k - 1]), h[k - 1], n);
    RenewsIs(h[k - 1], n);
    if from < k - 1 {
      AliveIsPresent(h, n, from, k - 1);
      if h[k - 1].Cleanup? {
        var j: nat :| from <= j < k - 1 && Renews(h[j], n) && h[k - 1].at - h[j].at < NODE_TIMEOUT * SECOND;
        var _, _, last := RunTells(h[..k - 1], n);
        assert h[..k - 1][j] == h[j];
        assert j <= last;
      }
    }
  }

  /**
   The registry holds exactly the nodes that registered and, at every sweep since, had been renewed less than
   30 s before: a node renewed in time is never dropped, and no other is kept.
   */
  lemma PresentExactly(h: History, n: string)
    requires Timed(h)
    ensures n in Run(h) <==> Alive(h, n)
  {
    hide Tells, AliveSince, Run;
    if n in Run(h) {
      var first, latest, last := RunTells(h, n);
      PresentIsAlive(h, n, first, latest, last);
    }
    if from: nat :| AliveSince(h, n, from) {
      assert from < |h| by { AliveBound(h, n, from); }
      AliveIsPresent(h, n, from, |h|);
      assert h[..|h|] == h;
    }
  }

  lemma AliveBound(h: History, n: string, from: nat)
    requires AliveSince(h, n, from)
    ensures from < |h|
  {
  }

  /** A node silent for 30 s is absent after the next sweep, until it registers again. */
  lemma SilentIsGone(h: History, n: string, s: nat)
    requires Timed(h) && s < |h| && h[s].Cleanup?
    requires forall j :: 0 <= j < s && Renews(h[j], n) ==> h[s].at - h[j].at >= NODE_TIMEOUT * SECOND
    requires forall k :: s < k < |h| ==> !Accepted(h[k], n)
    ensures n !in Run(h)
  {
    hide Run, AliveSince;
    PresentExactly(h, n);
    forall from: nat
      ensures !AliveSince(h, n, from)
    {
      SilentSince(h, n, from, s);
    }
  }

  lemma SilentSince(h: History, n: string, from: nat, s: nat)
    requires s < |h| && h[s].Cleanup?
    requires forall j :: 0 <= j < s && Renews(h[j], n) ==> h[s].at - h[j].at >= NODE_TIMEOUT * SECOND
    requires forall k :: s < k < |h| ==> !Accepted(h[k], n)
    ensures !AliveSince(h, n, from)
  {
    hide Renews;
    assert !Fresh(h, n, from, s);
  }

  /**
   Every node present joined once, and its entry carries the network it joined with and the sender of its latest
   register.
   */
  lemma EntryTells(h: History, n: string)
    requires Timed(h) && Alive(h, n)
    ensures n in Run(h) && exists first: nat, latest: nat :: Entered(h, n, Run(h)[n], first, latest)
  {
    hide Run, Accepted, Renews, AliveSince, Alive;
    PresentExactly(h, n);
    var first, latest, last := RunTells(h, n);
    PresentIsAlive(h, n, first, latest, last);
    PresentExactly(h[..first], n);
    assert Entered(h, n, Run(h)[n], first, latest);
  }

  ghost predicate Entered(h: History, n: string, e: Entry, first: nat, latest: nat) {
    Joined(h, n, first) && e.network == h[first].m.network && Latest(h, n, latest) && e.endpoint == h[latest].sender
  }

  lemma JoinedOnce(h: History, n: string, f: nat, g: nat)
    requires Timed(h) && Joined(h, n, f) && Joined(h, n, g)
    ensures f == g
  {
    hide Run, Accepted, AliveSince, Alive;
    AliveBound(h, n, f);
    AliveBound(h, n, g);
    PresentExactly(h[..f], n);
    PresentExactly(h[..g], n);
    if f < g {
      AliveIsPresent(h, n, f, g);
    } else if g < f {
      AliveIsPresent(h, n, g, f);
    }
  }

  lemma EntryIs(h: History, n: string, first: nat, latest: nat)
    requires Timed(h) && Joined(h, n, first) && Latest(h, n, latest)
    ensures n in Run(h) && Run(h)[n].network == h[first].m.network && Run(h)[n].endpoint == h[latest].sender
  {
    hide Run, Accepted, AliveSince, Joined;
    assert Alive(h, n) by { JoinedIsAlive(h, n, first); }
    EntryTells(h, n);
    var f: nat, l: nat :| Entered(h, n, Run(h)[n], f, l);
    JoinedOnce(h, n, f, first);
  }

  lemma JoinedIsAlive(h: History, n: string, first: nat)
    requires Joined(h, n, first)
    ensures Alive(h, n) && first < |h| && h[first].Datagram? && h[first].m.Register?
  {
  }

  /**
   What becomes of a relay packet, in terms of the history alone. It is forwarded, unchanged and once, exactly
   when both nodes are alive and joined with the same network, to where the target last registered from.
   */
  lemma PacketOutcome(h: History, m: Message, f: nat, lf: nat, t: nat, lt: nat)
    requires Timed(h) && m.Packet?
    requires Alive(h, m.from) ==> Joined(h, m.from, f) && Latest(h, m.from, lf)
    requires Alive(h, m.to) ==> Joined(h, m.to, t) && Latest(h, m.to, lt)
    ensures var out := OnRelayPacket(Run(h), m);
            if m.from == "" || m.to == "" || !Alive(h, m.from) then out == []
            else if !Alive(h, m.to) then out == [Sent(h[lf].sender, Error("target_offline"))]
            else if h[f].m.network != h[t].m.network then out == [Sent(h[lf].sender, Error("network_mismatch"))]
            else out == [Sent(h[lt].sender, Forwarded(m))]
  {
    hide Run, Joined, Alive;
    PresentExactly(h, m.from);
    PresentExactly(h, m.to);
    if Alive(h, m.from) {
      JoinedIsAlive(h, m.from, f);
      EntryIs(h, m.from, f, lf);
    }
    if Alive(h, m.to) {
      JoinedIsAlive(h, m.to, t);
      EntryIs(h, m.to, t, lt);
    }
  }

  /** A heartbeat renews an alive node in silence; from any other it is answered with an error and registers nothing. */
  lemma HeartbeatOutcome(h: History, m: Message, sender: Endpoint, at: int)
    requires Timed(h) && m.Heartbeat? && m.node != ""
    ensures var (after, out) := OnHeartbeat(Run(h), m, sender, at);
            && out == (if Alive(h, m.node) then [] else [Sent(sender, Error("not_registered"))])
            && after.Keys == Run(h).Keys
            && (Alive(h, m.node) ==> after[m.node] == Run(h)[m.node].(lastSeen := at))
  {
    hide Run, Alive;
    PresentExactly(h, m.node);
  }

  /**
   No datagram is answered by more than one, only a relay packet is ever forwarded, and registering again
   changes no present node's network.
   */
  lemma NoAmplification(h: History, m: Message, sender: Endpoint, at: int, n: string)
    ensures var (after, out) := OnDatagram(Run(h), m, sender, at);
            && |out| <= 1
            && (out != [] && out[0].what.Forwarded? ==> m.Packet? && out[0].what.packet == m && after == Run(h))
            && (n in Run(h) ==> n in after && after[n].network == Run(h)[n].network)
            && (m.UnknownType? ==> out == [Sent(sender, Error("unknown_type"))])
            && (m.Malformed? ==> out == [Sent(sender, Error("invalid_message"))])
  {
  }

  /**
   Every register gets one answer, to where it came from: an acknowledgement naming the node exactly if it makes or
   keeps the node alive and from then on its packets go to that sender, and otherwise what it lacks.
   */
  lemma RegisterOutcome(h: History, m: Message, sender: Endpoint, at: int)
    requires m.Register? && Timed(h + [Datagram(sender, m, at)])
    ensures var (after, out) := OnRegister(Run(h), m, sender, at);
            var later := h + [Datagram(sender, m, at)];
            && after == Run(later) && |out| == 1 && out[0].dest == sender
            && (out[0].what == RegisterOk(m.node) <==> Accepted(Datagram(sender, m, at), m.node))
            && (out[0].what == RegisterOk(m.node) ==>
                Alive(later, m.node) && m.node in after && after[m.node].endpoint == sender)
            && (out[0].what != RegisterOk(m.node) ==>
                && after == Run(h)
                && out[0].what == Error(if m.node == "" || m.network == "" then "missing_fields" else "missing_token"))
  {
    hide Alive;
    var later := h + [Datagram(sender, m, at)];
    assert later[..|later| - 1] == h;
    PresentExactly(later, m.node);
  }
}
