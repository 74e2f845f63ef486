/**
 The control plane as the objects of the server: the registry, the session map and the handlers that
 change both, proved against the steps of `ControlPlane`, and routing by destination address.

 The loops over the registry take its entries in whatever order the map yields them.
 */
module ControlServer {
  import opened Basics
  import opened Ip
  import opened Allocator
  import opened ControlPlane
  import Hex

  // ----- Routing -----

  /** The online nodes of a network that hold a destination address. */
  predicate Reaches(nodes: Registry, network: string, dst: string, id: string) {
    id in nodes && nodes[id].network == network && nodes[id].sessionOnline && nodes[id].virtualIp == dst
  }

  /**
   In every state the server reaches, an IPv4 packet has at most one online node to go to: the node whose
   registered address is, as a number, the packet's destination octets. It has a session, and the address
   is allocated in the pool of its network, strictly between the gateway and the broadcast address.
   */
  lemma RouteIsUnique(c: Config, db: Database, events: seq<(Event, int)>, network: string, packet: Bytes, id: string,
      other: string)
    requires ConfigOk(c) && Settled(c, Started(c, db), events)
    requires Ipv4Dst(packet) != "" && Reaches(ControlPlane.Run(c, Started(c, db), events).nodes, network,
            Ipv4Dst(packet), id)
    ensures var st := ControlPlane.Run(c, Started(c, db), events);
            && id in st.sessions && network in st.pools
            && (Reaches(st.nodes, network, Ipv4Dst(packet), other) ==> other == id)
            && |packet| >= 20 && packet[0] / 16 == 4
            && IpToUint(st.nodes[id].virtualIp) == Quad(packet[16], packet[17], packet[18], packet[19])
            && Quad(packet[16], packet[17], packet[18], packet[19]) in st.pools[network].taken
            && 0 < st.pools[network].prefix <= 30
            && Strictly(st.pools[network].base, Quad(packet[16], packet[17], packet[18], packet[19]),
                Pow2(32 - st.pools[network].prefix))
  {
    hide ControlPlane.Run, Settled, Started, ConfigOk, Ipv4Dst, Quad, UintToIp, IpToUint, Pow2;
    AddressesStayUnique(c, db, events, Check, 0);
    StartedAgrees(c, db);
    RegistryMatchesSessions(c, Started(c, db), events);
    var st := ControlPlane.Run(c, Started(c, db), events);
    var x := IpToUint(st.nodes[id].virtualIp);
    assert Holds(st.pools[network], st.nodes[id].virtualIp);
    Ipv4DstIs(packet, x);
  }

  /**
   In no reachable state does a node hold the gateway address recorded with any node of its network, so no packet
   for the gateway is taken for a node's.
   */
  lemma GatewayIsNobody(c: Config, db: Database, events: seq<(Event, int)>, id: string, other: string)
    requires ConfigOk(c) && Settled(c, Started(c, db), events)
    ensures var st := ControlPlane.Run(c, Started(c, db), events);
            id in st.nodes && other in st.nodes && st.nodes[id].virtualIp != ""
                && st.nodes[other].network == st.nodes[id].network ==>
              st.nodes[id].virtualIp != st.nodes[other].gatewayIp
  {
    hide ControlPlane.Run, Settled, Started, ConfigOk, UintToIp, IpToUint, Pow2;
    AddressesStayUnique(c, db, events, Check, 0);
    StartedAddressed(c, db);
    StartedGateways(c, db);
    GatewaysStayRecorded(c, Started(c, db), events);
    var st := ControlPlane.Run(c, Started(c, db), events);
    if id in st.nodes && other in st.nodes && st.nodes[id].virtualIp != ""
        && st.nodes[other].network == st.nodes[id].network {
      var p := st.pools[st.nodes[id].network];
      assert Holds(p, st.nodes[id].virtualIp);
      PrintInjective(IpToUint(st.nodes[id].virtualIp), (p.base + 1) % TWO_32);
    }
  }

  lemma StartedGateways(c: Config, db: Database)
    ensures GatewaysRecorded(Started(c, db))
  {
    hide ParseCidr, MakePool;
  }

  lemma StartedAgrees(c: Config, db: Database)
    ensures Agree(Started(c, db))
  {
  }

  // ----- NodeRegistry -----

  class NodeRegistry {
    var nodes: Registry

    constructor ()
      ensures nodes == map[]
    {
      nodes := map[];
    }

    method Register(id: string, info: Node, now: int)
      modifies this
      ensures nodes == RegisterNode(old(nodes), id, info, now)
    {
      var transport, rtt, reconnects: nat := "unknown", 0, 0;
      if id in nodes {
        var was := nodes[id];
        if was.transport != "" {
          transport := was.transport;
        }
        rtt := was.rtt;
        reconnects := was.reconnects;
        if !was.sessionOnline {
          reconnects := reconnects + 1;
        }
      }
      nodes := nodes[id := info.(online := true, sessionOnline := true, connectionState := "online",
          disconnectReason := "",
                                 lastSeen := now, transport := transport, rtt := rtt, reconnects := reconnects)];
    }

    method Heartbeat(id: string, now: int)
      modifies this
      ensures nodes == UpdateHeartbeat(old(nodes), id, now)
    {
      if id in nodes {
        nodes := nodes[id := nodes[id].(lastSeen := now)];
        nodes := nodes[id := nodes[id].(online := true)];
        if nodes[id].connectionState != "online" {
          nodes := nodes[id := nodes[id].(connectionState := if nodes[id].sessionOnline then "online" else "grace")];
        }
      }
    }

    method SetAddress(id: string, ip: string, port: int, addrs: seq<string>, now: int)
      modifies this
      ensures nodes == UpdateAddress(old(nodes), id, ip, port, addrs, now)
    {
      if id in nodes {
        nodes := nodes[id := nodes[id].(publicIp := ip, publicPort := port, localAddrs := addrs, lastSeen := now)];
      }
    }

    method SetSessionState(id: string, sessionOnline: bool, state: string, reason: string, now: int)
      modifies this
      ensures nodes == UpdateSessionState(old(nodes), id, sessionOnline, state, reason, now)
    {
      if id !in nodes {
        return;
      }
      nodes := nodes[id := nodes[id].(sessionOnline := sessionOnline, connectionState := state)];
      if reason != "" {
        nodes := nodes[id := nodes[id].(disconnectReason := reason)];
      }
      if sessionOnline {
        nodes := nodes[id := nodes[id].(online := true, disconnectReason := "", lastSeen := now)];
      }
    }

    method SetTransport(id: string, mode: string, rtt: int)
      modifies this
      ensures nodes == UpdateTransport(old(nodes), id, mode, rtt)
    {
      if id !in nodes {
        return;
      }
      nodes := nodes[id := nodes[id].(transport := mode)];
      if rtt > 0 {
        nodes := nodes[id := nodes[id].(rtt := rtt)];
      }
    }

    method Remove(id: string)
      modifies this
      ensures nodes == old(nodes) - {id}
    {
      nodes := nodes - {id};
    }

    /** The online nodes of a network, each once, in the order of the iteration. */
    method ListNetworkNodes(network: string) returns (r: seq<string>)
      ensures forall id :: id in r <==> id in nodes && nodes[id].network == network && nodes[id].sessionOnline
      ensures forall i, j :: 0 <= i < j < |r| ==> r[i] != r[j]
    {
      r := [];
      var rest := nodes.Keys;
      while rest != {}
        invariant rest <= nodes.Keys
        invariant forall id :: id in r <==>
                    id in nodes && id !in rest && nodes[id].network == network && nodes[id].sessionOnline
        invariant forall i, j :: 0 <= i < j < |r| ==> r[i] != r[j]
      {
        var id :| id in rest;
        rest := rest - {id};
        if nodes[id].network == network && nodes[id].sessionOnline {
          r := r + [id];
        }
      }
    }

    method OnlineCount() returns (count: nat)
      ensures count == |OnlineNodes(nodes)|
    {
      count := 0;
      var rest := nodes.Keys;
      ghost var seen: set<string> := {};
      while rest != {}
        invariant rest <= nodes.Keys && count == |seen|
        invariant seen == set id | id in nodes && id !in rest && nodes[id].sessionOnline
      {
        var id :| id in rest;
        rest := rest - {id};
        if nodes[id].sessionOnline {
          count := count + 1;
          seen := seen + {id};
        }
      }
      assert seen == OnlineNodes(nodes);
    }

    method FindTimedOutNodes(now: int, timeout: int) returns (r: seq<string>)
      ensures forall id :: id in r <==> id in nodes && TimedOut(nodes[id], now, timeout)
    {
      hide WholeSeconds;
      r := [];
      var rest := nodes.Keys;
      while rest != {}
        invariant rest <= nodes.Keys
        invariant forall id :: id in r <==> id in nodes && id !in rest && TimedOut(nodes[id], now, timeout)
      {
        var id :| id in rest;
        rest := rest - {id};
        if nodes[id].online {
          if WholeSeconds(now - nodes[id].lastSeen) >= timeout {
            r := r + [id];
          }
        }
      }
    }
  }

  // ----- SessionManager -----

  /** Sessions are known by number; `stale` are those told that a newer one replaced them. */
  class SessionManager {
    var sessions: map<string, nat>
    var stale: set<nat>

    constructor ()
      ensures sessions == map[] && stale == {}
    {
      sessions, stale := map[], {};
    }

    method Register(id: string, sid: nat)
      modifies this
      ensures sessions == old(sessions)[id := sid]
      ensures stale == old(stale) + if id in old(sessions) then {old(sessions)[id]} else {}
    {
      if id in sessions {
        stale := stale + {sessions[id]};
      }
      sessions := sessions[id := sid];
    }

    method Remove(id: string)
      modifies this`sessions
      ensures sessions == old(sessions) - {id}
    {
      sessions := sessions - {id};
    }

    predicate Has(id: string)
      reads this
    {
      id in sessions
    }
  }

  // ----- HttpServer -----

  /** A pool made from the CIDR, if it makes one, can be scanned: the last address is below 2^32 - 1. */
  predicate Scans(r: Cidr) {
    r.Cidr? ==> 0 < r.prefix <= 32 && MakePool(r.base, r.prefix, {}).end < TWO_32 - 1
  }

  /** So it is for every prefix from 1 to 30 and every address. */
  lemma UsualScans(text: string)
    ensures var r := ParseCidr(text); r.Cidr? && 0 < r.prefix <= 30 ==> Scans(r)
  {
    hide ParseCidr, MakePool;
    var r := ParseCidr(text);
    if r.Cidr? && 0 < r.prefix <= 30 {
      ParsedPool(text);
    }
  }

  /** A configuration with prefixes from 1 to 30 gives every network a pool that can be scanned. */
  lemma ConfigScans(c: Config)
    requires ConfigOk(c)
    ensures forall network: string :: Scans(ParseCidr(c.CidrOf(network)))
  {
    hide ParseCidr, Scans;
    forall network: string
      ensures Scans(ParseCidr(c.CidrOf(network)))
    {
      UsualScans(c.CidrOf(network));
    }
  }

  class HttpServer {
    const config: Config
    const registry: NodeRegistry
    const sessions: SessionManager
    const ipam: IpAllocator
    var db: Database

    /** No pool is there, or can come, whose scan might wrap around 2^32, and no prefix of 0 is configured. */
    ghost predicate Valid()
      reads this, ipam
    {
      (forall network: string :: Scans(ParseCidr(config.CidrOf(network)))) && forall n :: n in ipam.pools ==>
          ipam.pools[n].end < TWO_32 - 1
    }

    /** The whole state, as the steps see it. */
    ghost function Value(): (r: State)
      reads this, registry, sessions, ipam
    {
      State(registry.nodes, sessions.sessions, sessions.stale, ipam.pools, db)
    }

    constructor (config: Config, registry: NodeRegistry, sessions: SessionManager, ipam: IpAllocator, db: Database)
      ensures this.config == config && this.registry == registry && this.sessions == sessions && this.ipam == ipam
              && this.db == db
      ensures ConfigOk(config) && (forall n :: n in ipam.pools ==> PoolInv(ipam.pools[n])) ==> Valid()
    {
      this.config, this.registry, this.sessions, this.ipam, this.db := config, registry, sessions, ipam, db;
      new;
      hide ConfigOk, Scans;
      if ConfigOk(config) {
        ConfigScans(config);
      }
    }

    method AddNetworkPool(network: string, cidr: string) returns (thrown: bool)
      requires Valid() && Scans(ParseCidr(cidr))
      modifies ipam
      ensures Valid() && ipam.pools == AddPool(old(ipam.pools), network, cidr) && thrown == ParseCidr(cidr).Thrown?
    {
      hide ParseCidr, MakePool;
      NoReservations();
      var r := ipam.AddPool(network, cidr, {});
      thrown := r.NumberThrown?;
    }

    method AllocateIn(network: string) returns (ip: string)
      requires Valid()
      modifies ipam
      ensures Valid() && (ipam.pools, ip) == Grant(old(ipam.pools), network)
    {
      hide UintToIp, ParseCidr, MakePool;
      ip := ipam.Allocate(network);
    }

    /** The record of a node, or nothing when the configured CIDR makes the number parser throw. */
    method AssignIp(id: string, network: string, publicKey: string, now: int) returns (r: Option<Node>)
      requires Valid()
      modifies ipam
      ensures Valid() && r.Some? == !AssignThrows(config, old(ipam.pools), Normal(network))
      ensures r.Some? ==> (ipam.pools, r.value) == AssignVirtualIp(config, old(Value()), id, network, publicKey, now)
      ensures r.None? ==> ipam.pools == old(ipam.pools)
    {
      hide Grant, Subnet, Gateway, ParseCidr, MakePool;
      var net := Normal(network);
      if net !in ipam.pools {
        var cidr;
        if net in config.pools {
          cidr := config.pools[net];
        } else if "default" in config.pools {
          cidr := config.pools["default"];
        } else {
          cidr := "10.0.0.0/24";
        }
        assert cidr == config.CidrOf(net);
        var thrown := AddNetworkPool(net, cidr);
        if thrown {
          return None;
        }
      }
      var ip;
      if id in registry.nodes && registry.nodes[id].virtualIp != "" {
        ip := registry.nodes[id].virtualIp;
      } else {
        ip := AllocateIn(net);
      }
      return Some(Node(net, publicKey, "", 0, [], ip, Gateway(ipam.pools, net), Subnet(ipam.pools, net), true, false,
          "offline", "unknown", 0, 0, "", now));
    }

    /** A network without a pool is given one from the subnet of its row. */
    method Join(network: string, rowSubnet: string, id: string) returns (thrown: bool)
      requires Valid() && Scans(ParseCidr(rowSubnet))
      modifies this`db, ipam
      ensures Valid() && (ipam.pools, db, thrown) == JoinNetwork(old(ipam.pools), old(db), network, rowSubnet, id)
    {
      hide Grant, ParseCidr, MakePool;
      thrown := false;
      if id !in db.devices || (network, id) in db.members {
        return;
      }
      var address := db.devices[id];
      db := db.(members := db.members + {(network, id)});
      if address == "" {
        if network !in ipam.pools {
          thrown := AddNetworkPool(network, rowSubnet);
          if thrown {
            return;
          }
        }
        var ip := AllocateIn(network);
        if ip != "" {
          db := db.(devices := db.devices[id := ip]);
        }
      }
    }

    method EnsurePersisted(id: string, info: Node, admin: bool, rowSubnet: string) returns (thrown: bool)
      requires Valid() && Scans(ParseCidr(rowSubnet))
      modifies this`db, ipam
      ensures Valid() && (ipam.pools, db, thrown) == Persist(old(ipam.pools), old(db), id, info, admin, rowSubnet)
    {
      hide JoinNetwork, ParseCidr;
      if !admin {
        return false;
      }
      db := db.(devices := db.devices[id := info.virtualIp]);
      thrown := Join(info.network, rowSubnet, id);
    }

    /** The node-auth callback followed by the post-node-auth callback; false when the former throws. */
    method NodeAuth(sid: nat, id: string, network: string, publicKey: string, admin: bool, rowSubnet: string, now: int)
      returns (ok: bool)
      requires Valid() && Scans(ParseCidr(rowSubnet)) && id != ""
      modifies this`db, registry, sessions, ipam
      ensures Valid() && Value() == Auth(config, old(Value()), sid, id, network, publicKey, admin, rowSubnet, now)
      ensures !ok ==> Value() == old(Value()).(pools := ipam.pools, db := db)
    {
      hide AssignVirtualIp, Persist, RegisterNode, UpdateSessionState, ParseCidr, AssignThrows;
      var info := AssignIp(id, network, publicKey, now);
      if info.None? {
        return false;
      }
      var thrown := EnsurePersisted(id, info.value, admin, rowSubnet);
      if thrown {
        return false;
      }
      registry.Register(id, info.value, now);
      registry.SetSessionState(id, true, "online", "", now);
      sessions.Register(id, sid);
      return true;
    }

    /** The disconnect handler of plain WebSocket sessions. */
    method OnWsDisconnect(id: string, now: int)
      modifies registry, sessions
      ensures Value() == WsDisconnect(old(Value()), id, now)
    {
      if sessions.Has(id) {
        return;
      }
      registry.SetSessionState(id, false, "grace", "ws_disconnected", now);
      sessions.Remove(id);
    }

    /** The disconnect handler of TLS sessions. */
    method OnWssDisconnect(id: string, now: int)
      modifies registry, sessions
      ensures Value() == WssDisconnect(old(Value()), id, now)
    {
      registry.SetSessionState(id, false, "grace", "ws_disconnected", now);
      registry.SetTransport(id, "unknown", 0);
      sessions.Remove(id);
    }

    /** The monitor's check: the timeout callback for each node found, in the order found. */
    method DoCheck(now: int)
      modifies registry, sessions
      ensures Value() == Sweep(config, old(Value()), now)
    {
      hide TimedOut;
      var gone := registry.FindTimedOutNodes(now, config.timeout);
      ghost var all := set id | id in registry.nodes && TimedOut(registry.nodes[id], now, config.timeout);
      var i := 0;
      while i < |gone|
        invariant 0 <= i <= |gone|
        invariant registry.nodes == old(registry.nodes) - (set k | 0 <= k < i :: gone[k])
        invariant sessions.sessions == old(sessions.sessions) - (set k | 0 <= k < i :: gone[k])
        invariant sessions.stale == old(sessions.stale) && db == old(db) && ipam.pools == old(ipam.pools)
      {
        assert (set k | 0 <= k < i + 1 :: gone[k]) == (set k | 0 <= k < i :: gone[k]) + {gone[i]};
        registry.Remove(gone[i]);
        sessions.Remove(gone[i]);
        i := i + 1;
      }
      assert all == set k | 0 <= k < |gone| :: gone[k];
    }

    /**
     What becomes of a packet a node sends over its control session; `open` is whether the network's gateway device
     is.
     */
    method HandleTunPacket(id: string, payload: Bytes, open: bool) returns (r: TunOutcome)
      modifies registry
      ensures id !in old(registry.nodes) ==> r == Dropped && registry.nodes == old(registry.nodes)
      ensures id in old(registry.nodes) ==>
                var before := old(registry.nodes);
                var touched := UpdateTransport(before, id, "server", 0);
                var (network, dst) := (before[id].network, Ipv4Dst(Hex.Decode(payload, false)));
                var routed := dst != "" && dst != before[id].gatewayIp;
                && registry.nodes == (if r.ToPeer? then UpdateTransport(touched, r.peer, "server", 0) else touched)
                && (r.ToPeer? ==> routed && Reaches(before, network, dst, r.peer))
                && (routed && (exists p :: Reaches(before, network, dst, p)) ==> r.ToPeer?)
                && (r == ToGateway ==> open) && (r == Dropped ==> !open || Hex.Decode(payload, false) == [])
    {
      hide Ipv4Dst, Hex.Decode;
      if id !in registry.nodes {
        return Dropped;
      }
      var node := registry.nodes[id];
      registry.SetTransport(id, "server", 0);
      var packet := Hex.HexDecode(payload);
      EmptyGoesNowhere();
      if packet == [] {
        return Dropped;
      }
      var dst := Ipv4Dst(packet);
      if dst != "" && dst != node.gatewayIp {
        var to := ForwardTunPacket(node.network, packet);
        if to.Some? {
          registry.SetTransport(to.value, "server", 0);
          return ToPeer(to.value);
        }
        assert forall p :: Reaches(old(registry.nodes), node.network, dst, p) ==>
            Reaches(registry.nodes, node.network, dst, p);
      }
      return if open then ToGateway else Dropped;
    }

    /** The node a packet read from the gateway's TUN device is sent to. */
    method ForwardTunPacket(network: string, packet: Bytes) returns (to: Option<string>)
      ensures to.Some? ==> Ipv4Dst(packet) != "" && Reaches(registry.nodes, network, Ipv4Dst(packet), to.value)
      ensures to.None? ==> Ipv4Dst(packet) == "" || forall id :: !Reaches(registry.nodes, network, Ipv4Dst(packet), id)
    {
      hide Ipv4Dst;
      var dst := Ipv4Dst(packet);
      if dst == "" {
        return None;
      }
      var peers := registry.ListNetworkNodes(network);
      var i := 0;
      while i < |peers|
        invariant 0 <= i <= |peers|
        invariant forall k :: 0 <= k < i ==> registry.nodes[peers[k]].virtualIp != dst
      {
        if registry.nodes[peers[i]].virtualIp == dst {
          return Some(peers[i]);
        }
        i := i + 1;
      }
      return None;
    }
  }

  datatype TunOutcome = ToPeer(peer: string) | ToGateway | Dropped

  lemma EmptyGoesNowhere()
    ensures Ipv4Dst([]) == ""
  {
  }

  lemma NoReservations()
    ensures Addresses({}) == {}
  {
  }
}
