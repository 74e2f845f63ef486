/**
 The control plane: node registry, session map, address assignment and heartbeat sweep
 (src/http/http_server.cpp, src/nat/node_registry.cpp, src/nat/session_manager.cpp,
 src/nat/heartbeat_monitor.cpp, src/service/network_service.cpp).

 Every handler runs on one thread, so each is one step. Times are nanoseconds.
 */
module ControlPlane {
  import opened Basics
  import opened Ip
  import opened Allocator

  datatype Node = Node(
    network: string,
    publicKey: string,
    publicIp: string,
    publicPort: int,
    localAddrs: seq<string>,
    virtualIp: string,
    gatewayIp: string,
    subnet: string,
    online: bool,
    sessionOnline: bool,
    connectionState: string,
    transport: string,
    rtt: int,
    reconnects: nat,
    disconnectReason: string,
    lastSeen: int)

  type Registry = map<string, Node>

  // ----- NodeRegistry as functions -----

  function RegisterNode(nodes: Registry, id: string, info: Node, now: int): (r: Registry) {
    var known := id in nodes;
    var transport := if known && nodes[id].transport != "" then nodes[id].transport else "unknown";
    var rtt := if known then nodes[id].rtt else 0;
    var reconnects := if known then nodes[id].reconnects + (if nodes[id].sessionOnline then 0 else 1) else 0;
    nodes[id := info.(online := true, sessionOnline := true, connectionState := "online", disconnectReason := "",
                      lastSeen := now, transport := transport, rtt := rtt, reconnects := reconnects)]
  }

  function UpdateHeartbeat(nodes: Registry, id: string, now: int): (r: Registry) {
    if id !in nodes then nodes
    else
      var n := nodes[id].(lastSeen := now, online := true);
      nodes[id := if n.connectionState != "online"
          then n.(connectionState := if n.sessionOnline then "online" else "grace") else n]
  }

  function UpdateAddress(nodes: Registry, id: string, ip: string, port: int, addrs: seq<string>,
      now: int): (r: Registry)
  {
    if id !in nodes then nodes
    else nodes[id := nodes[id].(publicIp := ip, publicPort := port, localAddrs := addrs, lastSeen := now)]
  }

  function UpdateSessionState(nodes: Registry, id: string, sessionOnline: bool, state: string, reason: string,
      now: int): (r: Registry)
  {
    if id !in nodes then nodes
    else
      var n := nodes[id].(sessionOnline := sessionOnline, connectionState := state);
      var n1 := if reason != "" then n.(disconnectReason := reason) else n;
      nodes[id := if sessionOnline then n1.(online := true, disconnectReason := "", lastSeen := now) else n1]
  }

  function UpdateTransport(nodes: Registry, id: string, mode: string, rtt: int): (r: Registry) {
    if id !in nodes then nodes
    else nodes[id := nodes[id].(transport := mode, rtt := if rtt > 0 then rtt else nodes[id].rtt)]
  }

  predicate TimedOut(n: Node, now: int, timeout: int) {
    n.online && WholeSeconds(now - n.lastSeen) >= timeout
  }

  // ----- Steps of the server -----

  /** The CIDR of a network's pool; a network without one takes the default's. */
  datatype Config = Config(pools: map<string, string>, timeout: int) {
    function CidrOf(network: string): (r: string) {
      if network in pools then pools[network]
      else if "default" in pools then pools["default"]
      else "10.0.0.0/24"
    }
  }

  /** Device rows (virtual address by node id) and rows of nodes attached to networks. */
  datatype Database = Database(devices: map<string, string>, members: set<(string, string)>)

  datatype State = State(
    nodes: Registry,
    /** The session object, by number, of each node id. */
    sessions: map<string, nat>,
    stale: set<nat>,
    pools: map<string, Pool>,
    db: Database)

  function Normal(network: string): (r: string) { if network == "" then "default" else network }

  /** getSubnet and gatewayIp of a network; empty without a pool. */
  function Subnet(pools: map<string, Pool>, network: string): (r: string) {
    if network !in pools then "" else UintToIp(pools[network].base) + "/" + Decimal(pools[network].prefix)
  }

  function Gateway(pools: map<string, Pool>, network: string): (r: string) {
    if network !in pools then "" else UintToIp((pools[network].base + 1) % TWO_32)
  }

  /** addPool on a network without reservations; a CIDR it refuses changes nothing. */
  function AddPool(pools: map<string, Pool>, network: string, cidr: string): (r: map<string, Pool>) {
    match ParseCidr(cidr)
    case Cidr(base, prefix) => if prefix > 0 then pools[network := MakePool(base, prefix, {})] else pools
    case Refused => pools
    case Thrown => pools
  }

  /** allocate: the pools afterwards and the address as text, or nothing. */
  function Grant(pools: map<string, Pool>, network: string): (r: (map<string, Pool>, string)) {
    if network !in pools then (pools, "")
    else
      var (p, x) := Take(pools[network]);
      (pools[network := p], if x.Some? then UintToIp(x.value) else "")
  }

  function EnsurePool(c: Config, pools: map<string, Pool>, network: string): (r: map<string, Pool>) {
    if network in pools then pools else AddPool(pools, network, c.CidrOf(network))
  }

  function AssignVirtualIp(c: Config, st: State, id: string, network: string, publicKey: string,
      now: int): (r: (map<string, Pool>, Node))
  {
    var net := Normal(network);
    var pools := EnsurePool(c, st.pools, net);
    var (pools', ip) :=
      if id in st.nodes && st.nodes[id].virtualIp != "" then (pools, st.nodes[id].virtualIp) else Grant(pools, net);
    (pools', Node(net, publicKey, "", 0, [], ip, Gateway(pools', net), Subnet(pools', net), true, false, "offline",
        "unknown", 0, 0, "", now))
  }

  /**
   join_network: a device row without an address gets one from the network's pool. The last component is
   whether the number parser throws on the subnet of the network's row, leaving the join half done.
   */
  function JoinNetwork(pools: map<string, Pool>, db: Database, network: string, rowSubnet: string, id: string)
    : (r: (map<string, Pool>, Database, bool))
  {
    if id !in db.devices || (network, id) in db.members then (pools, db, false)
    else
      var joined := db.(members := db.members + {(network, id)});
      if db.devices[id] != "" then (pools, joined, false)
      else if network !in pools && ParseCidr(rowSubnet).Thrown? then (pools, joined, true)
      else
        var (pools', ip) := Grant(if network in pools then pools else AddPool(pools, network, rowSubnet), network);
        (pools', if ip != "" then joined.(devices := joined.devices[id := ip]) else joined, false)
  }

  /**
   ensure_node_auth_persisted; `admin` is whether the bootstrap admin exists, `rowSubnet` the subnet column of the
   network's row.
   */
  function Persist(pools: map<string, Pool>, db: Database, id: string, info: Node, admin: bool, rowSubnet: string)
    : (r: (map<string, Pool>, Database, bool))
  {
    if !admin then (pools, db, false)
    else JoinNetwork(pools, db.(devices := db.devices[id := info.virtualIp]), info.network, rowSubnet, id)
  }

  /** Whether assigning an address in a network throws: it has no pool, and its CIDR has no number after the slash. */
  predicate AssignThrows(c: Config, pools: map<string, Pool>, net: string) {
    net !in pools && ParseCidr(c.CidrOf(net)).Thrown?
  }

  /**
   A node's auth message on session `sid`, with everything both callbacks do. An exception leaves the node
   unauthenticated.
   */
  function Auth(c: Config, st: State, sid: nat, id: string, network: string, publicKey: string, admin: bool,
      rowSubnet: string, now: int)
    : (r: State)
  {
    var net := Normal(network);
    if id == "" || AssignThrows(c, st.pools, net) then st
    else
      var (pools, info) := AssignVirtualIp(c, st, id, network, publicKey, now);
      var (pools', db, thrown) := Persist(pools, st.db, id, info, admin, rowSubnet);
      if thrown then st.(pools := pools', db := db)
      else
        var nodes := UpdateSessionState(RegisterNode(st.nodes, id, info, now), id, true, "online", "", now);
        State(nodes, st.sessions[id := sid], if id in st.sessions then st.stale + {st.sessions[id]}
            else st.stale, pools', db)
  }

  /** The plain WebSocket disconnect handler, with its guard. */
  function WsDisconnect(st: State, id: string, now: int): (r: State) {
    if id in st.sessions then st
    else st.(nodes := UpdateSessionState(st.nodes, id, false, "grace", "ws_disconnected", now),
        sessions := st.sessions - {id})
  }

  /** The TLS disconnect handler, without one. */
  function WssDisconnect(st: State, id: string, now: int): (r: State) {
    st.(nodes := UpdateTransport(UpdateSessionState(st.nodes, id, false, "grace", "ws_disconnected", now), id,
        "unknown", 0),
        sessions := st.sessions - {id})
  }

  /** The heartbeat monitor's sweep removes every node that has timed out, and its session. */
  function Sweep(c: Config, st: State, now: int): (r: State) {
    var gone := set id | id in st.nodes && TimedOut(st.nodes[id], now, c.timeout);
    st.(nodes := st.nodes - gone, sessions := st.sessions - gone)
  }

  datatype Event =
    | NodeAuth(sid: nat, id: string, network: string, publicKey: string, admin: bool, rowSubnet: string)
    | Heartbeat(id: string)
    | AddressUpdate(id: string, ip: string, port: int, addrs: seq<string>)
    | TransportStatus(id: string, mode: string, rtt: int)
    | WsClosed(id: string)
    | WssClosed(id: string)
    | Check

  function Next(c: Config, st: State, e: Event, now: int): (r: State) {
    match e
    case NodeAuth(sid, id, network, key, admin, rowSubnet) => Auth(c, st, sid, id, network, key, admin, rowSubnet, now)
    case Heartbeat(id) => st.(nodes := UpdateHeartbeat(st.nodes, id, now))
    case AddressUpdate(id, ip, port, addrs) => st.(nodes := UpdateAddress(st.nodes, id, ip, port, addrs, now))
    case TransportStatus(id, mode, rtt) => st.(nodes := UpdateTransport(st.nodes, id, mode, rtt))
    case WsClosed(id) => WsDisconnect(st, id, now)
    case WssClosed(id) => WssDisconnect(st, id, now)
    case Check => Sweep(c, st, now)
  }

  function Run(c: Config, st: State, events: seq<(Event, int)>): (r: State)
    decreases events
  {
    if events == [] then st else Run(c, Next(c, st, events[0].0, events[0].1), events[1..])
  }

  /** The server at its start: the configured pools, nobody registered. */
  function Started(c: Config, db: Database): (r: State) {
    State(map[], map[], {},
          map n | n in c.pools && ParseCidr(c.pools[n]).Cidr? && ParseCidr(c.pools[n]).prefix > 0 ::
            MakePool(ParseCidr(c.pools[n]).base, ParseCidr(c.pools[n]).prefix, {}),
          db)
  }

  // ----- Registry and session map agree -----

  ghost predicate Agree(st: State) {
    && (forall id :: id in st.sessions <==> id in st.nodes && st.nodes[id].sessionOnline)
    && (forall id :: id in st.nodes ==>
          st.nodes[id].online && st.nodes[id].connectionState == if st.nodes[id].sessionOnline then "online"
              else "grace")
  }

  function OnlineNodes(nodes: Registry): (r: set<string>) { set id | id in nodes && nodes[id].sessionOnline }

  lemma NextAgrees(c: Config, st: State, e: Event, now: int)
    requires Agree(st)
    ensures Agree(Next(c, st, e, now))
  {
    hide Agree, Auth, WsDisconnect, WssDisconnect, UpdateHeartbeat, UpdateAddress, UpdateTransport, Sweep;
    match e
    case NodeAuth(sid, id, network, key, admin, rowSubnet) => AuthAgrees(c, st, sid, id, network, key, admin,
        rowSubnet, now);
    case WsClosed(id) => WsDisconnectAgrees(st, id, now);
    case WssClosed(id) => WssDisconnectAgrees(st, id, now);
    case Heartbeat(id) => HeartbeatAgrees(st, id, now);
    case AddressUpdate(id, ip, port, addrs) => AddressAgrees(st, id, ip, port, addrs, now);
    case TransportStatus(id, mode, rtt) => TransportAgrees(st, id, mode, rtt);
    case Check => SweepAgrees(c, st, now);
  }

  lemma HeartbeatAgrees(st: State, id: string, now: int)
    requires Agree(st)
    ensures Agree(st.(nodes := UpdateHeartbeat(st.nodes, id, now)))
  {
  }

  lemma AddressAgrees(st: State, id: string, ip: string, port: int, addrs: seq<string>, now: int)
    requires Agree(st)
    ensures Agree(st.(nodes := UpdateAddress(st.nodes, id, ip, port, addrs, now)))
  {
  }

  lemma TransportAgrees(st: State, id: string, mode: string, rtt: int)
    requires Agree(st)
    ensures Agree(st.(nodes := UpdateTransport(st.nodes, id, mode, rtt)))
  {
  }

  lemma SweepAgrees(c: Config, st: State, now: int)
    requires Agree(st)
    ensures Agree(Sweep(c, st, now))
  {
    hide TimedOut;
  }

  lemma WsDisconnectAgrees(st: State, id: string, now: int)
    requires Agree(st)
    ensures Agree(WsDisconnect(st, id, now))
  {
  }

  lemma WssDisconnectAgrees(st: State, id: string, now: int)
    requires Agree(st)
    ensures Agree(WssDisconnect(st, id, now))
  {
  }

  lemma AuthAgrees(c: Config, st: State, sid: nat, id: string, network: string, key: string, admin: bool,
      rowSubnet: string, now: int)
    requires Agree(st)
    ensures Agree(Auth(c, st, sid, id, network, key, admin, rowSubnet, now))
  {
    hide AssignVirtualIp, Persist, ParseCidr;
  }

  /**
   In every reachable state the session map holds exactly the nodes whose session is online, and the two online counts
   are equal.
   */
  lemma {:induction false} RegistryMatchesSessions(c: Config, st: State, events: seq<(Event, int)>)
    requires Agree(st)
    ensures var end := Run(c, st, events);
            && Agree(end)
            && end.sessions.Keys == OnlineNodes(end.nodes) && |end.sessions| == |OnlineNodes(end.nodes)|
    decreases events
  {
    if events == [] {
      assert st.sessions.Keys == OnlineNodes(st.nodes);
    } else {
      hide Next, Agree;
      NextAgrees(c, st, events[0].0, events[0].1);
      RegistryMatchesSessions(c, Next(c, st, events[0].0, events[0].1), events[1..]);
    }
  }

  /**
   The guard of the plain WebSocket handler makes it leave every session state alone: in no reachable state
   does it take a node offline, and all it can change is the recorded reason of a node already offline.
   */
  lemma WsDisconnectKeepsSessions(c: Config, db: Database, events: seq<(Event, int)>, id: string, now: int)
    ensures var st := Run(c, Started(c, db), events);
            var end := WsDisconnect(st, id, now);
            && end.sessions == st.sessions && end.nodes.Keys == st.nodes.Keys
            && (id in st.nodes && st.nodes[id].sessionOnline ==> end == st)
            && (id in st.nodes && !st.nodes[id].sessionOnline ==>
                  end.nodes == st.nodes[id := st.nodes[id].(disconnectReason := "ws_disconnected")])
  {
    hide Run, ParseCidr;
    RegistryMatchesSessions(c, Started(c, db), events);
  }

  // ----- Addresses -----

  /** Every pool in use was given a prefix from 1 to 30. */
  ghost predicate ConfigOk(c: Config) {
    forall network: string :: var r := ParseCidr(c.CidrOf(network)); r.Cidr? && 0 < r.prefix <= 30
  }

  predicate Holds(p: Pool, ip: string) {
    var x := IpToUint(ip);
    ip == UintToIp(x) && x in p.taken && p.start <= x <= p.end
  }

  /** The pool may still give this address out. */
  predicate Grantable(p: Pool, ip: string) {
    var x := IpToUint(ip);
    ip == UintToIp(x) && x !in p.taken && p.start <= x <= p.end
  }

  /** No two registered nodes of one network have the same address. */
  ghost predicate Unique(nodes: Registry) {
    forall i, j ::
      i in nodes && j in nodes && i != j && nodes[i].network == nodes[j].network && nodes[i].virtualIp != "" ==>
        nodes[i].virtualIp != nodes[j].virtualIp
  }

  ghost predicate Pooled(st: State) {
    && (forall n :: n in st.pools ==> PoolInv(st.pools[n]))
    && (forall id :: id in st.nodes ==> st.nodes[id].network != "" && st.nodes[id].network in st.pools)
  }

  ghost predicate Addressed(st: State) {
    && Pooled(st) && Unique(st.nodes)
    && (forall id :: id in st.nodes && st.nodes[id].virtualIp != "" ==>
        Holds(st.pools[st.nodes[id].network], st.nodes[id].virtualIp))
  }

  /** Pools only lose free addresses. */
  ghost predicate Grown(before: map<string, Pool>, after: map<string, Pool>) {
    forall n :: n in before ==>
      n in after && before[n] == after[n].(taken := before[n].taken) && before[n].taken <= after[n].taken
  }

  lemma ParsedPool(text: string)
    requires var r := ParseCidr(text); r.Cidr? && 0 < r.prefix <= 30
    ensures var r := ParseCidr(text); PoolInv(MakePool(r.base, r.prefix, {}))
  {
    hide Stoi, NetworkAddr, BroadcastAddr;
    var slash := IndexOf(text, '/', 0);
    var r := ParseCidr(text);
    PoolShape(IpToUint(text[..slash.value]), r.prefix, {});
  }

  lemma EnsurePoolIs(c: Config, pools: map<string, Pool>, network: string)
    requires ConfigOk(c) && forall n :: n in pools ==> PoolInv(pools[n])
    ensures var after := EnsurePool(c, pools, network);
            network in after && Grown(pools, after) && (network in pools ==> after == pools) && forall n ::
                n in after ==> PoolInv(after[n])
  {
    hide ParseCidr, MakePool;
    ParsedPool(c.CidrOf(network));
  }

  /** A granted address was free and is held afterwards, nobody else's changes, and a refusal means the pool is full. */
  lemma GrantIs(pools: map<string, Pool>, network: string)
    requires network in pools && PoolInv(pools[network])
    ensures var (after, ip) := Grant(pools, network);
            && after.Keys == pools.Keys && Grown(pools, after) && PoolInv(after[network])
            && (forall n :: n in pools && n != network ==> after[n] == pools[n])
            && (ip != "" ==>
                && Holds(after[network], ip) && Grantable(pools[network], ip)
                && forall other :: Grantable(after[network], other) <==>
                    Grantable(pools[network], other) && other != ip)
            && (ip == "" ==> after == pools && Grant(after, network) == (pools, ""))
  {
    hide UintToIp, IpToUint;
    var (p, x) := Take(pools[network]);
    if x.Some? {
      PrintInjective(x.value, x.value);
      OthersGrantable(pools[network], p, x.value);
    } else {
      assert pools[network := p] == pools;
    }
  }

  lemma OthersGrantable(p: Pool, after: Pool, x: UInt32)
    requires after == p.(taken := p.taken + {x})
    ensures forall other :: Grantable(after, other) <==> Grantable(p, other) && other != UintToIp(x)
  {
    hide UintToIp, IpToUint;
    PrintInjective(x, x);
  }

  /** Persisting a node never grants an address beyond the one it authenticated with. */
  lemma PersistKeepsPools(pools: map<string, Pool>, db: Database, id: string, info: Node, admin: bool,
      rowSubnet: string)
    requires info.network in pools && (info.virtualIp == "" ==> Grant(pools, info.network) == (pools, ""))
    ensures var (after, _, thrown) := Persist(pools, db, id, info, admin, rowSubnet); after == pools && !thrown
  {
    hide Grant;
  }

  predicate Keeps(st: State, id: string) { id in st.nodes && st.nodes[id].virtualIp != "" }

  /**
   Pools as an authentication leaves them, and the address the node ends with: the one it has, or the pool's lowest
   free one.
   */
  function Ends(c: Config, st: State, id: string, network: string): (r: (map<string, Pool>, string)) {
    var pools := EnsurePool(c, st.pools, Normal(network));
    if Keeps(st, id) then (pools, st.nodes[id].virtualIp) else Grant(pools, Normal(network))
  }

  /** What an accepted authentication does, whatever network it names. */
  lemma AuthIs(c: Config, st: State, sid: nat, id: string, network: string, key: string, admin: bool,
      rowSubnet: string, now: int)
    requires ConfigOk(c) && Pooled(st) && id != ""
    ensures var end := Auth(c, st, sid, id, network, key, admin, rowSubnet, now);
            && id in end.nodes && end.nodes[id].network == Normal(network)
            && (end.pools, end.nodes[id].virtualIp) == Ends(c, st, id, network)
            && end.nodes[id].gatewayIp == Gateway(end.pools, Normal(network))
            && end.nodes[id].subnet == Subnet(end.pools, Normal(network))
            && end.nodes == st.nodes[id := end.nodes[id]]
  {
    hide ParseCidr, Grant, Persist, EnsurePool, PoolInv, Subnet, Gateway, RegisterNode, UpdateSessionState;
    var net := Normal(network);
    EnsurePoolIs(c, st.pools, net);
    var pools := EnsurePool(c, st.pools, net);
    GrantIs(pools, net);
    var (pools', info) := AssignVirtualIp(c, st, id, network, key, now);
    PersistKeepsPools(pools', st.db, id, info, admin, rowSubnet);
    RegisteredIs(st.nodes, id, info, now);
  }

  lemma RegisteredIs(nodes: Registry, id: string, info: Node, now: int)
    ensures var after := UpdateSessionState(RegisterNode(nodes, id, info, now), id, true, "online", "", now);
            && id in after && after == nodes[id := after[id]] && after[id].network == info.network
            && after[id].virtualIp == info.virtualIp && after[id].gatewayIp == info.gatewayIp
            && after[id].subnet == info.subnet
  {
  }

  /** The pools an authentication leaves are sound, have grown, and have one for the node's network. */
  lemma EndsIs(c: Config, st: State, id: string, network: string)
    requires ConfigOk(c) && Pooled(st)
    ensures var (pools, ip) := Ends(c, st, id, network);
            var net := Normal(network);
            && net != "" && net in pools && Grown(st.pools, pools) && (forall n :: n in pools ==> PoolInv(pools[n]))
            && (forall n :: n in st.pools && n != net ==> pools[n] == st.pools[n])
            && (Keeps(st, id) && net in st.pools ==> pools[net] == st.pools[net])
            && (!Keeps(st, id) && ip != "" ==>
                && Holds(pools[net], ip) && (net in st.pools ==> Grantable(st.pools[net], ip))
                && (net in st.pools ==> forall other :: Grantable(pools[net], other) ==>
                    Grantable(st.pools[net], other) && other != ip))
            && (!Keeps(st, id) && ip == "" ==> net in st.pools ==> pools[net] == st.pools[net])
  {
    hide EnsurePool, Grant, PoolInv, Holds, Grantable;
    EnsurePoolIs(c, st.pools, Normal(network));
    EnsureOthers(c, st.pools, Normal(network));
    GrantIs(EnsurePool(c, st.pools, Normal(network)), Normal(network));
  }

  lemma EnsureOthers(c: Config, pools: map<string, Pool>, network: string)
    ensures forall n :: n in pools ==>
              n in EnsurePool(c, pools, network) && EnsurePool(c, pools, network)[n] == pools[n]
  {
    hide ParseCidr, MakePool;
  }

  /** Another node of the network has the address. */
  ghost predicate Clashes(st: State, id: string, net: string, ip: string) {
    ip != "" && exists other ::
      other in st.nodes && other != id && st.nodes[other].network == net && st.nodes[other].virtualIp == ip
  }

  /**
   An authentication keeps addresses unique exactly when no other node of the network has the address this one ends
   with.
   */
  lemma AuthUniqueExactly(c: Config, st: State, sid: nat, id: string, network: string, key: string, admin: bool,
      rowSubnet: string, now: int)
    requires ConfigOk(c) && Pooled(st) && Unique(st.nodes) && id != ""
    ensures Unique(Auth(c, st, sid, id, network, key, admin, rowSubnet, now).nodes) <==>
            !Clashes(st, id, Normal(network), Ends(c, st, id, network).1)
  {
    hide Auth, Pooled, Ends, ConfigOk;
    AuthIs(c, st, sid, id, network, key, admin, rowSubnet, now);
    OneMore(st, Auth(c, st, sid, id, network, key, admin, rowSubnet, now).nodes, id, Normal(network),
        Ends(c, st, id, network).1);
  }

  lemma OneMore(st: State, after: Registry, id: string, net: string, ip: string)
    requires Unique(st.nodes) && id in after && after == st.nodes[id := after[id]] && after[id].network == net
            && after[id].virtualIp == ip
    ensures Unique(after) <==> !Clashes(st, id, net, ip)
  {
    if Clashes(st, id, net, ip) {
      var other :| other in st.nodes && other != id && st.nodes[other].network == net
          && st.nodes[other].virtualIp == ip;
      assert after[other] == st.nodes[other];
    }
  }

  lemma HoldsGrown(before: map<string, Pool>, after: map<string, Pool>, n: string, ip: string)
    requires Grown(before, after) && n in before
    ensures n in after && (Holds(before[n], ip) ==> Holds(after[n], ip))
            && (Grantable(after[n], ip) ==> Grantable(before[n], ip))
  {
    hide UintToIp, IpToUint;
  }

  // ----- Runs in which nodes keep their network -----

  /** A node that authenticates while registered names the network it is registered in. */
  predicate KeepsNetwork(st: State, e: Event) {
    e.NodeAuth? && e.id in st.nodes ==> st.nodes[e.id].network == Normal(e.network)
  }

  predicate Settled(c: Config, st: State, events: seq<(Event, int)>)
    decreases events
  {
    events == [] || (KeepsNetwork(st, events[0].0) && Settled(c, Next(c, st, events[0].0, events[0].1), events[1..]))
  }

  /** A node that stays registered keeps its address. */
  ghost predicate SameAddresses(before: Registry, after: Registry) {
    forall id :: id in before && id in after && before[id].virtualIp != "" ==>
        after[id].virtualIp == before[id].virtualIp
  }

  /** No registered address can be granted again in its network. */
  ghost predicate Guarded(st: State) {
    forall id :: id in st.nodes && st.nodes[id].virtualIp != "" && st.nodes[id].network in st.pools ==>
      !Grantable(st.pools[st.nodes[id].network], st.nodes[id].virtualIp)
  }

  ghost predicate Steady(st: State) { Pooled(st) && Unique(st.nodes) && Guarded(st) }

  /** What any authentication keeps. */
  lemma AuthPooled(c: Config, st: State, e: Event, now: int)
    requires ConfigOk(c) && Pooled(st) && e.NodeAuth? && e.id != ""
    ensures var end := Next(c, st, e, now);
            Pooled(end) && Grown(st.pools, end.pools) && SameAddresses(st.nodes, end.nodes)
  {
    hide Auth, Ends, PoolInv, ConfigOk;
    AuthIs(c, st, e.sid, e.id, e.network, e.publicKey, e.admin, e.rowSubnet, now);
    EndsIs(c, st, e.id, e.network);
    KeptAddress(c, st, e.id, e.network);
  }

  lemma KeptAddress(c: Config, st: State, id: string, network: string)
    ensures Keeps(st, id) ==> Ends(c, st, id, network).1 == st.nodes[id].virtualIp
  {
  }

  lemma AuthNobody(c: Config, st: State, e: Event, now: int)
    requires e.NodeAuth? && e.id == ""
    ensures Next(c, st, e, now) == st && Grown(st.pools, st.pools) && SameAddresses(st.nodes, st.nodes)
  {
  }

  /** Events other than authentications change no address, no network and no pool. */
  lemma OthersKeepNodes(c: Config, st: State, e: Event, now: int)
    requires !e.NodeAuth?
    ensures var end := Next(c, st, e, now);
            end.pools == st.pools && Subregistry(end.nodes, st.nodes)
  {
    hide Auth, TimedOut, Subregistry, UpdateHeartbeat, UpdateAddress, UpdateTransport, UpdateSessionState;
    SameRegistry(st.nodes);
    match e
    case Heartbeat(id) => HeartbeatKeeps(st.nodes, id, now);
    case AddressUpdate(id, ip, port, addrs) => AddressKeeps(st.nodes, id, ip, port, addrs, now);
    case TransportStatus(id, mode, rtt) => TransportKeeps(st.nodes, id, mode, rtt);
    case WsClosed(id) => SessionKeeps(st.nodes, id, now);
    case WssClosed(id) =>
      SessionKeeps(st.nodes, id, now);
      var after := UpdateSessionState(st.nodes, id, false, "grace", "ws_disconnected", now);
      TransportKeeps(after, id, "unknown", 0);
      StillKeeps(UpdateTransport(after, id, "unknown", 0), after, st.nodes);
    case Check => SweepKeeps(c, st, now);
  }

  lemma SameRegistry(nodes: Registry)
    ensures Subregistry(nodes, nodes)
  {
  }

  lemma StillKeeps(last: Registry, after: Registry, before: Registry)
    requires Subregistry(last, after) && Subregistry(after, before)
    ensures Subregistry(last, before)
  {
  }

  lemma HeartbeatKeeps(nodes: Registry, id: string, now: int)
    ensures Subregistry(UpdateHeartbeat(nodes, id, now), nodes)
  {
  }

  lemma AddressKeeps(nodes: Registry, id: string, ip: string, port: int, addrs: seq<string>, now: int)
    ensures Subregistry(UpdateAddress(nodes, id, ip, port, addrs, now), nodes)
  {
  }

  lemma TransportKeeps(nodes: Registry, id: string, mode: string, rtt: int)
    ensures Subregistry(UpdateTransport(nodes, id, mode, rtt), nodes)
  {
  }

  lemma SessionKeeps(nodes: Registry, id: string, now: int)
    ensures Subregistry(UpdateSessionState(nodes, id, false, "grace", "ws_disconnected", now), nodes)
  {
  }

  lemma SweepKeeps(c: Config, st: State, now: int)
    ensures Subregistry(Sweep(c, st, now).nodes, st.nodes) && Sweep(c, st, now).pools == st.pools
  {
    hide TimedOut;
  }

  /** Some of the nodes, with the addresses, networks and gateways they had. */
  ghost predicate Subregistry(after: Registry, before: Registry) {
    forall id :: id in after ==>
      && id in before && after[id].virtualIp == before[id].virtualIp && after[id].network == before[id].network
      && after[id].gatewayIp == before[id].gatewayIp && after[id].subnet == before[id].subnet
  }

  lemma FewerNodes(st: State, end: State)
    requires end.pools == st.pools && Subregistry(end.nodes, st.nodes)
    ensures Pooled(st) ==> Pooled(end)
    ensures Steady(st) ==> Steady(end)
    ensures Addressed(st) ==> Addressed(end)
    ensures Grown(st.pools, end.pools) && SameAddresses(st.nodes, end.nodes)
  {
    hide Holds, Grantable, PoolInv;
  }

  /** Any event at all. */
  lemma NextPooled(c: Config, st: State, e: Event, now: int)
    requires ConfigOk(c) && Pooled(st)
    ensures var end := Next(c, st, e, now);
            Pooled(end) && Grown(st.pools, end.pools) && SameAddresses(st.nodes, end.nodes)
  {
    hide Next, Pooled, Grown, SameAddresses, ConfigOk;
    if e.NodeAuth? && e.id != "" {
      AuthPooled(c, st, e, now);
    } else if e.NodeAuth? {
      AuthNobody(c, st, e, now);
    } else {
      OthersKeepNodes(c, st, e, now);
      FewerNodes(st, Next(c, st, e, now));
    }
  }

  lemma NextAddressed(c: Config, st: State, e: Event, now: int)
    requires ConfigOk(c) && Addressed(st) && KeepsNetwork(st, e)
    ensures Addressed(Next(c, st, e, now))
  {
    hide Next, Addressed, KeepsNetwork, ConfigOk;
    if e.NodeAuth? && e.id != "" {
      AuthAddressed(c, st, e, now);
    } else if e.NodeAuth? {
      AuthNobody(c, st, e, now);
    } else {
      OthersKeepNodes(c, st, e, now);
      FewerNodes(st, Next(c, st, e, now));
    }
  }

  lemma AuthAddressed(c: Config, st: State, e: Event, now: int)
    requires ConfigOk(c) && Addressed(st) && KeepsNetwork(st, e) && e.NodeAuth? && e.id != ""
    ensures Addressed(Next(c, st, e, now))
  {
    hide Auth, Holds, PoolInv, ConfigOk, Grown, Ends, Grantable;
    AuthPooled(c, st, e, now);
    AuthIs(c, st, e.sid, e.id, e.network, e.publicKey, e.admin, e.rowSubnet, now);
    EndsIs(c, st, e.id, e.network);
    KeptAddress(c, st, e.id, e.network);
    AuthUniqueExactly(c, st, e.sid, e.id, e.network, e.publicKey, e.admin, e.rowSubnet, now);
    NoClash(c, st, e.id, e.network);
    var end := Next(c, st, e, now);
    forall id | id in end.nodes && end.nodes[id].virtualIp != ""
      ensures Holds(end.pools[end.nodes[id].network], end.nodes[id].virtualIp)
    {
      if id in st.nodes && st.nodes[id].virtualIp != "" {
        HoldsGrown(st.pools, end.pools, st.nodes[id].network, st.nodes[id].virtualIp);
      }
    }
  }

  /** A node that is new, or keeps its network, clashes with nobody: a held address is not granted again. */
  lemma NoClash(c: Config, st: State, id: string, network: string)
    requires ConfigOk(c) && Addressed(st) && (id in st.nodes ==> st.nodes[id].network == Normal(network))
    ensures !Clashes(st, id, Normal(network), Ends(c, st, id, network).1)
  {
    hide Ends, PoolInv, ConfigOk, Holds, Grantable;
    EndsIs(c, st, id, network);
    KeptAddress(c, st, id, network);
    var ip := Ends(c, st, id, network).1;
    if Clashes(st, id, Normal(network), ip) {
      var other :| other in st.nodes && other != id && st.nodes[other].network == Normal(network)
          && st.nodes[other].virtualIp == ip;
      NotBoth(st.pools[Normal(network)], ip);
    }
  }

  lemma NotBoth(p: Pool, ip: string)
    ensures !(Holds(p, ip) && Grantable(p, ip))
  {
    hide UintToIp, IpToUint;
  }

  lemma {:induction false} RunAddressed(c: Config, st: State, events: seq<(Event, int)>)
    requires ConfigOk(c) && Addressed(st) && Settled(c, st, events)
    ensures Addressed(Run(c, st, events)) && Grown(st.pools, Run(c, st, events).pools)
    decreases events
  {
    hide Next, Addressed, KeepsNetwork, ConfigOk, Pooled;
    if events != [] {
      NextAddressed(c, st, events[0].0, events[0].1);
      AddressedIsPooled(st);
      NextPooled(c, st, events[0].0, events[0].1);
      RunAddressed(c, Next(c, st, events[0].0, events[0].1), events[1..]);
    }
  }

  lemma AddressedIsPooled(st: State)
    requires Addressed(st)
    ensures Pooled(st) && Steady(st)
  {
    hide Holds, Grantable, PoolInv;
    forall id | id in st.nodes && st.nodes[id].virtualIp != "" && st.nodes[id].network in st.pools
      ensures !Grantable(st.pools[st.nodes[id].network], st.nodes[id].virtualIp)
    {
      NotBoth(st.pools[st.nodes[id].network], st.nodes[id].virtualIp);
    }
  }

  lemma StartedAddressed(c: Config, db: Database)
    requires ConfigOk(c)
    ensures Addressed(Started(c, db))
  {
    hide ParseCidr, MakePool;
    forall n | n in c.pools && ParseCidr(c.pools[n]).Cidr? && ParseCidr(c.pools[n]).prefix > 0
      ensures PoolInv(MakePool(ParseCidr(c.pools[n]).base, ParseCidr(c.pools[n]).prefix, {}))
    {
      assert c.CidrOf(n) == c.pools[n];
      ParsedPool(c.pools[n]);
    }
  }

  /**
   In every state the server reaches, each registered address is allocated in its network's pool, no two
   nodes of a network share one, and the next event changes the address of no node that stays registered.
   */
  lemma AddressesStayUnique(c: Config, db: Database, events: seq<(Event, int)>, e: Event, now: int)
    requires ConfigOk(c) && Settled(c, Started(c, db), events)
    ensures var st := Run(c, Started(c, db), events);
            Addressed(st) && SameAddresses(st.nodes, Next(c, st, e, now).nodes)
  {
    hide Run, Settled, Next, Addressed, Started, KeepsNetwork, SameAddresses, ConfigOk, Pooled;
    StartedAddressed(c, db);
    RunAddressed(c, Started(c, db), events);
    var st := Run(c, Started(c, db), events);
    AddressedIsPooled(st);
    NextPooled(c, st, e, now);
  }

  // ----- Addresses run out -----

  /** The addresses of a pool that nobody has been granted. */
  function Free(p: Pool): (r: set<int>) { set x: int | p.start <= x <= p.end && x !in p.taken }

  /** An authentication by which a node without an address is granted one of a network. */
  predicate Grants(c: Config, st: State, e: Event, net: string) {
    e.NodeAuth? && e.id != "" && Normal(e.network) == net && !Keeps(st, e.id)
    && Ends(c, st, e.id, e.network).1 != ""
  }

  function GrantsIn(c: Config, st: State, events: seq<(Event, int)>, net: string): (r: nat)
    decreases events
  {
    if events == [] then 0
    else (if Grants(c, st, events[0].0, net) then 1 else 0)
          + GrantsIn(c, Next(c, st, events[0].0, events[0].1), events[1..], net)
  }

  lemma GrantFrees(pools: map<string, Pool>, network: string)
    requires network in pools && PoolInv(pools[network])
    ensures var (after, ip) := Grant(pools, network);
            && network in after && |Free(after[network])| + (if ip != "" then 1 else 0) == |Free(pools[network])|
            && (ip == "" <==> Free(pools[network]) == {})
            && forall n :: n in pools && n != network ==> n in after && after[n] == pools[n]
  {
    hide UintToIp;
    var (p, x) := Take(pools[network]);
    if x.Some? {
      assert x.value in Free(pools[network]);
      assert Free(p) == Free(pools[network]) - {x.value};
      PrintedIsText(x.value);
    }
  }

  lemma PrintedIsText(x: UInt32)
    ensures UintToIp(x) != ""
  {
  }

  /** n addresses from one on. */
  ghost function Span(low: int, n: nat): (r: set<int>)
    ensures |r| == n && forall x :: x in r <==> low <= x < low + n
  {
    if n == 0 then {} else Span(low, n - 1) + {low + n - 1}
  }

  /** A pool as addPool makes it from a CIDR has 2^(32 - prefix) - 3 addresses to give. */
  lemma FreshFree(text: string)
    requires var r := ParseCidr(text); r.Cidr? && 0 < r.prefix <= 30
    ensures var r := ParseCidr(text);
            Pow2(32 - r.prefix) >= 4 && |Free(MakePool(r.base, r.prefix, {}))| == Pow2(32 - r.prefix) - 3
  {
    hide Stoi, NetworkAddr, BroadcastAddr;
    var slash := IndexOf(text, '/', 0);
    var r := ParseCidr(text);
    PoolShape(IpToUint(text[..slash.value]), r.prefix, {});
    var p := MakePool(r.base, r.prefix, {});
    assert Free(p) == Span(p.start, Pow2(32 - r.prefix) - 3);
  }

  function Capacity(c: Config, net: string): (r: int) {
    var r := ParseCidr(c.CidrOf(net));
    if r.Cidr? && r.prefix <= 30 then Pow2(32 - r.prefix) - 3 else 0
  }

  /** How many addresses a network has left, the pool it has not got yet included. */
  function Left(c: Config, st: State, net: string): (r: int) {
    if net in st.pools then |Free(st.pools[net])| else Capacity(c, net)
  }

  lemma NextFree(c: Config, st: State, e: Event, now: int, net: string)
    requires ConfigOk(c) && Pooled(st)
    ensures Left(c, Next(c, st, e, now), net) + (if Grants(c, st, e, net) then 1 else 0) == Left(c, st, net)
  {
    hide Next, Grant, ConfigOk, Free, Capacity;
    if e.NodeAuth? && e.id != "" {
      AuthFree(c, st, e, now, net);
    } else if e.NodeAuth? {
      AuthNobody(c, st, e, now);
    } else {
      OthersKeepNodes(c, st, e, now);
    }
  }

  lemma AuthFree(c: Config, st: State, e: Event, now: int, net: string)
    requires ConfigOk(c) && Pooled(st) && e.NodeAuth? && e.id != ""
    ensures Left(c, Next(c, st, e, now), net) + (if Grants(c, st, e, net) then 1 else 0) == Left(c, st, net)
  {
    hide Auth, Grant, EnsurePool, PoolInv, ConfigOk, Free, Capacity;
    AuthIs(c, st, e.sid, e.id, e.network, e.publicKey, e.admin, e.rowSubnet, now);
    var pools := EnsurePool(c, st.pools, Normal(e.network));
    EnsurePoolIs(c, st.pools, Normal(e.network));
    EnsureFree(c, st.pools, Normal(e.network));
    GrantFrees(pools, Normal(e.network));
    GrantIs(pools, Normal(e.network));
  }

  /** A pool made on demand has the network's whole capacity free. */
  lemma EnsureFree(c: Config, pools: map<string, Pool>, network: string)
    requires ConfigOk(c)
    ensures var after := EnsurePool(c, pools, network);
            && after.Keys == pools.Keys + {network}
            && (forall n :: n in pools ==> after[n] == pools[n])
            && (network !in pools ==> |Free(after[network])| == Capacity(c, network))
  {
    hide ParseCidr, MakePool, Free;
    FreshFree(c.CidrOf(network));
  }

  /** Every grant uses one address up for good: no event gives one back. */
  lemma {:induction false} EveryGrantCounts(c: Config, st: State, events: seq<(Event, int)>, net: string)
    requires ConfigOk(c) && Pooled(st)
    ensures var end := Run(c, st, events);
            Pooled(end) && Left(c, end, net) + GrantsIn(c, st, events, net) == Left(c, st, net)
    decreases events
  {
    hide Next, Pooled, ConfigOk, Grants, Left;
    if events != [] {
      NextPooled(c, st, events[0].0, events[0].1);
      NextFree(c, st, events[0].0, events[0].1, net);
      EveryGrantCounts(c, Next(c, st, events[0].0, events[0].1), events[1..], net);
    }
  }

  /**
   A network grants 2^(32 - prefix) - 3 addresses in all. However many of its nodes have gone since, a node
   without an address gets one exactly while fewer have been granted; after that none ever does.
   */
  lemma PoolsRunDry(c: Config, db: Database, events: seq<(Event, int)>, e: Event, now: int)
    requires ConfigOk(c) && e.NodeAuth? && e.id != "" && !Keeps(Run(c, Started(c, db), events), e.id)
    ensures var net := Normal(e.network);
            var end := Next(c, Run(c, Started(c, db), events), e, now);
            var granted := GrantsIn(c, Started(c, db), events, net);
            && granted <= Capacity(c, net) && e.id in end.nodes
            && (end.nodes[e.id].virtualIp != "" <==> granted < Capacity(c, net))
  {
    hide Run, Next, Capacity, Free, GrantsIn, PoolInv, ConfigOk, Started;
    var net := Normal(e.network);
    StartedAddressed(c, db);
    StartedFree(c, db, net);
    EveryGrantCounts(c, Started(c, db), events, net);
    NextGrants(c, Run(c, Started(c, db), events), e, now);
  }

  lemma StartedFree(c: Config, db: Database, net: string)
    requires ConfigOk(c)
    ensures Left(c, Started(c, db), net) == Capacity(c, net)
  {
    hide ParseCidr, MakePool, Free;
    FreshFree(c.CidrOf(net));
  }

  /** A node without an address gets one exactly if its network has one left. */
  lemma NextGrants(c: Config, st: State, e: Event, now: int)
    requires ConfigOk(c) && Pooled(st) && e.NodeAuth? && e.id != "" && !Keeps(st, e.id)
    ensures var end := Next(c, st, e, now);
            && Left(c, st, Normal(e.network)) >= 0 && e.id in end.nodes
            && (end.nodes[e.id].virtualIp == "" <==> Left(c, st, Normal(e.network)) == 0)
  {
    hide Auth, Grant, EnsurePool, PoolInv, ConfigOk, Free, Capacity;
    var net := Normal(e.network);
    AuthIs(c, st, e.sid, e.id, e.network, e.publicKey, e.admin, e.rowSubnet, now);
    EnsurePoolIs(c, st.pools, net);
    EnsureFree(c, st.pools, net);
    GrantFrees(EnsurePool(c, st.pools, net), net);
  }

  // ----- Runs in which nodes move -----

  /**
   An authentication brings no address along that another node of the network named has, or that the pool of
   that network may still grant. A node that stays where it is, or has no address yet, brings none.
   */
  ghost predicate SafeMove(c: Config, st: State, e: Event) {
    e.NodeAuth? && e.id != "" && Keeps(st, e.id) ==>
      var net := Normal(e.network);
      var ip := st.nodes[e.id].virtualIp;
      && !Clashes(st, e.id, net, ip)
      && (net in EnsurePool(c, st.pools, net) ==> !Grantable(EnsurePool(c, st.pools, net)[net], ip))
  }

  /** From a steady state, an event leads to a steady one exactly when it is a safe move. */
  lemma NextSteadyExactly(c: Config, st: State, e: Event, now: int)
    requires ConfigOk(c) && Steady(st)
    ensures Steady(Next(c, st, e, now)) <==> SafeMove(c, st, e)
  {
    hide Next, Steady, SafeMove, ConfigOk;
    if e.NodeAuth? && e.id != "" {
      AuthSteadyExactly(c, st, e, now);
    } else {
      QuietIsSafe(c, st, e);
      if e.NodeAuth? {
        AuthNobody(c, st, e, now);
      } else {
        OthersKeepNodes(c, st, e, now);
        FewerNodes(st, Next(c, st, e, now));
      }
    }
  }

  lemma QuietIsSafe(c: Config, st: State, e: Event)
    requires !e.NodeAuth? || e.id == ""
    ensures SafeMove(c, st, e)
  {
  }

  lemma AuthSteadyExactly(c: Config, st: State, e: Event, now: int)
    requires ConfigOk(c) && Steady(st) && e.NodeAuth? && e.id != ""
    ensures Steady(Next(c, st, e, now)) <==> SafeMove(c, st, e)
  {
    hide Auth, Ends, PoolInv, ConfigOk, Grantable, Holds, EnsurePool, Clashes, Unique;
    var end := Next(c, st, e, now);
    var (net, ip) := (Normal(e.network), Ends(c, st, e.id, e.network).1);
    AuthPooled(c, st, e, now);
    AuthIs(c, st, e.sid, e.id, e.network, e.publicKey, e.admin, e.rowSubnet, now);
    EndsIs(c, st, e.id, e.network);
    KeptAddress(c, st, e.id, e.network);
    AuthUniqueExactly(c, st, e.sid, e.id, e.network, e.publicKey, e.admin, e.rowSubnet, now);
    OthersGuarded(c, st, e, now);
    if Keeps(st, e.id) {
      KeptPool(c, st, e.id, e.network);
    } else {
      if ip != "" {
        NotBoth(end.pools[net], ip);
      }
      GrantClashesWithNobody(c, st, e.id, e.network);
    }
  }

  lemma KeptPool(c: Config, st: State, id: string, network: string)
    requires Keeps(st, id)
    ensures Ends(c, st, id, network).0 == EnsurePool(c, st.pools, Normal(network))
  {
    hide EnsurePool;
  }

  /** A granted address was grantable, so in a steady state no node of the network has it. */
  lemma GrantClashesWithNobody(c: Config, st: State, id: string, network: string)
    requires ConfigOk(c) && Steady(st) && !Keeps(st, id)
    ensures !Clashes(st, id, Normal(network), Ends(c, st, id, network).1)
  {
    hide Ends, PoolInv, ConfigOk, Holds, Grantable;
    EndsIs(c, st, id, network);
  }

  /**
   The other nodes stay guarded, and the one that authenticates is guarded exactly when its address cannot be granted
   again.
   */
  lemma OthersGuarded(c: Config, st: State, e: Event, now: int)
    requires ConfigOk(c) && Steady(st) && e.NodeAuth? && e.id != ""
    ensures var end := Next(c, st, e, now);
            && e.id in end.nodes && end.nodes[e.id].network in end.pools
            && (Guarded(end) <==>
                end.nodes[e.id].virtualIp == ""
                    || !Grantable(end.pools[end.nodes[e.id].network], end.nodes[e.id].virtualIp))
  {
    hide Auth, Ends, PoolInv, ConfigOk, Grantable, Holds, Grown;
    var end := Next(c, st, e, now);
    AuthPooled(c, st, e, now);
    AuthIs(c, st, e.sid, e.id, e.network, e.publicKey, e.admin, e.rowSubnet, now);
    forall id | id in end.nodes && id != e.id && end.nodes[id].virtualIp != ""
      ensures !Grantable(end.pools[end.nodes[id].network], end.nodes[id].virtualIp)
    {
      HoldsGrown(st.pools, end.pools, st.nodes[id].network, st.nodes[id].virtualIp);
    }
  }

  lemma {:induction false} RunSteady(c: Config, st: State, events: seq<(Event, int)>)
    requires ConfigOk(c) && Steady(st) && Settled(c, st, events)
    ensures Steady(Run(c, st, events))
    decreases events
  {
    hide Next, Steady, KeepsNetwork, ConfigOk, SafeMove;
    if events != [] {
      StayingIsSafe(c, st, events[0].0);
      NextSteadyExactly(c, st, events[0].0, events[0].1);
      RunSteady(c, Next(c, st, events[0].0, events[0].1), events[1..]);
    }
  }

  /** In a steady state, staying in a network is a safe move. */
  lemma StayingIsSafe(c: Config, st: State, e: Event)
    requires ConfigOk(c) && Steady(st) && KeepsNetwork(st, e)
    ensures SafeMove(c, st, e)
  {
    hide Grantable, PoolInv, ConfigOk;
    if e.NodeAuth? {
      EnsurePoolIs(c, st.pools, Normal(e.network));
    }
  }

  /** A number above the length of every key. */
  lemma LongerThan(keys: set<string>) returns (n: nat)
    ensures forall k :: k in keys ==> |k| < n
  {
    n := 0;
    var rest := keys;
    while rest != {}
      invariant rest <= keys && forall k :: k in keys && k !in rest ==> |k| < n
    {
      var k :| k in rest;
      rest := rest - {k};
      n := if |k| < n then n else |k| + 1;
    }
  }

  /** A node id nobody has. */
  lemma Newcomer(nodes: Registry) returns (id: string)
    ensures id != "" && id !in nodes
  {
    var n := LongerThan(nodes.Keys);
    id := seq(n + 1, _ => 'n');
  }

  /**
   If some node's address may still be granted in its network, newcomers will sooner or later be given it:
   each takes the lowest free address, and that address is one of the free ones.
   */
  lemma Exhaust(c: Config, st: State, a: string) returns (events: seq<(Event, int)>)
    requires ConfigOk(c) && Pooled(st) && a in st.nodes && st.nodes[a].virtualIp != ""
    requires Grantable(st.pools[st.nodes[a].network], st.nodes[a].virtualIp)
    ensures Settled(c, st, events) && !Unique(Run(c, st, events).nodes)
    decreases IpToUint(st.nodes[a].virtualIp) - Lowest(st.pools[st.nodes[a].network])
  {
    hide Auth, PoolInv, ConfigOk, Grantable, Holds, IpToUint, UintToIp, Ends, Lowest, Grown;
    var net, ip := st.nodes[a].network, st.nodes[a].virtualIp;
    var id := Newcomer(st.nodes);
    var e := NodeAuth(0, id, net, "", false, "");
    var next := Next(c, st, e, 0);
    AuthIs(c, st, 0, id, net, "", false, "", 0);
    AuthPooled(c, st, e, 0);
    NewcomerGets(c, st, id, net, ip);
    var got := Ends(c, st, id, net).1;
    if got == ip {
      events := [(e, 0)];
      OneEvent(c, st, e);
      assert next.nodes[a] == st.nodes[a];
    } else {
      var rest := Exhaust(c, next, a);
      events := [(e, 0)] + rest;
      assert events[1..] == rest;
    }
  }

  lemma OneEvent(c: Config, st: State, e: Event)
    requires KeepsNetwork(st, e)
    ensures Settled(c, st, [(e, 0)]) && Run(c, st, [(e, 0)]) == Next(c, st, e, 0)
  {
    hide Next;
    var events := [(e, 0)];
    var none: seq<(Event, int)> := events[1..];
    assert none == [];
    assert Run(c, Next(c, st, e, 0), none) == Next(c, st, e, 0) && Settled(c, Next(c, st, e, 0), none);
  }

  /** The lowest free address of a pool, or one past its end. */
  function Lowest(p: Pool): (r: int) {
    var x := FirstFree(p, p.start);
    if x.Some? then x.value else p.end + 1
  }

  /** A newcomer takes the lowest free address; any other that was grantable still is, and comes closer. */
  lemma NewcomerGets(c: Config, st: State, id: string, net: string, ip: string)
    requires ConfigOk(c) && Pooled(st) && id !in st.nodes && net in st.pools && net != ""
            && Grantable(st.pools[net], ip)
    ensures var (pools, got) := Ends(c, st, id, net);
            && got != "" && net in pools
            && Lowest(st.pools[net]) <= IpToUint(ip)
            && (got != ip ==> Grantable(pools[net], ip) && Lowest(st.pools[net]) < Lowest(pools[net]))
  {
    hide UintToIp, IpToUint, ParseCidr, MakePool;
    var p := st.pools[net];
    var x := FirstFree(p, p.start);
    PrintInjective(x.value, x.value);
    assert Take(p).1 == x;
  }

  /**
   Addresses stay unique in every continuation in which nodes keep their network exactly when no registered
   address can be granted again in its network.
   */
  lemma StaysUniqueExactly(c: Config, st: State)
    requires ConfigOk(c) && Pooled(st) && Unique(st.nodes)
    ensures (forall later :: Settled(c, st, later) ==> Unique(Run(c, st, later).nodes)) <==> Guarded(st)
  {
    hide Settled, Run, PoolInv, Grantable, ConfigOk;
    if Guarded(st) {
      forall later | Settled(c, st, later)
        ensures Unique(Run(c, st, later).nodes)
      {
        RunSteady(c, st, later);
      }
    } else {
      var a :| a in st.nodes && st.nodes[a].virtualIp != "" && st.nodes[a].network in st.pools
               && Grantable(st.pools[st.nodes[a].network], st.nodes[a].virtualIp);
      var later := Exhaust(c, st, a);
    }
  }

  /**
   From a steady state, any event, a move included, leaves addresses unique at once and in every continuation
   in which nodes keep their network, exactly when it is a safe move.
   */
  lemma MoveStaysUniqueExactly(c: Config, st: State, e: Event, now: int)
    requires ConfigOk(c) && Steady(st)
    ensures (forall later :: Settled(c, Next(c, st, e, now), later) ==>
            Unique(Run(c, Next(c, st, e, now), later).nodes))
            <==> SafeMove(c, st, e)
  {
    hide Next, SafeMove, ConfigOk, Pooled, Unique, Guarded;
    var next := Next(c, st, e, now);
    NextSteadyExactly(c, st, e, now);
    NextPooled(c, st, e, now);
    if Unique(next.nodes) {
      hide Settled, Run;
      StaysUniqueExactly(c, next);
    } else {
      var none: seq<(Event, int)> := [];
      assert Run(c, next, none) == next;
      assert Settled(c, next, none) && !Unique(Run(c, next, none).nodes);
    }
  }

  /** Every move of a run is safe when it is made. */
  ghost predicate Careful(c: Config, st: State, events: seq<(Event, int)>)
    decreases events
  {
    events == [] || (SafeMove(c, st, events[0].0) && Careful(c, Next(c, st, events[0].0, events[0].1), events[1..]))
  }

  /** A run stays steady throughout exactly when all its moves are safe. */
  lemma {:induction false} CarefulExactly(c: Config, st: State, events: seq<(Event, int)>)
    requires ConfigOk(c) && Steady(st)
    ensures Careful(c, st, events) <==> forall k :: 0 <= k <= |events| ==> Steady(Run(c, st, events[..k]))
    decreases events
  {
    hide Next, Steady, SafeMove, ConfigOk;
    if events == [] {
      assert events[..0] == [];
    } else {
      var next, rest := Next(c, st, events[0].0, events[0].1), events[1..];
      NextSteadyExactly(c, st, events[0].0, events[0].1);
      forall k | 1 <= k <= |events|
        ensures Run(c, st, events[..k]) == Run(c, next, rest[..k - 1])
      {
        assert events[..k][1..] == rest[..k - 1];
      }
      assert Run(c, st, events[..0]) == st;
      assert Run(c, next, rest[..0]) == next;
      assert Run(c, st, events[..1]) == next;
      if Steady(next) {
        CarefulExactly(c, next, rest);
        Shift(c, st, events);
      }
    }
  }

  /** Prefixes of a run, and of what is left of it after one event. */
  lemma Shift(c: Config, st: State, events: seq<(Event, int)>)
    requires events != [] && Steady(st)
    ensures var next, rest := Next(c, st, events[0].0, events[0].1), events[1..];
            (forall k :: 0 <= k <= |events| ==> Steady(Run(c, st, events[..k])))
            <==> (forall k :: 0 <= k <= |rest| ==> Steady(Run(c, next, rest[..k])))
  {
    hide Next, Steady;
    var next, rest := Next(c, st, events[0].0, events[0].1), events[1..];
    assert events[..0] == [] && Run(c, st, events[..0]) == st;
    forall k | 0 <= k <= |rest|
      ensures Run(c, st, events[..k + 1]) == Run(c, next, rest[..k])
    {
      assert events[..k + 1][1..] == rest[..k];
    }
    if forall k :: 0 <= k <= |events| ==> Steady(Run(c, st, events[..k])) {
      forall k | 0 <= k <= |rest|
        ensures Steady(Run(c, next, rest[..k]))
      {
        assert Steady(Run(c, st, events[..k + 1]));
      }
    }
    if forall k :: 0 <= k <= |rest| ==> Steady(Run(c, next, rest[..k])) {
      forall k | 0 <= k <= |events|
        ensures Steady(Run(c, st, events[..k]))
      {
        if k > 0 {
          assert Run(c, st, events[..k - 1 + 1]) == Run(c, next, rest[..k - 1]);
        }
      }
    }
  }

  /** Whatever its moves, from the start of the server a run stays steady exactly as long as they are safe. */
  lemma CarefulRuns(c: Config, db: Database, events: seq<(Event, int)>)
    requires ConfigOk(c)
    ensures Careful(c, Started(c, db), events) <==>
            forall k :: 0 <= k <= |events| ==> Steady(Run(c, Started(c, db), events[..k]))
  {
    hide Careful, Steady, Run, Started, Addressed;
    StartedAddressed(c, db);
    AddressedIsPooled(Started(c, db));
    CarefulExactly(c, Started(c, db), events);
  }

  // ----- Two runs that break uniqueness -----

  /** A node that is new to the registry gets the first address of a pool nobody has used. */
  lemma FirstAddress(c: Config, st: State, sid: nat, id: string, network: string, key: string, now: int)
    requires ConfigOk(c) && Pooled(st) && id != "" && id !in st.nodes && network != "" && Untouched(c, st, network)
    ensures var end := Auth(c, st, sid, id, network, key, false, "", now);
            && id in end.nodes && end.nodes[id].virtualIp == FirstOf(c, network) != ""
                && end.nodes[id].network == network
            && end.nodes == st.nodes[id := end.nodes[id]]
            && (forall n :: n != network && Untouched(c, st, n) ==> Untouched(c, end, n))
  {
    hide ParseCidr, MakePool, UintToIp, PoolInv, Auth, ConfigOk, FirstFree;
    AuthIs(c, st, sid, id, network, key, false, "", now);
    var r := ParseCidr(c.CidrOf(network));
    ConfigGives(c, network);
    var p := MakePool(r.base, r.prefix, {});
    ParsedStart(c.CidrOf(network));
    PrintInjective(p.start, p.start);
    FirstIsStart(p);
    EnsureOthers(c, st.pools, network);
  }

  lemma ConfigGives(c: Config, network: string)
    requires ConfigOk(c)
    ensures var r := ParseCidr(c.CidrOf(network)); r.Cidr? && 0 < r.prefix <= 30
  {
    hide ParseCidr;
  }

  lemma FirstIsStart(p: Pool)
    requires p.start <= p.end && p.start !in p.taken
    ensures FirstFree(p, p.start) == Some(p.start)
  {
  }

  /** No address of the network's pool has been taken yet. */
  predicate Untouched(c: Config, st: State, network: string) {
    var r := ParseCidr(c.CidrOf(network));
    r.Cidr? && r.prefix > 0 && (network in st.pools ==> st.pools[network] == MakePool(r.base, r.prefix, {}))
  }

  function FirstOf(c: Config, network: string): (r: string)
    requires var r := ParseCidr(c.CidrOf(network)); r.Cidr? && r.prefix > 0
  {
    var r := ParseCidr(c.CidrOf(network));
    UintToIp(MakePool(r.base, r.prefix, {}).start)
  }

  lemma ParsedStart(text: string)
    requires var r := ParseCidr(text); r.Cidr? && 0 < r.prefix <= 30
    ensures var r := ParseCidr(text); var p := MakePool(r.base, r.prefix, {}); p.start <= p.end && p.start !in p.taken
  {
    hide Stoi, NetworkAddr, BroadcastAddr;
    var slash := IndexOf(text, '/', 0);
    var r := ParseCidr(text);
    PoolShape(IpToUint(text[..slash.value]), r.prefix, {});
  }

  lemma StartedUntouched(c: Config, db: Database, network: string)
    requires ConfigOk(c)
    ensures Untouched(c, Started(c, db), network)
  {
    hide ParseCidr, MakePool;
    ConfigGives(c, network);
    assert network in c.pools ==> c.CidrOf(network) == c.pools[network];
  }

  /**
   A move that brings an address along which another node holds: two nodes join networks with pools of one CIDR
   (two networks without a pool of their own, say), get the same address, and the second then authenticates
   for the first one's network.
   */
  lemma MovedNodeCollides(c: Config, db: Database, a: string, b: string, x: string, y: string, key: string)
    requires ConfigOk(c) && a != "" && b != "" && a != b && x != "" && y != "" && x != y && c.CidrOf(x) == c.CidrOf(y)
    ensures var events := [(NodeAuth(0, a, x, key, false, ""), 0), (NodeAuth(1, b, y, key, false, ""), 0),
            (NodeAuth(2, b, x, key, false, ""), 0)];
            !Unique(Run(c, Started(c, db), events).nodes)
  {
    hide Auth, Untouched, Addressed, Pooled, ConfigOk, FirstOf, Ends, Started, ParseCidr;
    var st := Started(c, db);
    StartedAddressed(c, db);
    AddressedIsPooled(st);
    StartedUntouched(c, db, x);
    StartedUntouched(c, db, y);
    ConfigGives(c, x);
    var e1, e2, e3 := NodeAuth(0, a, x, key, false, ""), NodeAuth(1, b, y, key, false, ""),
        NodeAuth(2, b, x, key, false, "");
    var st1 := Next(c, st, e1, 0);
    NobodyStarted(c, db, a);
    NobodyStarted(c, db, b);
    FirstAddress(c, st, 0, a, x, key, 0);
    NextPooled(c, st, e1, 0);
    var st2 := Next(c, st1, e2, 0);
    FirstAddress(c, st1, 1, b, y, key, 0);
    NextPooled(c, st1, e2, 0);
    var st3 := Next(c, st2, e3, 0);
    AuthIs(c, st2, 2, b, x, key, false, "", 0);
    KeptAddress(c, st2, b, x);
    SameFirst(c, x, y);
    ThreeSteps(c, st, e1, e2, e3);
    assert st3.nodes[a] == st1.nodes[a];
  }

  /**
   A move that brings an address along which nobody holds but the pool may still grant: a node joins one
   network, moves to another with a pool of the same CIDR, and the next newcomer there is given its address.
   At no step does a node bring along an address that another node has.
   */
  lemma BroughtAddressIsGranted(c: Config, db: Database, a: string, d: string, x: string, y: string, key: string)
    requires ConfigOk(c) && a != "" && d != "" && a != d && x != "" && y != "" && x != y && c.CidrOf(x) == c.CidrOf(y)
    ensures var events := [(NodeAuth(0, a, y, key, false, ""), 0), (NodeAuth(1, a, x, key, false, ""), 0),
            (NodeAuth(2, d, x, key, false, ""), 0)];
            var st1 := Next(c, Started(c, db), events[0].0, 0);
            && !Unique(Run(c, Started(c, db), events).nodes)
            && Keeps(st1, a) && !Clashes(st1, a, x, st1.nodes[a].virtualIp) && !Keeps(Next(c, st1, events[1].0, 0), d)
  {
    hide Auth, Untouched, Addressed, Pooled, ConfigOk, FirstOf, Ends, Started, ParseCidr;
    var st := Started(c, db);
    StartedAddressed(c, db);
    AddressedIsPooled(st);
    StartedUntouched(c, db, x);
    StartedUntouched(c, db, y);
    ConfigGives(c, x);
    var e1, e2, e3 := NodeAuth(0, a, y, key, false, ""), NodeAuth(1, a, x, key, false, ""),
        NodeAuth(2, d, x, key, false, "");
    var st1 := Next(c, st, e1, 0);
    NobodyStarted(c, db, a);
    NobodyStarted(c, db, d);
    FirstAddress(c, st, 0, a, y, key, 0);
    NextPooled(c, st, e1, 0);
    var st2 := Next(c, st1, e2, 0);
    MovedUntouched(c, st1, a, x, key);
    NextPooled(c, st1, e2, 0);
    FirstAddress(c, st2, 2, d, x, key, 0);
    SameFirst(c, x, y);
    ThreeSteps(c, st, e1, e2, e3);
    var st3 := Next(c, st2, e3, 0);
    assert st3.nodes[a] == st2.nodes[a];
    OnlyNode(c, db, st1, a);
  }

  lemma OnlyNode(c: Config, db: Database, st1: State, a: string)
    requires a in st1.nodes && st1.nodes == Started(c, db).nodes[a := st1.nodes[a]]
    ensures forall net, ip :: !Clashes(st1, a, net, ip)
  {
    hide ParseCidr, MakePool;
  }

  /** Moving with an address takes none of the new network's. */
  lemma MovedUntouched(c: Config, st: State, id: string, network: string, key: string)
    requires ConfigOk(c) && Pooled(st) && id != "" && Keeps(st, id) && network != "" && Untouched(c, st, network)
    ensures var end := Auth(c, st, 1, id, network, key, false, "", 0);
            && Untouched(c, end, network) && id in end.nodes && end.nodes == st.nodes[id := end.nodes[id]]
            && end.nodes[id].network == network && end.nodes[id].virtualIp == st.nodes[id].virtualIp
  {
    hide Auth, ParseCidr, MakePool, ConfigOk, Pooled;
    AuthIs(c, st, 1, id, network, key, false, "", 0);
  }

  lemma NobodyStarted(c: Config, db: Database, id: string)
    ensures id !in Started(c, db).nodes
  {
    hide ParseCidr, MakePool;
  }

  lemma SameFirst(c: Config, x: string, y: string)
    requires c.CidrOf(x) == c.CidrOf(y) && ParseCidr(c.CidrOf(x)).Cidr? && ParseCidr(c.CidrOf(x)).prefix > 0
    ensures FirstOf(c, x) == FirstOf(c, y)
  {
    hide ParseCidr, MakePool, UintToIp;
  }

  lemma ThreeSteps(c: Config, st: State, e1: Event, e2: Event, e3: Event)
    ensures Run(c, st, [(e1, 0), (e2, 0), (e3, 0)]) == Next(c, Next(c, Next(c, st, e1, 0), e2, 0), e3, 0)
  {
    hide Next;
    var all: seq<(Event, int)> := [(e1, 0), (e2, 0), (e3, 0)];
    var two, one := all[1..], all[2..];
    assert two == [(e2, 0), (e3, 0)] && one == [(e3, 0)] && two[1..] == one;
    var end := Next(c, Next(c, Next(c, st, e1, 0), e2, 0), e3, 0);
    assert Run(c, end, one[1..]) == end;
    assert Run(c, Next(c, Next(c, st, e1, 0), e2, 0), one) == end;
  }

  // ----- Recorded gateways -----

  /** Every node's recorded gateway and subnet are those of its network's pool. */
  ghost predicate GatewaysRecorded(st: State) {
    forall id :: id in st.nodes ==>
      && st.nodes[id].gatewayIp == Gateway(st.pools, st.nodes[id].network)
      && st.nodes[id].subnet == Subnet(st.pools, st.nodes[id].network)
  }

  lemma GatewayGrown(before: map<string, Pool>, after: map<string, Pool>, n: string)
    requires Grown(before, after) && n in before
    ensures Gateway(after, n) == Gateway(before, n) && Subnet(after, n) == Subnet(before, n)
  {
    hide UintToIp;
  }

  lemma NextGateways(c: Config, st: State, e: Event, now: int)
    requires ConfigOk(c) && Pooled(st) && GatewaysRecorded(st)
    ensures GatewaysRecorded(Next(c, st, e, now))
  {
    hide Auth, Gateway, Subnet, PoolInv, ConfigOk, Ends, Grown, Next;
    var end := Next(c, st, e, now);
    NextPooled(c, st, e, now);
    if e.NodeAuth? && e.id != "" {
      AuthNext(c, st, e, now);
      AuthIs(c, st, e.sid, e.id, e.network, e.publicKey, e.admin, e.rowSubnet, now);
    } else if e.NodeAuth? {
      AuthNobody(c, st, e, now);
    } else {
      OthersKeepNodes(c, st, e, now);
    }
    forall id | id in end.nodes && !(e.NodeAuth? && id == e.id && e.id != "")
      ensures end.nodes[id].gatewayIp == Gateway(end.pools, end.nodes[id].network)
      ensures end.nodes[id].subnet == Subnet(end.pools, end.nodes[id].network)
    {
      GatewayGrown(st.pools, end.pools, st.nodes[id].network);
    }
  }

  lemma AuthNext(c: Config, st: State, e: Event, now: int)
    requires e.NodeAuth?
    ensures Next(c, st, e, now) == Auth(c, st, e.sid, e.id, e.network, e.publicKey, e.admin, e.rowSubnet, now)
  {
    hide Auth;
  }

  /** In every reachable state, moves included, the gateway and the subnet recorded with a node are its network's. */
  lemma {:induction false} GatewaysStayRecorded(c: Config, st: State, events: seq<(Event, int)>)
    requires ConfigOk(c) && Pooled(st) && GatewaysRecorded(st)
    ensures Pooled(Run(c, st, events)) && GatewaysRecorded(Run(c, st, events))
    decreases events
  {
    hide Next, Pooled, GatewaysRecorded, ConfigOk;
    if events != [] {
      NextPooled(c, st, events[0].0, events[0].1);
      NextGateways(c, st, events[0].0, events[0].1);
      GatewaysStayRecorded(c, Next(c, st, events[0].0, events[0].1), events[1..]);
    }
  }
}
