/**
 What the control server tells of a node it has registered, field by field: what the latest event of the right kind
 left there (src/nat/node_registry.cpp, src/nat/session_manager.cpp, src/http/http_server.cpp).
 */
module Records {
  import Allocator
  import opened Basics
  import opened ControlPlane
  import opened Ip
  import opened Liveness

  // ----- The latest events of a history -----

  function Last(h: History): (r: (Event, int))
    requires h != []
  {
    h[|h| - 1]
  }

  function Before(h: History): (r: History)
    requires h != []
  {
    h[..|h| - 1]
  }

  /** The latest event is an authentication of the node that was accepted. */
  predicate Joins(c: Config, db: Database, h: History, n: string) { h != [] && Accepted(c, db, h, |h| - 1, n) }

  predicate Present(c: Config, db: Database, h: History, n: string) { n in At(c, db, h).nodes }

  /** Of the node's accepted authentications and the closings of its TLS session, the latest is an authentication. */
  predicate InSession(c: Config, db: Database, h: History, n: string)
    decreases |h|
  {
    h != [] && (Joins(c, db, h, n) || (Last(h).0 != WssClosed(n) && InSession(c, db, Before(h), n)))
  }

  /** The session and the public key of the latest accepted authentication. */
  function LatestLogin(c: Config, db: Database, h: History, n: string): (r: (nat, string))
    decreases |h|
  {
    if h == [] then (0, "")
    else if Joins(c, db, h, n) then (Last(h).0.sid, Last(h).0.publicKey)
    else LatestLogin(c, db, Before(h), n)
  }

  /** The latest address update since the latest accepted authentication. */
  function LatestAddress(c: Config, db: Database, h: History, n: string): (r: (string, int, seq<string>))
    decreases |h|
  {
    if h == [] || Joins(c, db, h, n) then ("", 0, [])
    else match Last(h).0
      case AddressUpdate(id, ip, port, addrs) =>
        if id == n then (ip, port, addrs) else LatestAddress(c, db, Before(h), n)
      case _ => LatestAddress(c, db, Before(h), n)
  }

  /**
   The transport the node reported last since it joined, unknown once its TLS session closed. Authenticating again keeps
   it, unless it is empty.
   */
  function LatestTransport(c: Config, db: Database, h: History, n: string): (r: string)
    decreases |h|
  {
    if h == [] then "unknown"
    else if Joins(c, db, h, n) then
      if Present(c, db, Before(h), n) && LatestTransport(c, db, Before(h), n) != "" then
        LatestTransport(c, db, Before(h), n)
      else "unknown"
    else match Last(h).0
      case TransportStatus(id, mode, _) => if id == n then mode else LatestTransport(c, db, Before(h), n)
      case WssClosed(id) => if id == n then "unknown" else LatestTransport(c, db, Before(h), n)
      case _ => LatestTransport(c, db, Before(h), n)
  }

  /** The positive round-trip time it reported last since it joined. */
  function LatestRtt(c: Config, db: Database, h: History, n: string): (r: int)
    decreases |h|
  {
    if h == [] || (Joins(c, db, h, n) && !Present(c, db, Before(h), n)) then 0
    else match Last(h).0
      case TransportStatus(id, _, rtt) => if id == n && rtt > 0 then rtt else LatestRtt(c, db, Before(h), n)
      case _ => LatestRtt(c, db, Before(h), n)
  }

  /** How often it has authenticated since it joined while it was registered without a session. */
  function Reconnects(c: Config, db: Database, h: History, n: string): (r: nat)
    decreases |h|
  {
    if h == [] then 0
    else if Joins(c, db, h, n) then
      if !Present(c, db, Before(h), n) then 0
      else Reconnects(c, db, Before(h), n) + (if InSession(c, db, Before(h), n) then 0 else 1)
    else Reconnects(c, db, Before(h), n)
  }

  /** What the server tells of a registered node. */
  ghost predicate Recorded(c: Config, db: Database, h: History, n: string)
    requires Present(c, db, h, n)
  {
    var st := At(c, db, h);
    var node := st.nodes[n];
    var (sid, key) := LatestLogin(c, db, h, n);
    && (n in st.sessions <==> InSession(c, db, h, n)) && (n in st.sessions ==> st.sessions[n] == sid)
    && node.sessionOnline == InSession(c, db, h, n) && node.publicKey == key
    && node.connectionState == (if InSession(c, db, h, n) then "online" else "grace")
    && node.disconnectReason == (if InSession(c, db, h, n) then "" else "ws_disconnected")
    && (node.publicIp, node.publicPort, node.localAddrs) == LatestAddress(c, db, h, n)
    && node.transport == LatestTransport(c, db, h, n) && node.rtt == LatestRtt(c, db, h, n)
    && node.reconnects == Reconnects(c, db, h, n)
  }

  // ----- One event -----

  /** The entry an accepted authentication leaves. */
  lemma AuthRecords(c: Config, st: State, e: Event, now: int)
    requires e.NodeAuth? && Accepts(c, st, e, now)
    ensures var end := Next(c, st, e, now);
            && e.id in end.nodes && e.id in end.sessions && end.sessions[e.id] == e.sid
            && var node := end.nodes[e.id];
            && node.sessionOnline && node.publicKey == e.publicKey && node.connectionState == "online"
            && node.disconnectReason == "" && (node.publicIp, node.publicPort, node.localAddrs) == ("", 0, [])
            && node.transport
               == (if e.id in st.nodes && st.nodes[e.id].transport != "" then st.nodes[e.id].transport else "unknown")
            && node.rtt == (if e.id in st.nodes then st.nodes[e.id].rtt else 0)
            && node.reconnects
               == (if e.id !in st.nodes then 0
                   else st.nodes[e.id].reconnects + if st.nodes[e.id].sessionOnline then 0 else 1)
  {
    hide Persist, EnsurePool, Grant, AssignThrows, Gateway, Subnet;
  }

  /** An event leaves every node but its own alone, unless it is a check. */
  lemma OthersStay(c: Config, st: State, e: Event, now: int, n: string)
    requires !e.Check? && e.id != n
    ensures var end := Next(c, st, e, now);
            && (n in end.nodes <==> n in st.nodes) && (n in st.nodes ==> end.nodes[n] == st.nodes[n])
            && (n in end.sessions <==> n in st.sessions) && (n in st.sessions ==> end.sessions[n] == st.sessions[n])
  {
    hide AssignVirtualIp, Persist, AssignThrows;
  }

  lemma RefusedStays(c: Config, st: State, e: Event, now: int)
    requires e.NodeAuth? && !Accepts(c, st, e, now)
    ensures var end := Next(c, st, e, now); end.nodes == st.nodes && end.sessions == st.sessions
  {
    hide AssignVirtualIp, Persist, AssignThrows;
  }

  lemma CheckStays(c: Config, st: State, now: int, n: string)
    requires n in Next(c, st, Check, now).nodes
    ensures var end := Next(c, st, Check, now);
            && n in st.nodes && end.nodes[n] == st.nodes[n] && (n in end.sessions <==> n in st.sessions)
            && (n in st.sessions ==> end.sessions[n] == st.sessions[n])
  {
    hide TimedOut;
  }

  /** In a state where sessions and registry agree, what the node's own events do to its entry. */
  lemma OwnEvent(c: Config, st: State, e: Event, now: int)
    requires Agree(st) && !e.Check? && !e.NodeAuth? && e.id in st.nodes
    ensures var end, was := Next(c, st, e, now), st.nodes[e.id];
            && e.id in end.nodes
            && var node := end.nodes[e.id];
            && (e.id in end.sessions <==> e.id in st.sessions && !e.WssClosed?)
            && (e.id in end.sessions ==> end.sessions[e.id] == st.sessions[e.id])
            && node.sessionOnline == (was.sessionOnline && !e.WssClosed?)
            && node.connectionState == (if e.WssClosed? then "grace" else was.connectionState)
            && (node.disconnectReason == was.disconnectReason
                || (node.disconnectReason == "ws_disconnected" && !node.sessionOnline))
            && (e.WssClosed? ==> node.disconnectReason == "ws_disconnected")
            && node.publicKey == was.publicKey && node.reconnects == was.reconnects
            && (node.publicIp, node.publicPort, node.localAddrs)
               == (if e.AddressUpdate? then (e.ip, e.port, e.addrs)
                   else (was.publicIp, was.publicPort, was.localAddrs))
            && node.transport
               == (if e.TransportStatus? then e.mode else if e.WssClosed? then "unknown" else was.transport)
            && node.rtt == (if e.TransportStatus? && e.rtt > 0 then e.rtt else was.rtt)
  {
    hide Auth, Sweep;
  }

  // ----- Over a run -----

  /** In every reachable state every entry tells what the history says. */
  lemma {:induction false} EntryIsRecorded(c: Config, db: Database, h: History, n: string)
    requires Present(c, db, h, n)
    ensures Recorded(c, db, h, n)
    decreases |h|
  {
    hide Recorded, At, Next, Agree;
    if h == [] {
      assert h[..0] == h;
      NobodyAtFirst(c, db, h, n);
    } else {
      var k := |h| - 1;
      assert h[..k + 1] == h;
      AtStep(c, db, h, k);
      if Present(c, db, Before(h), n) {
        EntryIsRecorded(c, db, Before(h), n);
      }
      RecordStep(c, db, h, n);
    }
  }

  lemma RecordStep(c: Config, db: Database, h: History, n: string)
    requires h != [] && Present(c, db, h, n)
    requires At(c, db, h) == Next(c, At(c, db, Before(h)), Last(h).0, Last(h).1) && Agree(At(c, db, Before(h)))
    requires Present(c, db, Before(h), n) ==> Recorded(c, db, Before(h), n)
    ensures Recorded(c, db, h, n)
  {
    hide At, Next, Agree, Accepts;
    var st, e, now := At(c, db, Before(h)), Last(h).0, Last(h).1;
    if e.Check? {
      CheckStays(c, st, now, n);
    } else if e.id != n {
      OthersStay(c, st, e, now, n);
    } else if !e.NodeAuth? {
      OthersSee(c, st, e, now, n);
      OwnEvent(c, st, e, now);
    } else if Accepts(c, st, e, now) {
      AuthRecords(c, st, e, now);
    } else {
      RefusedStays(c, st, e, now);
    }
  }

  // ----- The database -----

  /**
   What is stored: with a bootstrap admin an authentication leaves the node's row with the address it is registered with
   and makes it a member of its network; nothing else changes any row.
   */
  lemma PersistedIs(c: Config, st: State, e: Event, now: int)
    requires ConfigOk(c) && Pooled(st)
    ensures var end := Next(c, st, e, now);
            if e.NodeAuth? && e.id != "" && e.admin then
              && e.id in end.nodes && end.db.members == st.db.members + {(Normal(e.network), e.id)}
              && end.db.devices == st.db.devices[e.id := end.nodes[e.id].virtualIp]
            else end.db == st.db
  {
    hide Grant, EnsurePool, Allocator.PoolInv, Subnet, Gateway, Allocator.ParseCidr, TimedOut;
    if e.NodeAuth? && e.id != "" {
      var net := Normal(e.network);
      EnsurePoolIs(c, st.pools, net);
      GrantIs(EnsurePool(c, st.pools, net), net);
      var (pools, info) := AssignVirtualIp(c, st, e.id, e.network, e.publicKey, now);
      RowIs(pools, st.db, e.id, info, e.admin, e.rowSubnet);
      RegisteredIs(st.nodes, e.id, info, now);
      hide AssignVirtualIp, Persist, RegisterNode, UpdateSessionState;
    }
  }

  lemma RowIs(pools: map<string, Allocator.Pool>, db: Database, id: string, info: Node, admin: bool, rowSubnet: string)
    requires info.network in pools && (info.virtualIp == "" ==> Grant(pools, info.network) == (pools, ""))
    ensures var (_, after, thrown) := Persist(pools, db, id, info, admin, rowSubnet);
            && !thrown && after.members == (if admin then db.members + {(info.network, id)} else db.members)
            && after.devices == (if admin then db.devices[id := info.virtualIp] else db.devices)
  {
    hide Grant;
    if admin && (info.network, id) in db.members {
      assert db.members + {(info.network, id)} == db.members;
    }
  }

  /**
   An authentication that names a node and is not accepted left no node, session or pool changed. Either the network's
   CIDR has no number, and then nothing changed at all; or only the row's has none, and then the node has a row without
   an address and is a member.
   */
  lemma ThrownIs(c: Config, st: State, e: Event, now: int)
    requires e.NodeAuth? && e.id != "" && !Accepts(c, st, e, now)
    ensures var end, net := Next(c, st, e, now), Normal(e.network);
            && end == st.(db := end.db) && net !in st.pools
            && if Allocator.ParseCidr(c.CidrOf(net)).Thrown? then end == st
               else
                 && e.admin && Allocator.ParseCidr(e.rowSubnet).Thrown? && (net, e.id) !in st.db.members
                 && end.db.members == st.db.members + {(net, e.id)} && end.db.devices == st.db.devices[e.id := ""]
  {
    hide Allocator.ParseCidr, Allocator.MakePool, Allocator.Take, RegisterNode, UpdateSessionState, Gateway, Subnet;
  }

  /**
   What joining a network does to a known device that is not a member yet: it becomes one; an address it has it keeps,
   and one without gets an address the network's pool could still grant, and nobody else can then be granted, if there
   is one.
   */
  lemma JoinOutcome(pools: map<string, Allocator.Pool>, db: Database, network: string, rowSubnet: string, id: string)
    requires network in pools && Allocator.PoolInv(pools[network])
    ensures var (after, rows, thrown) := JoinNetwork(pools, db, network, rowSubnet, id);
            && !thrown && after.Keys == pools.Keys
            && (forall n :: n in pools && n != network ==> after[n] == pools[n])
            && if id !in db.devices then after == pools && rows == db
               else
                 && rows.members == db.members + {(network, id)} && id in rows.devices
                 && rows.devices == db.devices[id := rows.devices[id]]
                 && if db.devices[id] != "" || (network, id) in db.members then
                      after == pools && rows.devices == db.devices
                    else if rows.devices[id] == "" then forall ip :: ip != "" ==> !Grantable(pools[network], ip)
                    else
                      && Grantable(pools[network], rows.devices[id])
                      && !Grantable(after[network], rows.devices[id])
  {
    hide Grantable, Allocator.PoolInv, Allocator.Take;
    GrantIs(pools, network);
    FullExactly(pools, network);
    if id in db.devices && (network, id) in db.members {
      assert db.members + {(network, id)} == db.members;
    }
  }

  lemma FullExactly(pools: map<string, Allocator.Pool>, network: string)
    requires network in pools && Allocator.PoolInv(pools[network])
    ensures Grant(pools, network).1 == "" ==> forall ip :: !Grantable(pools[network], ip)
  {
    hide UintToIp, IpToUint;
    var x := Allocator.Take(pools[network]).1;
    if x.Some? {
      PrintInjective(x.value, x.value);
    }
  }
}
