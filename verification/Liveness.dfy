/**
 Whom the control server keeps: the registry and its heartbeat sweep (src/nat/node_registry.cpp,
 src/nat/heartbeat_monitor.cpp, src/http/http_server.cpp), said by the history of events and their times alone.
 */
module Liveness {
  import Allocator
  import opened Basics
  import opened ControlPlane

  /** Everything that has happened at the server, with the time of each event. */
  type History = seq<(Event, int)>

  function At(c: Config, db: Database, h: History): (r: State) { Run(c, Started(c, db), h) }

  /** The clock is monotonic. */
  predicate Timed(h: History) {
    forall i, j :: 0 <= i < j < |h| ==> h[i].1 <= h[j].1
  }

  /** Whether an authentication goes through: it names a node, and no number parser throws on the way. */
  predicate Accepts(c: Config, st: State, e: Event, now: int)
    requires e.NodeAuth?
  {
    && e.id != "" && !AssignThrows(c, st.pools, Normal(e.network))
    && var (pools, info) := AssignVirtualIp(c, st, e.id, e.network, e.publicKey, now);
       !Persist(pools, st.db, e.id, info, e.admin, e.rowSubnet).2
  }

  predicate Accepted(c: Config, db: Database, h: History, k: nat, n: string) {
    && k < |h| && h[k].0.NodeAuth? && h[k].0.id == n
    && Accepts(c, At(c, db, h[..k]), h[k].0, h[k].1)
  }

  /** Accepted authentications, heartbeats and address updates of the node. */
  predicate Renews(c: Config, db: Database, h: History, k: nat, n: string) {
    || Accepted(c, db, h, k, n)
    || (k < |h| && (h[k].0.Heartbeat? || h[k].0.AddressUpdate?) && h[k].0.id == n)
  }

  /** Since `from` the node was renewed less than the timeout before the check at `s`. */
  predicate Fresh(c: Config, db: Database, h: History, n: string, from: nat, s: nat)
    requires s < |h|
  {
    exists j: nat :: from <= j < s && Renews(c, db, h, j, n) && h[s].1 - h[j].1 < c.timeout * SECOND
  }

  /** Authenticated at `from`, and fresh at every check since. */
  predicate AliveSince(c: Config, db: Database, h: History, n: string, from: nat) {
    && Accepted(c, db, h, from, n)
    && forall s :: from < s < |h| && h[s].0.Check? ==> Fresh(c, db, h, n, from, s)
  }

  ghost predicate Alive(c: Config, db: Database, h: History, n: string) {
    exists from: nat :: AliveSince(c, db, h, n, from)
  }

  // ----- One event -----

  lemma TimedOutIs(n: Node, now: int, timeout: int)
    requires n.online && n.lastSeen <= now
    ensures TimedOut(n, now, timeout) <==> now - n.lastSeen >= timeout * SECOND
  {
  }

  lemma AuthSees(c: Config, st: State, e: Event, now: int, n: string)
    requires e.NodeAuth?
    ensures var end := Next(c, st, e, now);
            if Accepts(c, st, e, now) && e.id == n then n in end.nodes && end.nodes[n].lastSeen == now
            else (n in end.nodes <==> n in st.nodes) && (n in st.nodes ==> end.nodes[n] == st.nodes[n])
  {
    hide AssignVirtualIp, Persist, AssignThrows;
  }

  lemma CheckSees(c: Config, st: State, now: int, n: string)
    requires Agree(st) && (n in st.nodes ==> st.nodes[n].lastSeen <= now)
    ensures var end := Sweep(c, st, now);
            && (n in end.nodes <==> n in st.nodes && now - st.nodes[n].lastSeen < c.timeout * SECOND)
            && (n in end.nodes ==> end.nodes[n] == st.nodes[n])
            && (n in end.sessions <==>
                n in st.sessions && now - st.nodes[n].lastSeen < c.timeout * SECOND)
            && (n in end.sessions ==> end.sessions[n] == st.sessions[n])
  {
    hide TimedOut;
    if n in st.nodes {
      TimedOutIs(st.nodes[n], now, c.timeout);
    }
  }

  /** Every other event leaves who is registered alone; heartbeats and address updates renew. */
  lemma OthersSee(c: Config, st: State, e: Event, now: int, n: string)
    requires !e.NodeAuth? && !e.Check?
    ensures var end := Next(c, st, e, now);
            && (n in end.nodes <==> n in st.nodes)
            && (n in st.nodes ==>
                end.nodes[n].lastSeen
                == if (e.Heartbeat? || e.AddressUpdate?) && e.id == n then now else st.nodes[n].lastSeen)
  {
    hide Auth, TimedOut;
  }

  // ----- Prefixes of a history -----

  lemma {:induction false} RunLast(c: Config, st: State, h: History)
    requires h != []
    ensures Run(c, st, h) == Next(c, Run(c, st, h[..|h| - 1]), h[|h| - 1].0, h[|h| - 1].1)
    decreases |h|
  {
    hide Next;
    if |h| > 1 {
      RunLast(c, Next(c, st, h[0].0, h[0].1), h[1..]);
      assert h[1..][..|h| - 2] == h[..|h| - 1][1..];
    } else {
      assert h[1..] == [] && h[..0] == [];
    }
  }

  lemma AtStep(c: Config, db: Database, h: History, k: nat)
    requires k < |h|
    ensures At(c, db, h[..k + 1]) == Next(c, At(c, db, h[..k]), h[k].0, h[k].1)
    ensures Agree(At(c, db, h[..k]))
  {
    hide Next, Started, Run;
    RunLast(c, Started(c, db), h[..k + 1]);
    assert h[..k + 1][..k] == h[..k];
    StartAgrees(c, db);
    RegistryMatchesSessions(c, Started(c, db), h[..k]);
  }

  lemma StartAgrees(c: Config, db: Database)
    ensures Agree(Started(c, db)) && Started(c, db).nodes == map[]
  {
  }

  lemma PrefixRenews(c: Config, db: Database, h: History, m: nat, k: nat, n: string)
    requires k < m <= |h|
    ensures Accepted(c, db, h[..m], k, n) == Accepted(c, db, h, k, n)
    ensures Renews(c, db, h[..m], k, n) == Renews(c, db, h, k, n)
  {
    hide Accepts, At;
    assert h[..m][..k] == h[..k];
  }

  // ----- What an entry tells -----

  /** The authentication it dates from, and the last renewal before `m`, whose time it carries. */
  ghost predicate Tells(c: Config, db: Database, h: History, m: nat, n: string, first: nat, last: nat)
    requires m <= |h|
  {
    && first <= last < m && Accepted(c, db, h, first, n)
    && (forall k :: first < k <= m ==> n in At(c, db, h[..k]).nodes)
    && Renews(c, db, h, last, n) && (forall k :: last < k < m ==> !Renews(c, db, h, k, n))
    && n in At(c, db, h[..m]).nodes && At(c, db, h[..m]).nodes[n].lastSeen == h[last].1
  }

  lemma {:induction false} EntryTells(c: Config, db: Database, h: History, m: nat, n: string)
      returns (first: nat, last: nat)
    requires Timed(h) && m <= |h| && n in At(c, db, h[..m]).nodes
    ensures Tells(c, db, h, m, n, first, last)
    decreases m
  {
    hide At, Next, Accepts, Agree, Started;
    if m == 0 {
      NobodyAtFirst(c, db, h, n);
    } else {
      var k := m - 1;
      var e := h[k].0;
      AtStep(c, db, h, k);
      if n in At(c, db, h[..k]).nodes {
        first, last := EntryTells(c, db, h, k, n);
        assert h[last].1 <= h[k].1;
        EventTells(c, db, h, k, n);
        if Renews(c, db, h, k, n) {
          last := k;
        }
      } else {
        EventTells(c, db, h, k, n);
        first, last := k, k;
      }
    }
  }

  lemma NobodyAtFirst(c: Config, db: Database, h: History, n: string)
    ensures n !in At(c, db, h[..0]).nodes
  {
    assert h[..0] == [];
    StartAgrees(c, db);
  }

  /** What the event at k makes of a node's entry. */
  lemma EventTells(c: Config, db: Database, h: History, k: nat, n: string)
    requires k < |h|
    requires n in At(c, db, h[..k]).nodes ==> At(c, db, h[..k]).nodes[n].lastSeen <= h[k].1
    ensures var st, end := At(c, db, h[..k]), At(c, db, h[..k + 1]);
            && (Accepted(c, db, h, k, n) ==> n in end.nodes)
            && (n in end.nodes && n !in st.nodes ==> Accepted(c, db, h, k, n))
            && (n in end.nodes && Renews(c, db, h, k, n) ==> end.nodes[n].lastSeen == h[k].1)
            && (n in end.nodes && !Renews(c, db, h, k, n) ==>
                n in st.nodes && end.nodes[n].lastSeen == st.nodes[n].lastSeen)
            && (n in st.nodes ==>
                (n !in end.nodes <==> h[k].0.Check? && h[k].1 - st.nodes[n].lastSeen >= c.timeout * SECOND))
  {
    hide At, Next, Accepts, Agree, Sweep;
    AtStep(c, db, h, k);
    var st := At(c, db, h[..k]);
    if h[k].0.NodeAuth? {
      AuthSees(c, st, h[k].0, h[k].1, n);
    } else if h[k].0.Check? {
      CheckSees(c, st, h[k].1, n);
      CheckIs(c, st, h[k].1);
    } else {
      OthersSee(c, st, h[k].0, h[k].1, n);
    }
  }

  lemma CheckIs(c: Config, st: State, now: int)
    ensures Next(c, st, Check, now) == Sweep(c, st, now)
  {
  }

  // ----- Who is there -----

  lemma PresentIsAlive(c: Config, db: Database, h: History, n: string, first: nat, last: nat)
    requires Timed(h) && Tells(c, db, h, |h|, n, first, last)
    ensures AliveSince(c, db, h, n, first)
  {
    hide At, Renews, Accepted;
    forall s | first < s < |h| && h[s].0.Check?
      ensures Fresh(c, db, h, n, first, s)
    {
      assert n in At(c, db, h[..s]).nodes && n in At(c, db, h[..s + 1]).nodes;
      var f, j := EntryTells(c, db, h, s, n);
      assert h[j].1 <= h[s].1;
      EventTells(c, db, h, s, n);
      AcceptedRenews(c, db, h, first, n);
      assert first <= j;
      assert Renews(c, db, h, j, n) && h[s].1 - h[j].1 < c.timeout * SECOND;
    }
  }

  lemma AcceptedRenews(c: Config, db: Database, h: History, k: nat, n: string)
    ensures Accepted(c, db, h, k, n) ==> k < |h| && Renews(c, db, h, k, n)
  {
    hide At, Accepts;
  }

  lemma {:induction false} AliveIsPresent(c: Config, db: Database, h: History, n: string, from: nat, k: nat)
    requires Timed(h) && AliveSince(c, db, h, n, from) && from < k <= |h|
    ensures n in At(c, db, h[..k]).nodes
    decreases k
  {
    hide At, Renews, Accepted;
    var s := k - 1;
    if from < s {
      AliveIsPresent(c, db, h, n, from, s);
      var f, last := EntryTells(c, db, h, s, n);
      assert h[last].1 <= h[s].1;
      EventTells(c, db, h, s, n);
      if h[s].0.Check? {
        var j: nat :| from <= j < s && Renews(c, db, h, j, n) && h[s].1 - h[j].1 < c.timeout * SECOND;
        assert j <= last && h[j].1 <= h[last].1;
      }
    } else {
      EntryBefore(c, db, h, s, n);
      EventTells(c, db, h, s, n);
    }
  }

  /** An entry is never ahead of the clock. */
  lemma EntryBefore(c: Config, db: Database, h: History, k: nat, n: string)
    requires Timed(h) && k < |h|
    ensures n in At(c, db, h[..k]).nodes ==> At(c, db, h[..k]).nodes[n].lastSeen <= h[k].1
  {
    hide At, Renews, Accepted;
    if n in At(c, db, h[..k]).nodes {
      var f, last := EntryTells(c, db, h, k, n);
      assert h[last].1 <= h[k].1;
    }
  }

  /**
   The registry holds exactly the nodes that authenticated and, at every check since, had authenticated, sent a
   heartbeat or updated their address less than the timeout before.
   */
  lemma PresentExactly(c: Config, db: Database, h: History, n: string)
    requires Timed(h)
    ensures n in At(c, db, h).nodes <==> Alive(c, db, h, n)
  {
    hide At, AliveSince, Tells;
    assert h[..|h|] == h;
    if n in At(c, db, h).nodes {
      var first, last := EntryTells(c, db, h, |h|, n);
      PresentIsAlive(c, db, h, n, first, last);
    }
    if from: nat :| AliveSince(c, db, h, n, from) {
      AliveBound(c, db, h, n, from);
      AliveIsPresent(c, db, h, n, from, |h|);
    }
  }

  lemma AliveBound(c: Config, db: Database, h: History, n: string, from: nat)
    requires AliveSince(c, db, h, n, from)
    ensures from < |h|
  {
    hide At, Accepts, Fresh;
  }

  /** With prefixes from 1 to 30 configured every authentication that names a node is accepted. */
  lemma UsualAccepts(c: Config, db: Database, h: History, k: nat, n: string)
    requires ConfigOk(c) && k < |h|
    ensures Accepted(c, db, h, k, n) <==> h[k].0.NodeAuth? && h[k].0.id == n && n != ""
  {
    hide Run, Started, ConfigOk, Pooled;
    StartedAddressed(c, db);
    AddressedIsPooled(Started(c, db));
    EveryGrantCounts(c, Started(c, db), h[..k], "");
    if h[k].0.NodeAuth? && h[k].0.id == n && n != "" {
      NothingThrows(c, At(c, db, h[..k]), h[k].0, h[k].1);
    }
  }

  lemma NothingThrows(c: Config, st: State, e: Event, now: int)
    requires ConfigOk(c) && Pooled(st) && e.NodeAuth? && e.id != ""
    ensures Accepts(c, st, e, now)
  {
    hide Grant, Persist, EnsurePool, Allocator.PoolInv, Subnet, Gateway, Allocator.ParseCidr;
    var net := Normal(e.network);
    EnsurePoolIs(c, st.pools, net);
    GrantIs(EnsurePool(c, st.pools, net), net);
    var (pools, info) := AssignVirtualIp(c, st, e.id, e.network, e.publicKey, now);
    PersistKeepsPools(pools, st.db, e.id, info, e.admin, e.rowSubnet);
  }

  /**
   A node silent for the timeout at a check is neither registered nor mapped afterwards, until it authenticates again.
   */
  lemma SilentIsGone(c: Config, db: Database, h: History, n: string, s: nat)
    requires Timed(h) && s < |h| && h[s].0.Check?
    requires forall j: nat :: j < s && Renews(c, db, h, j, n) ==> h[s].1 - h[j].1 >= c.timeout * SECOND
    requires forall k: nat :: s < k < |h| ==> !Accepted(c, db, h, k, n)
    ensures n !in At(c, db, h).nodes && n !in At(c, db, h).sessions
  {
    hide At, AliveSince, Started, Run;
    PresentExactly(c, db, h, n);
    forall from: nat
      ensures !AliveSince(c, db, h, n, from)
    {
      SilentSince(c, db, h, n, from, s);
    }
    StartAgrees(c, db);
    RegistryMatchesSessions(c, Started(c, db), h);
    AtIs(c, db, h);
  }

  lemma AtIs(c: Config, db: Database, h: History)
    ensures At(c, db, h) == Run(c, Started(c, db), h)
  {
  }

  lemma SilentSince(c: Config, db: Database, h: History, n: string, from: nat, s: nat)
    requires s < |h| && h[s].0.Check?
    requires forall j: nat :: j < s && Renews(c, db, h, j, n) ==> h[s].1 - h[j].1 >= c.timeout * SECOND
    requires forall k: nat :: s < k < |h| ==> !Accepted(c, db, h, k, n)
    ensures !AliveSince(c, db, h, n, from)
  {
    hide At, Renews, Accepts;
    assert !Fresh(c, db, h, n, from, s);
  }

  /**
   A check keeps exactly the sessions of the nodes renewed less than the timeout before it, each with its session
   object.
   */
  lemma CheckKeepsSessions(c: Config, db: Database, h: History, s: nat, n: string)
    requires Timed(h) && s < |h| && h[s].0.Check?
    ensures var st, end := At(c, db, h[..s]), At(c, db, h[..s + 1]);
            && (n in end.sessions <==> n in st.sessions && Fresh(c, db, h, n, 0, s))
            && (n in end.sessions ==> end.sessions[n] == st.sessions[n])
  {
    hide At, Renews, Accepted, Sweep, Next;
    AtStep(c, db, h, s);
    var st := At(c, db, h[..s]);
    EntryBefore(c, db, h, s, n);
    CheckSees(c, st, h[s].1, n);
    CheckIs(c, st, h[s].1);
    if n in st.nodes {
      var f, last := EntryTells(c, db, h, s, n);
      if j: nat :| 0 <= j < s && Renews(c, db, h, j, n) && h[s].1 - h[j].1 < c.timeout * SECOND {
        assert j <= last && h[j].1 <= h[last].1;
      }
      assert h[s].1 - h[last].1 < c.timeout * SECOND ==> Fresh(c, db, h, n, 0, s);
    }
  }
}
