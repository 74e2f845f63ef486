/**
 Sessions and the registry together: what the late callback of a session that has been replaced does to the
 newer one (src/ws/ws_session.cpp, src/ws/wss_session.cpp, src/nat/session_manager.cpp, src/http/http_server.cpp).
 */
module Lifecycle {
  import opened Allocator
  import opened Basics
  import opened ControlPlane
  import Liveness
  import Records
  import SessionQueue

  /**
   The server's state, the node each logged-in session speaks for, and the sessions unmapped without being replaced.
   */
  datatype World = World(st: ControlPlane.State, who: map<nat, string>, dropped: set<nat>)

  datatype Happening =
    | Login(sid: nat, id: string, network: string, publicKey: string, admin: bool, rowSubnet: string)
    | Fails(sid: nat, path: SessionQueue.Path, aborted: bool, tls: bool)
    | Elsewhere(e: ControlPlane.Event)

  /** Heartbeats, address and transport updates, and the sweep. */
  predicate NoSession(e: ControlPlane.Event) { e.Heartbeat? || e.AddressUpdate? || e.TransportStatus? || e.Check? }

  /** Sessions that were mapped and are not any more, nor replaced. */
  function Unmapped(before: ControlPlane.State, after: ControlPlane.State): (r: set<nat>) {
    set id | id in before.sessions && id !in after.sessions :: before.sessions[id]
  }

  /** A session logs in once; one that has not logged in reports nothing. */
  function Next(c: Config, w: World, h: Happening, now: int): (r: World) {
    match h
    case Login(sid, id, network, key, admin, rowSubnet) =>
      if sid in w.who then w
      else
        var st := Auth(c, w.st, sid, id, network, key, admin, rowSubnet, now);
        World(st, if id in st.sessions && st.sessions[id] == sid then w.who[sid := id] else w.who, w.dropped)
    case Fails(sid, path, aborted, tls) =>
      if sid in w.who && SessionQueue.Reports(path, aborted, sid in w.st.stale, w.who[sid]) then
        var st := if tls then WssDisconnect(w.st, w.who[sid], now) else WsDisconnect(w.st, w.who[sid], now);
        World(st, w.who, w.dropped + Unmapped(w.st, st))
      else w
    case Elsewhere(e) =>
      if NoSession(e) then
        var st := ControlPlane.Next(c, w.st, e, now);
        World(st, w.who, w.dropped + Unmapped(w.st, st))
      else w
  }

  function Run(c: Config, w: World, hs: seq<(Happening, int)>): (r: World)
    decreases hs
  {
    if hs == [] then w else Run(c, Next(c, w, hs[0].0, hs[0].1), hs[1..])
  }

  function Opening(c: Config, db: Database): (r: World) { World(Started(c, db), map[], {}) }

  predicate Mapped(w: World, sid: nat)
    requires sid in w.who
  {
    w.who[sid] in w.st.sessions && w.st.sessions[w.who[sid]] == sid
  }

  /** Every session that has logged in is exactly one of: mapped, told it was replaced, or dropped. */
  ghost predicate Accounted(w: World) {
    && Agree(w.st)
    && (forall id :: id in w.st.sessions ==> w.st.sessions[id] in w.who && w.who[w.st.sessions[id]] == id)
    && w.st.stale <= w.who.Keys && w.dropped <= w.who.Keys
    && (forall sid :: sid in w.who ==> w.who[sid] != "")
    && (forall sid :: sid in w.who && Mapped(w, sid) ==> sid !in w.st.stale && sid !in w.dropped)
    && (forall sid :: sid in w.who && !Mapped(w, sid) ==> (sid in w.st.stale <==> sid !in w.dropped))
  }

  lemma AuthSessions(c: Config, st: ControlPlane.State, sid: nat, id: string, network: string, key: string,
      admin: bool, rowSubnet: string, now: int)
    ensures var end := Auth(c, st, sid, id, network, key, admin, rowSubnet, now);
            || (end.sessions == st.sessions && end.stale == st.stale)
            || (&& id != "" && end.sessions == st.sessions[id := sid]
                && end.stale == st.stale + if id in st.sessions then {st.sessions[id]} else {})
  {
    hide AssignVirtualIp, Persist, AssignThrows;
  }

  lemma LoginKeeps(c: Config, w: World, h: Happening, now: int)
    requires Accounted(w) && h.Login?
    ensures Accounted(Next(c, w, h, now))
  {
    hide Agree, Auth;
    if h.sid !in w.who {
      AuthSessions(c, w.st, h.sid, h.id, h.network, h.publicKey, h.admin, h.rowSubnet, now);
      AuthAgrees(c, w.st, h.sid, h.id, h.network, h.publicKey, h.admin, h.rowSubnet, now);
    }
  }

  /** Dropping sessions from the map keeps the account. */
  lemma DropKeeps(w: World, st: ControlPlane.State)
    requires Accounted(w) && Agree(st) && st.stale == w.st.stale
    requires forall id :: id in st.sessions ==> id in w.st.sessions && st.sessions[id] == w.st.sessions[id]
    ensures Accounted(World(st, w.who, w.dropped + Unmapped(w.st, st)))
  {
    hide Agree;
    var w' := World(st, w.who, w.dropped + Unmapped(w.st, st));
    forall sid | sid in w.who
      ensures sid in Unmapped(w.st, st) <==> Mapped(w, sid) && !Mapped(w', sid)
    {
    }
  }

  lemma NextKeeps(c: Config, w: World, h: Happening, now: int)
    requires Accounted(w)
    ensures Accounted(Next(c, w, h, now))
  {
    hide Accounted, WsDisconnect, WssDisconnect, ControlPlane.Next;
    match h
    case Login(_, _, _, _, _, _) => LoginKeeps(c, w, h, now);
    case Fails(sid, path, aborted, tls) =>
      if sid in w.who {
        AccountedAgrees(w);
        WsDisconnectAgrees(w.st, w.who[sid], now);
        WssDisconnectAgrees(w.st, w.who[sid], now);
        DisconnectsDrop(w.st, w.who[sid], now);
        DropKeeps(w, if tls then WssDisconnect(w.st, w.who[sid], now) else WsDisconnect(w.st, w.who[sid], now));
      }
    case Elsewhere(e) =>
      if NoSession(e) {
        AccountedAgrees(w);
        NextAgrees(c, w.st, e, now);
        ElsewhereDrops(c, w.st, e, now);
        DropKeeps(w, ControlPlane.Next(c, w.st, e, now));
      }
  }

  lemma AccountedAgrees(w: World)
    requires Accounted(w)
    ensures Agree(w.st)
  {
    hide Agree;
  }

  /** st's map holds nothing that was not mapped. */
  ghost predicate Fewer(st: ControlPlane.State, before: ControlPlane.State) {
    st.stale == before.stale && forall id :: id in st.sessions ==>
        id in before.sessions && st.sessions[id] == before.sessions[id]
  }

  lemma DisconnectsDrop(st: ControlPlane.State, id: string, now: int)
    ensures Fewer(WsDisconnect(st, id, now), st) && Fewer(WssDisconnect(st, id, now), st)
  {
  }

  lemma ElsewhereDrops(c: Config, st: ControlPlane.State, e: ControlPlane.Event, now: int)
    requires NoSession(e)
    ensures Fewer(ControlPlane.Next(c, st, e, now), st)
  {
    hide TimedOut;
  }

  lemma {:induction false} RunKeeps(c: Config, w: World, hs: seq<(Happening, int)>)
    requires Accounted(w)
    ensures Accounted(Run(c, w, hs))
    decreases hs
  {
    hide Accounted, Next;
    if hs != [] {
      NextKeeps(c, w, hs[0].0, hs[0].1);
      RunKeeps(c, Next(c, w, hs[0].0, hs[0].1), hs[1..]);
    }
  }

  lemma OpeningAccounted(c: Config, db: Database)
    ensures Accounted(Opening(c, db))
  {
    hide ParseCidr;
  }

  /**
   The late callback of a session whose node has a newer one, in every reachable state. Over TLS it takes the newer
   session offline exactly when the write path reports an error that is no abort, or when the old session was
   dropped by a sweep or a disconnect before the newer one registered, so that it was never told, and its read or
   its heartbeat timer reports. On a plain connection it changes nothing.
   */
  lemma LateCallback(c: Config, db: Database, hs: seq<(Happening, int)>, sid: nat, path: SessionQueue.Path,
      aborted: bool, tls: bool, now: int)
    requires var w := Run(c, Opening(c, db), hs);
             sid in w.who && w.who[sid] in w.st.sessions && w.st.sessions[w.who[sid]] != sid
    ensures var w := Run(c, Opening(c, db), hs);
            var id := w.who[sid];
            var end := Next(c, w, Fails(sid, path, aborted, tls), now).st;
            var offline := tls && (if path.WritePath? then !aborted
                else sid in w.dropped && (path.ReadPath? ==> !aborted));
            && (if offline then id !in end.sessions && id in end.nodes && !end.nodes[id].sessionOnline
                && end.nodes[id].connectionState == "grace"
                else end == w.st)
            && (sid in w.dropped <==> sid !in w.st.stale)
  {
    hide Run, Opening, ParseCidr;
    OpeningAccounted(c, db);
    RunKeeps(c, Opening(c, db), hs);
  }

  // ----- Both ways it happens -----

  /** A session that has not logged in and names a node is mapped, and the one it replaces told. */
  lemma LoginIsMapped(c: Config, w: World, sid: nat, id: string, now: int)
    requires ConfigOk(c) && Pooled(w.st) && sid !in w.who && id != ""
    ensures var end := Next(c, w, Login(sid, id, "", "", false, ""), now);
            && Pooled(end.st) && end.who == w.who[sid := id] && Mapped(end, sid) && end.dropped == w.dropped
            && end.st.stale == w.st.stale + (if id in w.st.sessions then {w.st.sessions[id]} else {})
            && id in end.st.nodes && end.st.nodes[id].online && end.st.nodes[id].lastSeen == now
  {
    hide Auth, Pooled, ConfigOk, Liveness.Accepts;
    var e := NodeAuth(sid, id, "", "", false, "");
    assert ControlPlane.Next(c, w.st, e, now) == Auth(c, w.st, sid, id, "", "", false, "", now);
    AuthSessions(c, w.st, sid, id, "", "", false, "", now);
    NextPooled(c, w.st, e, now);
    Liveness.NothingThrows(c, w.st, e, now);
    Records.AuthRecords(c, w.st, e, now);
    AcceptedMarks(c, w.st, e, now);
  }

  lemma AcceptedMarks(c: Config, st: ControlPlane.State, e: ControlPlane.Event, now: int)
    requires e.NodeAuth? && Liveness.Accepts(c, st, e, now)
    ensures var end := ControlPlane.Next(c, st, e, now);
            && end.stale == st.stale + (if e.id in st.sessions then {st.sessions[e.id]} else {})
            && e.id in end.nodes && end.nodes[e.id].online && end.nodes[e.id].lastSeen == now
  {
    hide AssignVirtualIp, Persist, AssignThrows;
  }

  lemma RunOne(c: Config, w: World, h: (Happening, int), rest: seq<(Happening, int)>)
    ensures Run(c, w, [h] + rest) == Run(c, Next(c, w, h.0, h.1), rest)
  {
    hide Next;
    assert ([h] + rest)[1..] == rest;
  }

  lemma OpeningPooled(c: Config, db: Database)
    requires ConfigOk(c)
    ensures Pooled(Opening(c, db).st)
  {
    hide Addressed, Pooled, Started;
    StartedAddressed(c, db);
    AddressedIsPooled(Started(c, db));
  }

  /** Two logins of one node: a failing write of the first, over TLS, then takes the second offline; no read does. */
  lemma ReplacedIsHit(c: Config, db: Database, now: int)
    requires ConfigOk(c)
    ensures var hs := [(Login(1, "n", "", "", false, ""), now)] + [(Login(2, "n", "", "", false, ""), now)];
            var w := Run(c, Opening(c, db), hs);
            && "n" in w.st.sessions && w.st.sessions["n"] == 2
            && "n" !in Next(c, w, Fails(1, SessionQueue.WritePath, false, true), now).st.sessions
            && Next(c, w, Fails(1, SessionQueue.ReadPath, false, true), now).st == w.st
  {
    hide Next, Run, ConfigOk, Opening, Pooled, Started;
    var first, second := Login(1, "n", "", "", false, ""), Login(2, "n", "", "", false, "");
    var w0 := Opening(c, db);
    OpeningPooled(c, db);
    OpeningEmpty(c, db);
    LoginIsMapped(c, w0, 1, "n", now);
    var w1 := Next(c, w0, first, now);
    LoginIsMapped(c, w1, 2, "n", now);
    RunOne(c, w0, (first, now), [(second, now)]);
    RunOne(c, w1, (second, now), []);
    assert [(second, now)] + [] == [(second, now)];
    RunNone(c, Next(c, w1, second, now));
    LateCallback(c, db, [(first, now)] + [(second, now)], 1, SessionQueue.WritePath, false, true, now);
    LateCallback(c, db, [(first, now)] + [(second, now)], 1, SessionQueue.ReadPath, false, true, now);
  }

  lemma RunNone(c: Config, w: World)
    ensures Run(c, w, []) == w
  {
  }

  lemma OpeningEmpty(c: Config, db: Database)
    ensures var w := Opening(c, db); w.who == map[] && w.dropped == {} && w.st.sessions == map[] && w.st.stale == {}
  {
    hide ParseCidr;
  }

  /** A login that goes silent and is swept, and then another: the first one was not told, and its failing read hits. */
  lemma DroppedIsHit(c: Config, db: Database, start: int, later: int)
    requires ConfigOk(c) && later >= start && later - start >= c.timeout * SECOND
    ensures var hs := [(Login(1, "n", "", "", false, ""), start)]
                      + ([(Elsewhere(Check), later)] + [(Login(2, "n", "", "", false, ""), later)]);
            var w := Run(c, Opening(c, db), hs);
            && "n" in w.st.sessions && w.st.sessions["n"] == 2
            && "n" !in Next(c, w, Fails(1, SessionQueue.ReadPath, false, true), later).st.sessions
  {
    hide Next, Run, ConfigOk, Opening, Pooled, Started, ControlPlane.Next;
    var first, second := Login(1, "n", "", "", false, ""), Login(2, "n", "", "", false, "");
    var swept := [(Elsewhere(Check), later)];
    var w0 := Opening(c, db);
    OpeningPooled(c, db);
    OpeningEmpty(c, db);
    LoginIsMapped(c, w0, 1, "n", start);
    var w1 := Next(c, w0, first, start);
    SweptOut(c, w1, "n", start, later);
    var w2 := Next(c, w1, Elsewhere(Check), later);
    LoginIsMapped(c, w2, 2, "n", later);
    RunOne(c, w0, (first, start), swept + [(second, later)]);
    RunOne(c, w1, (Elsewhere(Check), later), [(second, later)]);
    RunOne(c, w2, (second, later), []);
    assert [(second, later)] + [] == [(second, later)];
    RunNone(c, Next(c, w2, second, later));
    LateCallback(c, db, [(first, start)] + (swept + [(second, later)]), 1, SessionQueue.ReadPath, false, true, later);
  }

  lemma SweptOut(c: Config, w: World, id: string, start: int, later: int)
    requires ConfigOk(c) && Pooled(w.st)
    requires id in w.st.sessions && id in w.st.nodes && w.st.nodes[id].online && w.st.nodes[id].lastSeen == start
    requires later >= start && later - start >= c.timeout * SECOND
    ensures var end := Next(c, w, Elsewhere(Check), later);
            && id !in end.st.sessions && end.st.stale == w.st.stale && end.who == w.who && Pooled(end.st)
            && w.st.sessions[id] in end.dropped
  {
    hide ConfigOk, Pooled;
    Liveness.TimedOutIs(w.st.nodes[id], later, c.timeout);
    NextPooled(c, w.st, Check, later);
    hide TimedOut;
  }
}
