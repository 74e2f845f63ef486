/**
 Subnets as text: what the CIDR parser of src/ipam/IpAllocator.cpp reads, and what the control server hands out
 (src/http/http_server.cpp).
 */
module Subnets {
  import opened Basics
  import opened Ip
  import opened Allocator
  import ControlPlane

  // ----- Numbers in text -----

  predicate IsBlank(c: char) { c == ' ' || 9 <= c as int <= 13 }

  /** A text as std::stoi takes it apart: blanks, a sign, digits, and whatever follows them. */
  datatype Number = Number(blanks: string, sign: string, digits: string, rest: string) {
    function Text(): (r: string) { blanks + (sign + (digits + rest)) }

    ghost predicate Valid() {
      && (forall c :: c in blanks ==> IsBlank(c)) && (forall c :: c in digits ==> IsDigit(c))
      && sign in {"", "+", "-"} && (rest != "" ==> !IsDigit(rest[0]))
      && (sign == "" && digits == "" && rest != "" ==> !IsBlank(rest[0]) && rest[0] != '+' && rest[0] != '-')
    }

    /** The number, if there is one. */
    function Meaning(): (r: int)
      requires forall c :: c in digits ==> IsDigit(c)
    {
      if sign == "-" then 0 - Value(digits) else Value(digits)
    }
  }

  lemma {:induction false} SkipIs(blanks: string, rest: string)
    requires (forall c :: c in blanks ==> IsBlank(c)) && (rest != "" ==> !IsBlank(rest[0]))
    ensures SkipBlanks(blanks + rest) == rest
  {
    if blanks == "" {
      assert blanks + rest == rest;
    } else {
      assert blanks[0] in blanks && (blanks + rest)[0] == blanks[0];
      assert (blanks + rest)[1..] == blanks[1..] + rest;
      SkipIs(blanks[1..], rest);
    }
  }

  lemma {:induction false} DigitsAre(digits: string, rest: string)
    requires (forall c :: c in digits ==> IsDigit(c)) && (rest != "" ==> !IsDigit(rest[0]))
    ensures Digits(digits + rest) == digits
  {
    if digits == "" {
      assert digits + rest == rest;
    } else {
      assert (digits + rest)[1..] == digits[1..] + rest;
      DigitsAre(digits[1..], rest);
      assert [digits[0]] + digits[1..] == digits;
    }
  }

  /** The number of a text is its digits with their sign; there is none without digits or outside 32 bits. */
  lemma StoiReads(n: Number)
    requires n.Valid()
    ensures Stoi(n.Text())
            == if n.digits == "" || !(-0x8000_0000 <= n.Meaning() < 0x8000_0000) then None else Some(n.Meaning())
  {
    hide Value, SkipBlanks, Digits;
    var t := n.sign + (n.digits + n.rest);
    assert n.digits != "" ==> n.digits[0] in n.digits;
    SkipIs(n.blanks, t);
    DigitsAre(n.digits, n.rest);
    if n.sign == "" {
      assert t == n.digits + n.rest;
    } else {
      assert t[1..] == n.digits + n.rest;
    }
  }

  /** Every text comes apart in this way. */
  lemma {:induction false} NumberOf(s: string) returns (n: Number)
    ensures n.Valid() && n.Text() == s
  {
    if s != "" && IsBlank(s[0]) {
      n := NumberOf(s[1..]);
      n := n.(blanks := [s[0]] + n.blanks);
      assert [s[0]] + s[1..] == s;
    } else if s != "" && (s[0] == '+' || s[0] == '-') {
      var digits, rest := DigitsOf(s[1..]);
      n := Number("", [s[0]], digits, rest);
      assert [s[0]] + s[1..] == s;
    } else {
      var digits, rest := DigitsOf(s);
      n := Number("", "", digits, rest);
    }
  }

  lemma {:induction false} DigitsOf(s: string) returns (digits: string, rest: string)
    ensures s == digits + rest && (forall c :: c in digits ==> IsDigit(c)) && (rest != "" ==> !IsDigit(rest[0]))
  {
    if s != "" && IsDigit(s[0]) {
      digits, rest := DigitsOf(s[1..]);
      digits := [s[0]] + digits;
    } else {
      digits, rest := "", s;
    }
  }

  // ----- CIDR text -----

  /**
   What a text means as a CIDR. Without a slash it is refused. After the first slash stands a number: without one
   that fits 32 bits the parser throws, and a number above 32 or below 0 is refused. Otherwise the address before the
   slash gives the network.
   */
  lemma CidrReads(ip: string, n: Number)
    requires '/' !in ip && n.Valid()
    ensures ParseCidr(ip) == Refused
    ensures ParseCidr(ip + "/" + n.Text())
            == if n.digits == "" || !(-0x8000_0000 <= n.Meaning() < 0x8000_0000) then Thrown
               else if 0 <= n.Meaning() <= 32 then Cidr(NetworkAddr(IpToUint(ip), n.Meaning()), n.Meaning())
               else Refused
  {
    hide Stoi, NetworkAddr, IpToUint, Value;
    var text := ip + "/" + n.Text();
    var none := IndexOf(ip, '/', 0);
    var slash := IndexOf(text, '/', 0);
    assert text[|ip|] == '/';
    assert forall i :: 0 <= i < |ip| ==> text[i] == ip[i];
    assert text[..|ip|] == ip && text[|ip| + 1..] == n.Text();
    StoiReads(n);
  }

  lemma {:induction false} DecimalIs(n: nat)
    ensures '/' !in Decimal(n) && '.' !in Decimal(n) && forall c :: c in Decimal(n) ==> IsDigit(c)
    ensures Value(Decimal(n)) == n
  {
    ValueDecimal(n);
  }

  lemma PrintedIsPlain(x: UInt32)
    ensures '/' !in UintToIp(x)
  {
    hide Decimal;
    DecimalIs(x / 256 / 256 / 256);
    DecimalIs(x / 256 / 256 % 256);
    DecimalIs(x / 256 % 256);
    DecimalIs(x % 256);
  }

  /** The network of a printed address and prefix: any prefix up to 32 is read back, any larger one is refused. */
  lemma PrintedCidr(x: UInt32, prefix: nat)
    requires prefix < 0x8000_0000
    ensures ParseCidr(UintToIp(x) + "/" + Decimal(prefix))
            == if prefix <= 32 then Cidr(NetworkAddr(x, prefix), prefix) else Refused
  {
    hide UintToIp, IpToUint, Decimal, NetworkAddr, ParseCidr;
    PrintedIsPlain(x);
    PrintInjective(x, x);
    DecimalIs(prefix);
    var n := Number("", "", Decimal(prefix), "");
    assert n.Text() == Decimal(prefix);
    CidrReads(UintToIp(x), n);
  }

  /** The configuration's default: the network of 10.0.0.0, with 253 addresses to give. */
  lemma DefaultCidr()
    ensures ParseCidr("10.0.0.0/24") == Cidr(0x0A00_0000, 24)
    ensures |ControlPlane.Free(MakePool(0x0A00_0000, 24, {}))| == 253
  {
    hide ParseCidr, MakePool, ControlPlane.Free;
    assert Decimal(24) == "24" && Decimal(10) == "10" && Decimal(0) == "0";
    assert UintToIp(0x0A00_0000) == "10.0.0.0";
    assert "10.0.0.0" + "/" + "24" == "10.0.0.0/24";
    PrintedCidr(0x0A00_0000, 24);
    assert Pow2(8) == 256;
    SubnetEnds(0x0A00_0000, 24);
    Aligned10();
    ControlPlane.FreshFree("10.0.0.0/24");
  }

  lemma Aligned10()
    ensures NetworkAddr(0x0A00_0000, 24) == 0x0A00_0000
  {
    hide And, Or;
    MasksAre(0x0A00_0000, 24);
    assert Pow2(8) == 256;
    assert Shr(0x0A00_0000, 8) == 0x0A_0000 by {
      assert Shr(0x0A00_0000, 8) == Shr(0x0A_0000_00 / 256, 0);
    }
  }

  // ----- Subnets the server hands out -----

  /** A pool's base is the network address of its prefix, and its first host address is reserved. */
  ghost predicate WellMade(p: Pool) {
    0 < p.prefix <= 32 && NetworkAddr(p.base, p.prefix) == p.base && (p.base + 1) % TWO_32 in p.taken
  }

  ghost predicate AllWellMade(pools: map<string, Pool>) { forall n :: n in pools ==> WellMade(pools[n]) }

  lemma MadeWell(text: string)
    requires ParseCidr(text).Cidr? && ParseCidr(text).prefix > 0
    ensures WellMade(MakePool(ParseCidr(text).base, ParseCidr(text).prefix, {}))
  {
    hide Stoi, NetworkAddr, BroadcastAddr, IpToUint;
    var slash := IndexOf(text, '/', 0);
    SubnetEnds(IpToUint(text[..slash.value]), ParseCidr(text).prefix);
  }

  lemma AddKeeps(pools: map<string, Pool>, network: string, cidr: string)
    requires AllWellMade(pools)
    ensures AllWellMade(ControlPlane.AddPool(pools, network, cidr))
  {
    hide ParseCidr, MakePool, WellMade;
    if ParseCidr(cidr).Cidr? && ParseCidr(cidr).prefix > 0 {
      MadeWell(cidr);
    }
  }

  lemma GrantKeeps(pools: map<string, Pool>, network: string)
    requires AllWellMade(pools)
    ensures AllWellMade(ControlPlane.Grant(pools, network).0)
  {
    hide NetworkAddr, UintToIp;
  }

  lemma JoinKeeps(pools: map<string, Pool>, db: ControlPlane.Database, network: string, rowSubnet: string, id: string)
    requires AllWellMade(pools)
    ensures AllWellMade(ControlPlane.JoinNetwork(pools, db, network, rowSubnet, id).0)
  {
    hide AllWellMade, ControlPlane.AddPool, ControlPlane.Grant, ParseCidr;
    AddKeeps(pools, network, rowSubnet);
    GrantKeeps(if network in pools then pools else ControlPlane.AddPool(pools, network, rowSubnet), network);
  }

  lemma AuthKeeps(c: ControlPlane.Config, st: ControlPlane.State, e: ControlPlane.Event, now: int)
    requires AllWellMade(st.pools) && e.NodeAuth?
    ensures AllWellMade(ControlPlane.Next(c, st, e, now).pools)
  {
    hide AllWellMade, ControlPlane.AddPool, ControlPlane.Grant, ControlPlane.JoinNetwork, ParseCidr;
    var net := ControlPlane.Normal(e.network);
    AddKeeps(st.pools, net, c.CidrOf(net));
    var pools := ControlPlane.EnsurePool(c, st.pools, net);
    GrantKeeps(pools, net);
    var (pools', info) := ControlPlane.AssignVirtualIp(c, st, e.id, e.network, e.publicKey, now);
    JoinKeeps(pools', st.db.(devices := st.db.devices[e.id := info.virtualIp]), info.network, e.rowSubnet, e.id);
  }

  lemma {:induction false} RunKeeps(c: ControlPlane.Config, st: ControlPlane.State,
      events: seq<(ControlPlane.Event, int)>)
    requires AllWellMade(st.pools)
    ensures AllWellMade(ControlPlane.Run(c, st, events).pools)
    decreases events
  {
    hide AllWellMade, ControlPlane.Next;
    if events != [] {
      var e := events[0].0;
      if e.NodeAuth? {
        AuthKeeps(c, st, e, events[0].1);
      } else {
        ControlPlane.OthersKeepNodes(c, st, e, events[0].1);
      }
      RunKeeps(c, ControlPlane.Next(c, st, e, events[0].1), events[1..]);
    }
  }

  lemma StartedWell(c: ControlPlane.Config, db: ControlPlane.Database)
    ensures AllWellMade(ControlPlane.Started(c, db).pools)
  {
    hide ParseCidr, MakePool, WellMade;
    forall n | n in c.pools && ParseCidr(c.pools[n]).Cidr? && ParseCidr(c.pools[n]).prefix > 0
      ensures WellMade(MakePool(ParseCidr(c.pools[n]).base, ParseCidr(c.pools[n]).prefix, {}))
    {
      MadeWell(c.pools[n]);
    }
  }

  /**
   Whatever is configured, in every reachable state the subnet of a network, as text, is read as its pool's network.
   */
  lemma SubnetReadsBack(c: ControlPlane.Config, db: ControlPlane.Database, events: seq<(ControlPlane.Event, int)>,
      network: string)
    requires network in ControlPlane.Run(c, ControlPlane.Started(c, db), events).pools
    ensures var pools := ControlPlane.Run(c, ControlPlane.Started(c, db), events).pools;
            ParseCidr(ControlPlane.Subnet(pools, network)) == Cidr(pools[network].base, pools[network].prefix)
  {
    hide ControlPlane.Run, ControlPlane.Started, ParseCidr, NetworkAddr, UintToIp, Decimal;
    StartedWell(c, db);
    RunKeeps(c, ControlPlane.Started(c, db), events);
    var p := ControlPlane.Run(c, ControlPlane.Started(c, db), events).pools[network];
    PrintedCidr(p.base, p.prefix);
  }

  /**
   The gateway of a network is the first host address of its subnet, reserved in its pool in every reachable state; a
   pool just made from a CIDR reserves nothing else.
   */
  lemma GatewayIsReserved(c: ControlPlane.Config, db: ControlPlane.Database, events: seq<(ControlPlane.Event, int)>,
      network: string)
    requires network in ControlPlane.Run(c, ControlPlane.Started(c, db), events).pools
    ensures var pools := ControlPlane.Run(c, ControlPlane.Started(c, db), events).pools;
            var p := pools[network];
            var x := IpToUint(ControlPlane.Gateway(pools, network));
            && ControlPlane.Gateway(pools, network) == UintToIp(x) && x in p.taken
            && (p.prefix < 32 ==> x == p.base + 1 && NetworkAddr(x, p.prefix) == p.base)
  {
    hide ControlPlane.Run, ControlPlane.Started, NetworkAddr, UintToIp, IpToUint;
    StartedWell(c, db);
    RunKeeps(c, ControlPlane.Started(c, db), events);
    var p := ControlPlane.Run(c, ControlPlane.Started(c, db), events).pools[network];
    PrintInjective((p.base + 1) % TWO_32, 0);
    if p.prefix < 32 {
      FirstHost(p.base, p.prefix);
    }
  }

  lemma FirstHost(base: UInt32, prefix: nat)
    requires 0 < prefix < 32 && NetworkAddr(base, prefix) == base
    ensures base + 1 < TWO_32 && NetworkAddr(base + 1, prefix) == base
  {
    hide And, Or;
    assert Pow2(32 - prefix) == 2 * Pow2(31 - prefix);
    SubnetEnds(base, prefix);
    MasksAre(base, prefix);
    MasksAre(base + 1, prefix);
    SameBlock(Shr(base, 32 - prefix), Shr(base + 1, 32 - prefix), Pow2(32 - prefix), base);
  }

  lemma SameBlock(q: nat, r: nat, size: nat, base: nat)
    requires size >= 2 && q * size == base && r * size <= base + 1 < r * size + size
    ensures r == q
  {
    Scaled(q + 1, r, size);
    Scaled(r + 1, q, size);
  }

  lemma Scaled(a: nat, b: nat, size: nat)
    ensures a <= b ==> a * size <= b * size
  {
  }

  lemma FreshPoolReserves(pools: map<string, Pool>, network: string, cidr: string)
    requires network !in pools && network in ControlPlane.AddPool(pools, network, cidr)
    ensures var after := ControlPlane.AddPool(pools, network, cidr);
            after[network].taken == {IpToUint(ControlPlane.Gateway(after, network))}
  {
    hide ParseCidr, BroadcastAddr, UintToIp, IpToUint;
    var base := ControlPlane.AddPool(pools, network, cidr)[network].base;
    PrintInjective((base + 1) % TWO_32, 0);
  }

  // ----- Which text a network's pool is made from -----

  /** Every pool is that of the network's own text, of the default's, or of the built-in default. */
  ghost predicate FromConfig(c: ControlPlane.Config, pools: map<string, Pool>) {
    forall n :: n in pools ==> Configured(c, n, Cidr(pools[n].base, pools[n].prefix))
  }

  predicate Configured(c: ControlPlane.Config, network: string, r: Cidr) {
    && (network in c.pools ==> r == ParseCidr(c.pools[network]))
    && (network !in c.pools && "default" in c.pools ==> r == ParseCidr(c.pools["default"]))
    && (network !in c.pools && "default" !in c.pools ==> r == Cidr(0x0A00_0000, 24))
  }

  lemma CidrIsConfigured(c: ControlPlane.Config, network: string)
    ensures Configured(c, network, ParseCidr(c.CidrOf(network)))
  {
    hide ParseCidr;
    DefaultCidr();
  }

  lemma EnsureFrom(c: ControlPlane.Config, pools: map<string, Pool>, network: string)
    requires ControlPlane.ConfigOk(c) && FromConfig(c, pools)
    ensures FromConfig(c, ControlPlane.EnsurePool(c, pools, network))
  {
    hide ParseCidr, Configured, BroadcastAddr;
    CidrIsConfigured(c, network);
  }

  lemma AuthFrom(c: ControlPlane.Config, st: ControlPlane.State, e: ControlPlane.Event, now: int)
    requires ControlPlane.ConfigOk(c) && ControlPlane.Pooled(st) && FromConfig(c, st.pools) && e.NodeAuth?
    ensures FromConfig(c, ControlPlane.Next(c, st, e, now).pools)
  {
    if e.id != "" {
      ControlPlane.AuthIs(c, st, e.sid, e.id, e.network, e.publicKey, e.admin, e.rowSubnet, now);
      var net := ControlPlane.Normal(e.network);
      EnsureFrom(c, st.pools, net);
      ControlPlane.EnsurePoolIs(c, st.pools, net);
      ControlPlane.GrantIs(ControlPlane.EnsurePool(c, st.pools, net), net);
    }
    hide ControlPlane.Auth, ControlPlane.EnsurePool, ControlPlane.Grant, ControlPlane.ConfigOk, Configured;
  }

  lemma {:induction false} RunFrom(c: ControlPlane.Config, st: ControlPlane.State,
      events: seq<(ControlPlane.Event, int)>)
    requires ControlPlane.ConfigOk(c) && ControlPlane.Pooled(st) && FromConfig(c, st.pools)
    ensures var end := ControlPlane.Run(c, st, events);
            FromConfig(c, end.pools) && forall n :: n in st.pools ==> n in end.pools
    decreases events
  {
    hide ControlPlane.Next, ControlPlane.ConfigOk, ControlPlane.Pooled, FromConfig;
    if events != [] {
      var e := events[0].0;
      if e.NodeAuth? {
        AuthFrom(c, st, e, events[0].1);
      } else {
        ControlPlane.OthersKeepNodes(c, st, e, events[0].1);
      }
      ControlPlane.NextPooled(c, st, e, events[0].1);
      RunFrom(c, ControlPlane.Next(c, st, e, events[0].1), events[1..]);
    }
  }

  /**
   In every reachable state the pool of a network is the subnet configured for it, or for the default network, or else
   10.0.0.0/24; and every configured network has its pool from the start.
   */
  lemma PoolsAreConfigured(c: ControlPlane.Config, db: ControlPlane.Database, events: seq<(ControlPlane.Event, int)>,
      network: string)
    requires ControlPlane.ConfigOk(c)
    ensures var pools := ControlPlane.Run(c, ControlPlane.Started(c, db), events).pools;
            && (network in c.pools ==> network in pools)
            && (network in pools ==> Configured(c, network, Cidr(pools[network].base, pools[network].prefix)))
  {
    hide ControlPlane.Run, ControlPlane.Pooled, Configured, ParseCidr, BroadcastAddr;
    var st := ControlPlane.Started(c, db);
    ControlPlane.StartedAddressed(c, db);
    ControlPlane.AddressedIsPooled(st);
    forall n | n in c.pools
      ensures n in st.pools && Configured(c, n, Cidr(st.pools[n].base, st.pools[n].prefix))
    {
      assert c.CidrOf(n) == c.pools[n];
      CidrIsConfigured(c, n);
    }
    RunFrom(c, st, events);
  }
}
