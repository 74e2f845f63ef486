/**
 The per-network address pools of src/ipam/IpAllocator.cpp.
 */
module Allocator {
  import opened Basics
  import opened Ip

  // ----- Mask arithmetic on w-bit numbers -----

  function Pow2(k: nat): (p: nat)
    ensures p > 0
  {
    if k == 0 then 1 else 2 * Pow2(k - 1)
  }

  /** x & y over the w low bits. */
  function And(x: nat, y: nat, w: nat): (r: nat) {
    if w == 0 then 0 else (if x % 2 == 1 && y % 2 == 1 then 1 else 0) + 2 * And(x / 2, y / 2, w - 1)
  }

  /** x | y over the w low bits. */
  function Or(x: nat, y: nat, w: nat): (r: nat) {
    if w == 0 then 0 else (if x % 2 == 1 || y % 2 == 1 then 1 else 0) + 2 * Or(x / 2, y / 2, w - 1)
  }

  /** x >> k. */
  function Shr(x: nat, k: nat): (r: nat) {
    if k == 0 then x else Shr(x / 2, k - 1)
  }

  /**
   Masking with ~((1 << k) - 1) gives the start of the block of 2^k numbers x lies in, or-ing with (1 << k) - 1 its
   end.
   */
  lemma MaskIsBlock(x: nat, k: nat, w: nat)
    requires k <= w && x < Pow2(w)
    ensures Pow2(k) <= Pow2(w)
    ensures And(x, Pow2(w) - Pow2(k), w) == Shr(x, k) * Pow2(k)
    ensures Or(x, Pow2(k) - 1, w) == Shr(x, k) * Pow2(k) + Pow2(k) - 1
    ensures Shr(x, k) * Pow2(k) <= x < Shr(x, k) * Pow2(k) + Pow2(k) <= Pow2(w)
  {
    hide And, Or, Shr, Pow2;
    BlockHolds(x, k, w);
    AndIsStart(x, k, w);
    OrIsEnd(x, k, w);
  }

  lemma {:induction false} BlockHolds(x: nat, k: nat, w: nat)
    requires k <= w && x < Pow2(w)
    ensures Shr(x, k) * Pow2(k) <= x < Shr(x, k) * Pow2(k) + Pow2(k) <= Pow2(w)
    ensures k > 0 ==> Shr(x, k) * Pow2(k) == 2 * (Shr(x / 2, k - 1) * Pow2(k - 1))
    decreases k
  {
    if k > 0 {
      BlockHolds(x / 2, k - 1, w - 1);
      Double(Shr(x / 2, k - 1), Pow2(k - 1));
    }
  }

  lemma {:induction false} AndIsStart(x: nat, k: nat, w: nat)
    requires k <= w && x < Pow2(w) && Pow2(k) <= Pow2(w)
    ensures And(x, Pow2(w) - Pow2(k), w) == Shr(x, k) * Pow2(k)
    decreases k
  {
    if k == 0 {
      NoMask(x, w);
    } else {
      BlockHolds(x, k, w);
      AndIsStart(x / 2, k - 1, w - 1);
      HalfMask(Pow2(w - 1), 2 * Pow2(k - 1));
    }
  }

  lemma {:induction false} OrIsEnd(x: nat, k: nat, w: nat)
    requires k <= w && x < Pow2(w)
    ensures Or(x, Pow2(k) - 1, w) == Shr(x, k) * Pow2(k) + Pow2(k) - 1
    decreases k
  {
    if k == 0 {
      NoMask(x, w);
    } else {
      BlockHolds(x, k, w);
      OrIsEnd(x / 2, k - 1, w - 1);
      HalfMask(Pow2(k - 1), 1);
    }
  }

  lemma Double(q: nat, m: nat)
    ensures q * (2 * m) == 2 * (q * m)
  {
  }

  lemma {:induction false} NoMask(x: nat, w: nat)
    requires x < Pow2(w)
    ensures And(x, Pow2(w) - 1, w) == x && Or(x, 0, w) == x
  {
    if w > 0 {
      NoMask(x / 2, w - 1);
      HalfMask(Pow2(w - 1), 1);
    }
  }

  /** How a mask 2 * p - m splits into its low bit and the rest, for m = 1 and for even m. */
  lemma HalfMask(p: nat, m: nat)
    requires 0 < m <= 2 * p
    ensures m == 1 ==> (2 * p - m) % 2 == 1 && (2 * p - m) / 2 == p - 1
    ensures m % 2 == 0 ==> (2 * p - m) % 2 == 0 && (2 * p - m) / 2 == p - m / 2
  {
  }

  // ----- CIDR -----

  lemma WordSize()
    ensures Pow2(32) == TWO_32
  {
    assert Pow2(8) == 0x100;
    assert Pow2(16) == 0x1_0000;
    assert Pow2(24) == 0x100_0000;
  }

  /** The block of addresses that share a prefix with addr. */
  function BlockBase(addr: UInt32, prefix: nat): (r: nat)
    requires prefix <= 32
  {
    Shr(addr, 32 - prefix) * Pow2(32 - prefix)
  }

  /** The two mask expressions of the program give the first and the last address of that block. */
  lemma MasksAre(addr: UInt32, prefix: nat)
    requires prefix <= 32
    ensures var size := Pow2(32 - prefix);
            && size <= TWO_32
            && And(addr, TWO_32 - 1 - (size - 1), 32) == BlockBase(addr, prefix)
            && Or(addr, size - 1, 32) == BlockBase(addr, prefix) + size - 1
            && BlockBase(addr, prefix) <= addr < BlockBase(addr, prefix) + size <= TWO_32
  {
    hide And, Or;
    WordSize();
    MaskIsBlock(addr, 32 - prefix, 32);
  }

  /** networkAddr: the address with its host bits cleared. */
  function NetworkAddr(addr: UInt32, prefix: nat): (r: UInt32)
    requires prefix <= 32
  {
    MasksAre(addr, prefix);
    if prefix == 0 then 0 else And(addr, TWO_32 - 1 - (Pow2(32 - prefix) - 1), 32)
  }

  /** broadcastAddr: the address with its host bits set. At prefix 0 the C++ shift by 32 is undefined. */
  function BroadcastAddr(addr: UInt32, prefix: nat): (r: UInt32)
    requires 0 < prefix <= 32
  {
    MasksAre(addr, prefix);
    if prefix == 32 then addr else Or(addr, Pow2(32 - prefix) - 1, 32)
  }

  /** For every prefix, 0 among them, the network address is the start of the block. */
  lemma NetworkIsBlock(addr: UInt32, prefix: nat)
    requires prefix <= 32
    ensures NetworkAddr(addr, prefix) == BlockBase(addr, prefix)
    ensures prefix == 0 ==> BlockBase(addr, prefix) == 0
  {
    hide And, Or;
    MasksAre(addr, prefix);
    WordSize();
    if prefix == 0 && BlockBase(addr, 0) != 0 {
      assert Shr(addr, 32) >= 1;
    }
  }

  /** A subnet is one aligned block: its ends are fixed by any address in it. */
  lemma SubnetEnds(addr: UInt32, prefix: nat)
    requires 0 < prefix <= 32
    ensures var base := NetworkAddr(addr, prefix);
            && base <= addr < base + Pow2(32 - prefix) <= TWO_32
            && NetworkAddr(base, prefix) == base
            && BroadcastAddr(base, prefix) == BroadcastAddr(addr, prefix) == base + Pow2(32 - prefix) - 1
  {
    hide And, Or, Shr;
    MasksAre(addr, prefix);
    MasksAre(NetworkAddr(addr, prefix), prefix);
    ShrBlock(Shr(addr, 32 - prefix), 32 - prefix);
    if prefix == 32 {
      assert Pow2(0) == 1;
    }
  }

  lemma {:induction false} ShrBlock(q: nat, k: nat)
    ensures Shr(q * Pow2(k), k) == q
  {
    if k > 0 {
      ShrBlock(q, k - 1);
      Double(q, Pow2(k - 1));
    }
  }

  /** Leading blanks are skipped by std::stoi. */
  function SkipBlanks(s: string): (r: string) {
    if s != "" && (s[0] == ' ' || 9 <= s[0] as int <= 13) then SkipBlanks(s[1..]) else s
  }

  function Digits(s: string): (r: string)
    ensures forall c :: c in r ==> IsDigit(c)
  {
    if s != "" && IsDigit(s[0]) then [s[0]] + Digits(s[1..]) else ""
  }

  /** std::stoi; None when it throws. */
  function Stoi(s: string): (r: Option<int>) {
    var t := SkipBlanks(s);
    var signed := t != "" && (t[0] == '-' || t[0] == '+');
    var digits := Digits(if signed then t[1..] else t);
    var v: int := if signed && t[0] == '-' then 0 - Value(digits) else Value(digits);
    if digits == "" || !(-0x8000_0000 <= v < 0x8000_0000) then None else Some(v)
  }

  datatype Cidr = Cidr(base: UInt32, prefix: nat) | Refused | Thrown

  function ParseCidr(text: string): (r: Cidr)
    ensures r.Cidr? ==> r.prefix <= 32
  {
    var slash := IndexOf(text, '/', 0);
    if slash.None? then Refused
    else
      var prefix := Stoi(text[slash.value + 1..]);
      if prefix.None? then Thrown
      else if !(0 <= prefix.value <= 32) then Refused
      else Cidr(NetworkAddr(IpToUint(text[..slash.value]), prefix.value), prefix.value)
  }

  // ----- Pools -----

  datatype Pool = Pool(base: UInt32, start: UInt32, end: UInt32, prefix: nat, taken: set<UInt32>)

  /** A pool over [base + 2, broadcast - 1] in 32-bit arithmetic, with the gateway base + 1 taken. */
  function MakePool(base: UInt32, prefix: nat, reserved: set<UInt32>): (r: Pool)
    requires 0 < prefix <= 32
  {
    Pool(base, (base + 2) % TWO_32, (BroadcastAddr(base, prefix) - 1) % TWO_32, prefix,
         {(base + 1) % TWO_32} + reserved)
  }

  /** The lowest free address from a position on. */
  function FirstFree(p: Pool, from: int): (r: Option<UInt32>)
    requires 0 <= from
    ensures r.Some? ==> from <= r.value <= p.end && r.value !in p.taken && forall y :: from <= y < r.value ==>
            y in p.taken
    ensures r.None? ==> forall y :: from <= y <= p.end ==> y in p.taken
    decreases p.end - from
  {
    if from > p.end then None else if from !in p.taken then Some(from) else FirstFree(p, from + 1)
  }

  function Take(p: Pool): (r: (Pool, Option<UInt32>)) {
    var x := FirstFree(p, p.start);
    (if x.Some? then p.(taken := p.taken + {x.value}) else p, x)
  }

  function Addresses(ips: set<string>): (r: set<UInt32>) { set ip | ip in ips :: IpToUint(ip) }

  datatype Adding = Added | NotACidr | NumberThrown | UndefinedShift

  class IpAllocator {
    var pools: map<string, Pool>

    constructor ()
      ensures pools == map[]
    {
      pools := map[];
    }

    /** Of a prefix of 0, for which the program shifts by 32, nothing is said but that. */
    method AddPool(network: string, cidr: string, reserved: set<string>) returns (r: Adding)
      modifies this
      ensures var c := ParseCidr(cidr);
              && r == (if c.Thrown? then NumberThrown else if c.Refused? then NotACidr
                       else if c.prefix == 0 then UndefinedShift else Added)
              && (r.Added? ==> pools == old(pools)[network := MakePool(c.base, c.prefix, Addresses(reserved))])
              && (r.NumberThrown? || r.NotACidr? ==> pools == old(pools))
    {
      hide ParseCidr, BroadcastAddr, IpToUint;
      match ParseCidr(cidr)
      case Thrown => return NumberThrown;
      case Refused => return NotACidr;
      case Cidr(base, prefix) =>
        if prefix == 0 {
          return UndefinedShift;
        }
        var taken: set<UInt32> := {(base + 1) % TWO_32};
        var rest := reserved;
        while rest != {}
          invariant rest <= reserved && pools == old(pools)
          invariant taken == {(base + 1) % TWO_32} + Addresses(reserved - rest)
        {
          var ip :| ip in rest;
          assert reserved - (rest - {ip}) == (reserved - rest) + {ip};
          taken := taken + {IpToUint(ip)};
          rest := rest - {ip};
        }
        assert reserved - {} == reserved;
        pools := pools[network := Pool(base, (base + 2) % TWO_32, (BroadcastAddr(base, prefix) - 1) % TWO_32, prefix,
            taken)];
        return Added;
    }

    /** The scan ends if it meets a free address, or ends below 2^32 - 1, where its counter would wrap. */
    method Allocate(network: string) returns (ip: string)
      requires network in pools && pools[network].end == TWO_32 - 1 ==> Take(pools[network]).1.Some?
      modifies this
      ensures network !in old(pools) ==> ip == "" && pools == old(pools)
      ensures network in old(pools) ==>
                var (p, x) := Take(old(pools)[network]);
                ip == (if x.Some? then UintToIp(x.value) else "") && pools == old(pools)[network := p]
    {
      if network !in pools {
        return "";
      }
      var pool := pools[network];
      var addr: UInt32 := pool.start;
      while addr <= pool.end
        invariant pool.start <= addr
        invariant FirstFree(pool, pool.start) == FirstFree(pool, addr)
        invariant pools == old(pools)
      {
        if addr !in pool.taken {
          pools := pools[network := pool.(taken := pool.taken + {addr})];
          return UintToIp(addr);
        }
        addr := addr + 1;
      }
      assert pools[network := pool] == pools;
      return "";
    }

    method Free(network: string, ip: string) returns (found: bool)
      modifies this
      ensures found == (network in old(pools) && IpToUint(ip) in old(pools)[network].taken)
      ensures found ==>
                var p := old(pools)[network];
                pools == old(pools)[network := p.(taken := p.taken - {IpToUint(ip)})]
      ensures !found ==> pools == old(pools)
    {
      if network !in pools {
        return false;
      }
      var addr := IpToUint(ip);
      var pool := pools[network];
      if addr !in pool.taken {
        return false;
      }
      pools := pools[network := pool.(taken := pool.taken - {addr})];
      return true;
    }
  }

  // ----- Which pools stay inside their subnet -----

  predicate Strictly(base: int, x: int, size: int) { base + 1 < x < base + size - 1 }

  /** Every address scanned lies strictly between the gateway base + 1 and the broadcast address. */
  ghost predicate Inside(p: Pool)
    requires p.prefix <= 32
  {
    var size := Pow2(32 - p.prefix);
    forall x :: p.start <= x <= p.end ==> Strictly(p.base, x, size)
  }

  lemma PoolShape(addr: UInt32, prefix: nat, reserved: set<UInt32>)
    requires 0 < prefix <= 30
    ensures var base := NetworkAddr(addr, prefix);
            var p := MakePool(base, prefix, reserved);
            && Pow2(32 - prefix) >= 4
            && p.start == base + 2 && p.end == base + Pow2(32 - prefix) - 2 < TWO_32 - 1
            && p.taken == {base + 1} + reserved
  {
    hide NetworkAddr, BroadcastAddr;
    SubnetEnds(addr, prefix);
    assert Pow2(32 - prefix) == 2 * Pow2(31 - prefix) == 4 * Pow2(30 - prefix);
  }

  /**
   Of the pools addPool can make, those that stay inside their subnet: all up to prefix 30, and of the
   two longer prefixes all but the few whose 32-bit bounds wrap around.
   */
  lemma InsideExactly(addr: UInt32, prefix: nat, reserved: set<UInt32>)
    requires 0 < prefix <= 32
    ensures var base := NetworkAddr(addr, prefix);
            Inside(MakePool(base, prefix, reserved)) <==>
              || prefix <= 30
              || (prefix == 31 && base != 0xFFFF_FFFE)
              || (prefix == 32 && base != 0 && base != 0xFFFF_FFFE && base != 0xFFFF_FFFF)
  {
    hide NetworkAddr, BroadcastAddr;
    SubnetEnds(addr, prefix);
    var base := NetworkAddr(addr, prefix);
    var p := MakePool(base, prefix, reserved);
    if prefix <= 30 {
      PoolShape(addr, prefix, reserved);
    } else if prefix == 31 {
      assert Pow2(1) == 2;
      assert !Strictly(p.base, 0, 2);
    } else {
      assert Pow2(0) == 1;
      assert !Strictly(p.base, 0xFFFF_FFFF, 1) && !Strictly(p.base, 1, 1);
    }
  }

  // ----- Runs -----

  datatype Op =
    | Add(network: string, addr: UInt32, prefix: nat, reserved: set<string>)
    | Allocate(network: string)
    | Free(network: string, ip: string)

  /** The pools, and the addresses granted and not freed since. */
  datatype Ledger = Ledger(pools: map<string, Pool>, held: set<(string, UInt32)>)

  /** A pool is added once per network, with a prefix from 1 to 30. */
  predicate Admissible(l: Ledger, op: Op) {
    op.Add? ==> op.network !in l.pools && 0 < op.prefix <= 30
  }

  function Apply(l: Ledger, op: Op): (r: Ledger)
    requires Admissible(l, op)
  {
    match op
    case Add(network, addr, prefix, reserved) =>
      l.(pools := l.pools[network := MakePool(NetworkAddr(addr, prefix), prefix, Addresses(reserved))])
    case Allocate(network) =>
      if network !in l.pools then l
      else
        var (p, x) := Take(l.pools[network]);
        Ledger(l.pools[network := p], if x.Some? then l.held + {(network, x.value)} else l.held)
    case Free(network, ip) =>
      if network !in l.pools then l
      else
        var p := l.pools[network];
        Ledger(l.pools[network := p.(taken := p.taken - {IpToUint(ip)})], l.held - {(network, IpToUint(ip))})
  }

  predicate AdmissibleRun(l: Ledger, ops: seq<Op>)
    decreases ops
  {
    ops == [] || (Admissible(l, ops[0]) && AdmissibleRun(Apply(l, ops[0]), ops[1..]))
  }

  function Run(l: Ledger, ops: seq<Op>): (r: Ledger)
    requires AdmissibleRun(l, ops)
    decreases ops
  {
    if ops == [] then l else Run(Apply(l, ops[0]), ops[1..])
  }

  predicate PoolInv(p: Pool) {
    && 0 < p.prefix <= 30 && p.start == p.base + 2
    && p.end == p.base + Pow2(32 - p.prefix) - 2 && p.end < TWO_32 - 1
  }

  ghost predicate LedgerInv(l: Ledger) {
    && (forall n :: n in l.pools ==> PoolInv(l.pools[n]))
    && (forall h :: h in l.held ==>
          h.0 in l.pools && h.1 in l.pools[h.0].taken && l.pools[h.0].start <= h.1 <= l.pools[h.0].end)
  }

  lemma ApplyInv(l: Ledger, op: Op)
    requires LedgerInv(l) && Admissible(l, op)
    ensures LedgerInv(Apply(l, op))
  {
    hide IpToUint, NetworkAddr, BroadcastAddr;
    if op.Add? {
      PoolShape(op.addr, op.prefix, Addresses(op.reserved));
      SubnetEnds(op.addr, op.prefix);
    }
  }

  lemma {:induction false} RunInv(l: Ledger, ops: seq<Op>)
    requires LedgerInv(l) && AdmissibleRun(l, ops)
    ensures LedgerInv(Run(l, ops))
    decreases ops
  {
    hide Apply, LedgerInv;
    if ops != [] {
      ApplyInv(l, ops[0]);
      RunInv(Apply(l, ops[0]), ops[1..]);
    }
  }

  /**
   After any run, the next allocation in a pool gives the lowest free address strictly between the
   gateway and the broadcast address, held by nobody; and nothing exactly when none is free.
   */
  lemma GrantIsNew(ops: seq<Op>, network: string)
    requires AdmissibleRun(Ledger(map[], {}), ops) && network in Run(Ledger(map[], {}), ops).pools
    ensures var l := Run(Ledger(map[], {}), ops);
            var p := l.pools[network];
            var x := Take(p).1;
            && 0 < p.prefix <= 32
            && (x.Some? ==>
                && (network, x.value) !in l.held && x.value !in p.taken
                && Strictly(p.base, x.value, Pow2(32 - p.prefix))
                && forall y :: p.base + 1 < y < x.value ==> y in p.taken)
            && (x.None? <==> forall y :: Strictly(p.base, y, Pow2(32 - p.prefix)) ==> y in p.taken)
  {
    hide Run, AdmissibleRun;
    RunInv(Ledger(map[], {}), ops);
    var p := Run(Ledger(map[], {}), ops).pools[network];
    var x := Take(p).1;
    if x.Some? {
      assert Strictly(p.base, x.value, Pow2(32 - p.prefix));
    }
  }

  // ----- Which addresses are taken -----

  lemma {:induction false} RunLast(l: Ledger, ops: seq<Op>)
    requires ops != [] && AdmissibleRun(l, ops)
    ensures var before, last := ops[..|ops| - 1], ops[|ops| - 1];
            && AdmissibleRun(l, before) && Admissible(Run(l, before), last)
            && Run(l, ops) == Apply(Run(l, before), last)
    decreases |ops|
  {
    hide Apply, Admissible;
    if |ops| > 1 {
      RunLast(Apply(l, ops[0]), ops[1..]);
      assert ops[1..][..|ops| - 2] == ops[..|ops| - 1][1..];
    } else {
      assert ops[1..] == [] && ops[..0] == [];
    }
  }

  /**
   The latest operation on an address: freeing it, granting it, or adding its pool with the address as gateway or
   reserved.
   */
  predicate Given(ops: seq<Op>, network: string, x: UInt32)
    requires AdmissibleRun(Ledger(map[], {}), ops)
    decreases |ops|
  {
    if ops == [] then false
    else
      RunLast(Ledger(map[], {}), ops);
      var before := ops[..|ops| - 1];
      match ops[|ops| - 1]
      case Add(n, addr, prefix, reserved) =>
        if n == network then
          x == NetworkAddr(addr, prefix) + 1 || exists ip :: ip in reserved && IpToUint(ip) == x
        else Given(before, network, x)
      case Allocate(n) =>
        var l := Run(Ledger(map[], {}), before);
        (n == network && n in l.pools && Take(l.pools[n]).1 == Some(x)) || Given(before, network, x)
      case Free(n, ip) => (n != network || IpToUint(ip) != x) && Given(before, network, x)
  }

  lemma NothingRun(ops: seq<Op>)
    requires ops == []
    ensures AdmissibleRun(Ledger(map[], {}), ops) && Run(Ledger(map[], {}), ops).pools == map[]
  {
  }

  /** What one operation does to an address of a network. */
  lemma TakenAfter(l: Ledger, op: Op, network: string, x: UInt32)
    requires Admissible(l, op) && network in Apply(l, op).pools
    ensures op.Add? && op.network == network ==>
              (x in Apply(l, op).pools[network].taken <==>
               x == NetworkAddr(op.addr, op.prefix) + 1 || exists ip :: ip in op.reserved && IpToUint(ip) == x)
    ensures !(op.Add? && op.network == network) ==>
              && network in l.pools
              && (x in Apply(l, op).pools[network].taken <==>
                  || (op.Allocate? && op.network == network && Take(l.pools[network]).1 == Some(x))
                  || ((op.Free? ==> op.network != network || IpToUint(op.ip) != x) && x in l.pools[network].taken))
  {
    hide IpToUint, NetworkAddr, BroadcastAddr;
    if op.Add? {
      HostsFit(op.addr, op.prefix);
    }
  }

  /** After any run an address is taken in its pool exactly if it was given or reserved, and not freed since. */
  lemma {:induction false} TakenExactly(ops: seq<Op>, network: string, x: UInt32)
    requires AdmissibleRun(Ledger(map[], {}), ops) && network in Run(Ledger(map[], {}), ops).pools
    ensures x in Run(Ledger(map[], {}), ops).pools[network].taken <==> Given(ops, network, x)
    decreases |ops|
  {
    hide Run, AdmissibleRun, Apply, Admissible, Take, IpToUint, NetworkAddr, BroadcastAddr;
    var none := Ledger(map[], {});
    if ops == [] {
      NothingRun(ops);
      assert false;
    } else {
      RunLast(none, ops);
      var before := ops[..|ops| - 1];
      TakenAfter(Run(none, before), ops[|ops| - 1], network, x);
      if network in Run(none, before).pools {
        TakenExactly(before, network, x);
      }
    }
  }

  lemma HostsFit(addr: UInt32, prefix: nat)
    requires 0 < prefix <= 30
    ensures NetworkAddr(addr, prefix) + 1 < TWO_32
  {
    hide NetworkAddr, BroadcastAddr;
    SubnetEnds(addr, prefix);
    assert Pow2(32 - prefix) >= 2;
  }

  // ----- Capacity -----

  function TakeMany(p: Pool, k: nat): (r: Pool) {
    if k == 0 then p else Take(TakeMany(p, k - 1)).0
  }

  /**
   A pool without reservations grants base + 2, base + 3, ... in order: exactly 2^(32 - prefix) - 3
   addresses, and then none.
   */
  lemma {:induction false} FreshPoolGrants(addr: UInt32, prefix: nat, k: nat)
    requires 0 < prefix <= 30 && k <= Pow2(32 - prefix) - 3
    ensures var base := NetworkAddr(addr, prefix);
            var p := TakeMany(MakePool(base, prefix, {}), k);
            && p == MakePool(base, prefix, {}).(taken := p.taken)
            && (forall y :: y in p.taken <==> base < y < base + 2 + k)
            && Take(p).1 == if k < Pow2(32 - prefix) - 3 then Some(base + 2 + k) else None
  {
    hide NetworkAddr, BroadcastAddr, Take, MakePool;
    PoolShape(addr, prefix, {});
    var base := NetworkAddr(addr, prefix);
    var whole := MakePool(base, prefix, {});
    if k > 0 {
      FreshPoolGrants(addr, prefix, k - 1);
      NextGrant(TakeMany(whole, k - 1), base, k - 1, Pow2(32 - prefix));
    }
    NextGrant(TakeMany(whole, k), base, k, Pow2(32 - prefix));
  }

  /** With exactly the gateway and the first k hosts taken, the next host is granted, if there is one. */
  lemma NextGrant(p: Pool, base: UInt32, k: nat, size: nat)
    requires p.start == base + 2 && p.end == base + size - 2 && k <= size - 3
    requires forall y :: y in p.taken <==> base < y < base + 2 + k
    ensures var (q, x) := Take(p);
            && x == (if k < size - 3 then Some(base + 2 + k) else None) && q == p.(taken := q.taken)
            && (x.Some? ==> forall y :: y in q.taken <==> base < y < base + 3 + k)
  {
    if k < size - 3 {
      assert base + 2 + k <= p.end && base + 2 + k !in p.taken;
    }
  }
}
