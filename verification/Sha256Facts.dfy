/**
 What the functions shared by the program and the standard in `Sha256` compute: bit by bit, as integers, and
 on a whole message. Numbers in parentheses are sections of FIPS 180-4.
 */
module Sha256Facts {
  import opened Basics
  import opened Sha256

  // ----- Bits -----

  /** Where x has a one Ch has the bit of y, elsewhere that of z. */
  lemma ChChooses(x: Word, y: Word, z: Word)
    ensures Ch(x, y, z) & x == y & x && Ch(x, y, z) & !x == z & !x
  {
  }

  /** Maj has the bit any two of its arguments agree on. */
  lemma MajAgrees(x: Word, y: Word, z: Word)
    ensures Maj(x, y, z) & !(x ^ y) == x & !(x ^ y)
    ensures Maj(x, y, z) & !(x ^ z) == x & !(x ^ z)
    ensures Maj(x, y, z) & !(y ^ z) == y & !(y ^ z)
  {
    hide Maj;
    MajFirst(x, y, z);
    MajFirst(x, z, y);
    MajFirst(y, z, x);
    MajSymmetric(x, y, z);
  }

  lemma MajFirst(x: Word, y: Word, z: Word)
    ensures Maj(x, y, z) & !(x ^ y) == x & !(x ^ y)
  {
  }

  lemma MajSymmetric(x: Word, y: Word, z: Word)
    ensures Maj(x, y, z) == Maj(x, z, y) == Maj(y, z, x)
  {
  }

  // ----- Integers -----

  /** A word as an integer. */
  function Nat(x: Word): (n: nat) { x as int }

  function WideNat(z: bv64): (n: nat) { z as int }

  lemma NatBelow(x: Word)
    ensures Nat(x) < TWO_32
  {
  }

  lemma WideSumIs(x: Word, y: Word)
    ensures ((x as bv64) + (y as bv64)) as int == x as int + y as int
  {
  }

  lemma WideNatSum(x: Word, y: Word, z: bv64)
    requires z == (x as bv64) + (y as bv64)
    ensures WideNat(z) == Nat(x) + Nat(y)
  {
    WideSumIs(x, y);
  }

  lemma WideIs(z: bv64, w: Word)
    requires z == w as bv64
    ensures WideNat(z) == Nat(w)
  {
  }

  lemma CarriedIs(z: bv64, w: Word)
    requires z == (w as bv64) + 0x1_0000_0000
    ensures WideNat(z) == Nat(w) + TWO_32
  {
  }

  lemma Fits(x: Word, y: Word)
    requires (x as bv64) + (y as bv64) < 0x1_0000_0000
    ensures (x as bv64) + (y as bv64) == Sum(x, y) as bv64
  {
  }

  lemma Overflows(x: Word, y: Word)
    requires (x as bv64) + (y as bv64) >= 0x1_0000_0000
    ensures (x as bv64) + (y as bv64) == (Sum(x, y) as bv64) + 0x1_0000_0000
  {
  }

  /** Words are added modulo 2^32. */
  lemma SumIs(x: Word, y: Word)
    ensures Nat(Sum(x, y)) == (Nat(x) + Nat(y)) % TWO_32
  {
    hide *;
    var z := (x as bv64) + (y as bv64);
    WideNatSum(x, y, z);
    NatBelow(Sum(x, y));
    if z < 0x1_0000_0000 {
      Fits(x, y);
      WideIs(z, Sum(x, y));
    } else {
      Overflows(x, y);
      CarriedIs(z, Sum(x, y));
    }
  }

  lemma SumFits(x: Word, y: Word)
    requires Nat(x) + Nat(y) < TWO_32
    ensures Nat(Sum(x, y)) == Nat(x) + Nat(y)
  {
    hide Nat, Sum;
    SumIs(x, y);
  }

  lemma OctetIs(b: Byte)
    ensures (b as bv8) as int == b && b as Word == (b as bv8) as Word
  {
  }

  lemma ShiftedIs(c: bv8)
    ensures Nat((c as Word) << 24) == c as int * 0x100_0000 && Nat((c as Word) << 16) == c as int * 0x1_0000
    ensures Nat((c as Word) << 8) == c as int * 0x100 && Nat(c as Word) == c as int
  {
  }

  lemma DisjointSum(c0: bv8, c1: bv8, c2: bv8, c3: bv8)
    ensures ((c0 as Word) << 24) | ((c1 as Word) << 16) | ((c2 as Word) << 8) | (c3 as Word)
            == Sum(Sum(Sum((c0 as Word) << 24, (c1 as Word) << 16), (c2 as Word) << 8), c3 as Word)
  {
  }

  /** Four octets are read most significant first. */
  lemma WordIs(b0: Byte, b1: Byte, b2: Byte, b3: Byte)
    ensures Nat(BigEndianWord(b0, b1, b2, b3)) == ((b0 * 256 + b1) * 256 + b2) * 256 + b3
  {
    hide Nat, Sum;
    OctetIs(b0);
    OctetIs(b1);
    OctetIs(b2);
    OctetIs(b3);
    OctetsAdd(b0 as bv8, b1 as bv8, b2 as bv8, b3 as bv8);
  }

  lemma OctetsAdd(c0: bv8, c1: bv8, c2: bv8, c3: bv8)
    ensures Nat(((c0 as Word) << 24) | ((c1 as Word) << 16) | ((c2 as Word) << 8) | (c3 as Word))
            == ((c0 as int * 256 + c1 as int) * 256 + c2 as int) * 256 + c3 as int
  {
    hide Nat, Sum;
    DisjointSum(c0, c1, c2, c3);
    ShiftedIs(c0);
    ShiftedIs(c1);
    ShiftedIs(c2);
    ShiftedIs(c3);
    AddFour((c0 as Word) << 24, (c1 as Word) << 16, (c2 as Word) << 8, c3 as Word, c0 as int, c1 as int, c2 as int,
            c3 as int);
  }

  lemma AddFour(w0: Word, w1: Word, w2: Word, w3: Word, b0: Byte, b1: Byte, b2: Byte, b3: Byte)
    requires Nat(w0) == b0 * 0x100_0000 && Nat(w1) == b1 * 0x1_0000 && Nat(w2) == b2 * 0x100 && Nat(w3) == b3
    ensures Nat(Sum(Sum(Sum(w0, w1), w2), w3)) == ((b0 * 256 + b1) * 256 + b2) * 256 + b3
  {
    hide Nat, Sum;
    SumFits(w0, w1);
    SumFits(Sum(w0, w1), w2);
    SumFits(Sum(Sum(w0, w1), w2), w3);
  }

  /** Writing a word as octets is undone by reading them. */
  lemma WordRoundTrip(w: Word)
    ensures var b := WordOctets(w); BigEndianWord(b[0], b[1], b[2], b[3]) == w
  {
    hide BigEndianWord, WordOctets, Octet;
    var c0, c1 := ((w >> 24) & 0xFF) as bv8, ((w >> 16) & 0xFF) as bv8;
    var c2, c3 := ((w >> 8) & 0xFF) as bv8, (w & 0xFF) as bv8;
    WordOctetsAre(w);
    ReadBack(c0, c1, c2, c3);
    PartsJoin(w);
  }

  function Octet(c: bv8): (b: Byte) { c as int }

  lemma WordOctetsAre(w: Word)
    ensures WordOctets(w) == [Octet(((w >> 24) & 0xFF) as bv8), Octet(((w >> 16) & 0xFF) as bv8),
                              Octet(((w >> 8) & 0xFF) as bv8), Octet((w & 0xFF) as bv8)]
  {
  }

  lemma ReadBack(c0: bv8, c1: bv8, c2: bv8, c3: bv8)
    ensures BigEndianWord(Octet(c0), Octet(c1), Octet(c2), Octet(c3))
            == ((c0 as Word) << 24) | ((c1 as Word) << 16) | ((c2 as Word) << 8) | (c3 as Word)
  {
    hide Octet;
    ReadOctet(c0);
    ReadOctet(c1);
    ReadOctet(c2);
    ReadOctet(c3);
  }

  lemma ReadOctet(c: bv8)
    ensures Octet(c) as Word == c as Word
  {
    hide Octet;
    OctetIs(Octet(c));
    OctetBack(c);
  }

  lemma OctetBack(c: bv8)
    ensures Octet(c) as bv8 == c
  {
  }

  lemma PartsJoin(w: Word)
    ensures ((((w >> 24) & 0xFF) as bv8 as Word) << 24) | ((((w >> 16) & 0xFF) as bv8 as Word) << 16)
            | ((((w >> 8) & 0xFF) as bv8 as Word) << 8) | ((w & 0xFF) as bv8 as Word) == w
  {
  }

  /** The length field: octet i is the number divided by 256 as often as octets follow it, modulo 256. */
  lemma {:induction false} BigEndianAt(n: nat, k: nat, i: nat)
    requires i < k
    ensures BigEndian(n, k)[i] == n / Pow256(k - 1 - i) % 256
  {
    if i < k - 1 {
      BigEndianAt(n / 256, k - 1, i);
      DivideTwice(n, Pow256(k - 2 - i));
    }
  }

  lemma DivideTwice(n: nat, m: nat)
    requires m > 0
    ensures n / 256 / m == n / (256 * m)
  {
    var a := n / 256;
    var b, r := a / m, a % m;
    assert a == m * b + r;
    assert n == 256 * (m * b + r) + n % 256;
    Regroup(m, b, r, n % 256);
    Quotient(256 * m, b, 256 * r + n % 256);
  }

  lemma Regroup(m: nat, b: nat, r: nat, s: nat)
    ensures 256 * (m * b + r) + s == (256 * m) * b + (256 * r + s)
  {
  }

  lemma Quotient(d: nat, q: nat, r: nat)
    requires r < d
    ensures (d * q + r) / d == q
  {
    var x := d * q + r;
    var y := x / d;
    assert d * y <= x < d * y + d;
    if y < q {
      Times(d, y + 1, q);
    } else if y > q {
      Times(d, q + 1, y);
    }
  }

  lemma Times(d: nat, x: nat, y: nat)
    requires x <= y
    ensures d * x <= d * y
  {
  }

  // ----- The constants -----

  /** The first 64 primes. */
  const PRIMES: seq<nat> :=
    [2, 3, 5, 7, 11, 13, 17, 19, 23, 29, 31, 37, 41, 43, 47, 53] +
    [59, 61, 67, 71, 73, 79, 83, 89, 97, 101, 103, 107, 109, 113, 127, 131] +
    [137, 139, 149, 151, 157, 163, 167, 173, 179, 181, 191, 193, 197, 199, 211, 223] +
    [227, 229, 233, 239, 241, 251, 257, 263, 269, 271, 277, 281, 283, 293, 307, 311]

  const TWO_96: nat := TWO_64 * TWO_32

  function WholeSquareRoot(p: nat): (r: nat) { if p < 4 then 1 else if p < 9 then 2 else if p < 16 then 3 else 4 }

  function WholeCubeRoot(p: nat): (r: nat) {
    if p < 8 then 1 else if p < 27 then 2 else if p < 64 then 3 else if p < 125 then 4 else if p < 216 then 5 else 6
  }

  /** k holds the first 32 bits of the fractional part of the square root of p. */
  predicate SquareRooted(k: Word, p: nat) {
    var x := WholeSquareRoot(p) * TWO_32 + Nat(k);
    x * x <= p * TWO_64 < (x + 1) * (x + 1)
  }

  /** k holds the first 32 bits of the fractional part of the cube root of p. */
  predicate CubeRooted(k: Word, p: nat) {
    var x := WholeCubeRoot(p) * TWO_32 + Nat(k);
    x * x * x <= p * TWO_96 < (x + 1) * (x + 1) * (x + 1)
  }

  /** (5.3.3) */
  lemma InitialIsRooted()
    ensures SquareRooted(INITIAL.a, 2) && SquareRooted(INITIAL.b, 3) && SquareRooted(INITIAL.c, 5)
    ensures SquareRooted(INITIAL.d, 7) && SquareRooted(INITIAL.e, 11) && SquareRooted(INITIAL.f, 13)
    ensures SquareRooted(INITIAL.g, 17) && SquareRooted(INITIAL.h, 19)
  {
  }

  lemma Cubes0()
    ensures CubeRooted(0x428a2f98, 2) && CubeRooted(0x71374491, 3)
    ensures CubeRooted(0xb5c0fbcf, 5) && CubeRooted(0xe9b5dba5, 7)
    ensures CubeRooted(0x3956c25b, 11) && CubeRooted(0x59f111f1, 13)
    ensures CubeRooted(0x923f82a4, 17) && CubeRooted(0xab1c5ed5, 19)
  {
  }

  lemma Cubes1()
    ensures CubeRooted(0xd807aa98, 23) && CubeRooted(0x12835b01, 29)
    ensures CubeRooted(0x243185be, 31) && CubeRooted(0x550c7dc3, 37)
    ensures CubeRooted(0x72be5d74, 41) && CubeRooted(0x80deb1fe, 43)
    ensures CubeRooted(0x9bdc06a7, 47) && CubeRooted(0xc19bf174, 53)
  {
  }

  lemma Cubes2()
    ensures CubeRooted(0xe49b69c1, 59) && CubeRooted(0xefbe4786, 61)
    ensures CubeRooted(0x0fc19dc6, 67) && CubeRooted(0x240ca1cc, 71)
    ensures CubeRooted(0x2de92c6f, 73) && CubeRooted(0x4a7484aa, 79)
    ensures CubeRooted(0x5cb0a9dc, 83) && CubeRooted(0x76f988da, 89)
  {
  }

  lemma Cubes3()
    ensures CubeRooted(0x983e5152, 97) && CubeRooted(0xa831c66d, 101)
    ensures CubeRooted(0xb00327c8, 103) && CubeRooted(0xbf597fc7, 107)
    ensures CubeRooted(0xc6e00bf3, 109) && CubeRooted(0xd5a79147, 113)
    ensures CubeRooted(0x06ca6351, 127) && CubeRooted(0x14292967, 131)
  {
  }

  lemma Cubes4()
    ensures CubeRooted(0x27b70a85, 137) && CubeRooted(0x2e1b2138, 139)
    ensures CubeRooted(0x4d2c6dfc, 149) && CubeRooted(0x53380d13, 151)
    ensures CubeRooted(0x650a7354, 157) && CubeRooted(0x766a0abb, 163)
    ensures CubeRooted(0x81c2c92e, 167) && CubeRooted(0x92722c85, 173)
  {
  }

  lemma Cubes5()
    ensures CubeRooted(0xa2bfe8a1, 179) && CubeRooted(0xa81a664b, 181)
    ensures CubeRooted(0xc24b8b70, 191) && CubeRooted(0xc76c51a3, 193)
    ensures CubeRooted(0xd192e819, 197) && CubeRooted(0xd6990624, 199)
    ensures CubeRooted(0xf40e3585, 211) && CubeRooted(0x106aa070, 223)
  {
  }

  lemma Cubes6()
    ensures CubeRooted(0x19a4c116, 227) && CubeRooted(0x1e376c08, 229)
    ensures CubeRooted(0x2748774c, 233) && CubeRooted(0x34b0bcb5, 239)
    ensures CubeRooted(0x391c0cb3, 241) && CubeRooted(0x4ed8aa4a, 251)
    ensures CubeRooted(0x5b9cca4f, 257) && CubeRooted(0x682e6ff3, 263)
  {
  }

  lemma Cubes7()
    ensures CubeRooted(0x748f82ee, 269) && CubeRooted(0x78a5636f, 271)
    ensures CubeRooted(0x84c87814, 277) && CubeRooted(0x8cc70208, 281)
    ensures CubeRooted(0x90befffa, 283) && CubeRooted(0xa4506ceb, 293)
    ensures CubeRooted(0xbef9a3f7, 307) && CubeRooted(0xc67178f2, 311)
  {
  }

  lemma Rooted0(i: nat)
    requires 0 <= i < 16
    ensures |PRIMES| == 64 && CubeRooted(K[i], PRIMES[i])
  {
    hide CubeRooted;
    Cubes0();
    Cubes1();
  }

  lemma Rooted1(i: nat)
    requires 16 <= i < 32
    ensures |PRIMES| == 64 && CubeRooted(K[i], PRIMES[i])
  {
    hide CubeRooted;
    Cubes2();
    Cubes3();
  }

  lemma Rooted2(i: nat)
    requires 32 <= i < 48
    ensures |PRIMES| == 64 && CubeRooted(K[i], PRIMES[i])
  {
    hide CubeRooted;
    Cubes4();
    Cubes5();
  }

  lemma Rooted3(i: nat)
    requires 48 <= i < 64
    ensures |PRIMES| == 64 && CubeRooted(K[i], PRIMES[i])
  {
    hide CubeRooted;
    Cubes6();
    Cubes7();
  }

  /** (4.2.2) */
  lemma KIsRooted(i: nat)
    requires i < 64
    ensures |PRIMES| == 64 && CubeRooted(K[i], PRIMES[i])
  {
    hide CubeRooted;
    if i < 16 {
      Rooted0(i);
    } else if i < 32 {
      Rooted1(i);
    } else if i < 48 {
      Rooted2(i);
    } else {
      Rooted3(i);
    }
  }
}
