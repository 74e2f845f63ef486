/**
 The buffered SHA-256 of src/auth/jwt.cpp, written a second time in src/service/user_service.cpp,
 against FIPS 180-4. Numbers in parentheses are sections of that standard.
 */
module Sha256 {
  import opened Basics

  type Word = bv32

  /** The eight working variables, or the eight words of a hash value. */
  datatype Words = Words(a: Word, b: Word, c: Word, d: Word, e: Word, f: Word, g: Word, h: Word)

  /** The constants of (4.2.2). */
  const K: seq<Word> :=
    [0x428a2f98, 0x71374491, 0xb5c0fbcf, 0xe9b5dba5, 0x3956c25b, 0x59f111f1, 0x923f82a4, 0xab1c5ed5,
     0xd807aa98, 0x12835b01, 0x243185be, 0x550c7dc3, 0x72be5d74, 0x80deb1fe, 0x9bdc06a7, 0xc19bf174] +
    [0xe49b69c1, 0xefbe4786, 0x0fc19dc6, 0x240ca1cc, 0x2de92c6f, 0x4a7484aa, 0x5cb0a9dc, 0x76f988da,
     0x983e5152, 0xa831c66d, 0xb00327c8, 0xbf597fc7, 0xc6e00bf3, 0xd5a79147, 0x06ca6351, 0x14292967] +
    [0x27b70a85, 0x2e1b2138, 0x4d2c6dfc, 0x53380d13, 0x650a7354, 0x766a0abb, 0x81c2c92e, 0x92722c85,
     0xa2bfe8a1, 0xa81a664b, 0xc24b8b70, 0xc76c51a3, 0xd192e819, 0xd6990624, 0xf40e3585, 0x106aa070] +
    [0x19a4c116, 0x1e376c08, 0x2748774c, 0x34b0bcb5, 0x391c0cb3, 0x4ed8aa4a, 0x5b9cca4f, 0x682e6ff3,
     0x748f82ee, 0x78a5636f, 0x84c87814, 0x8cc70208, 0x90befffa, 0xa4506ceb, 0xbef9a3f7, 0xc67178f2]

  /** The initial hash value of (5.3.3). */
  const INITIAL := Words(0x6a09e667, 0xbb67ae85, 0x3c6ef372, 0xa54ff53a, 0x510e527f, 0x9b05688c, 0x1f83d9ab, 0x5be0cd19)

  // ----- FIPS 180-4 -----

  // (4.1.2)
  function Ch(x: Word, y: Word, z: Word): (r: Word) { (x & y) ^ (!x & z) }
  function Maj(x: Word, y: Word, z: Word): (r: Word) { (x & y) ^ (x & z) ^ (y & z) }
  function BigSigma0(x: Word): (r: Word) { x.RotateRight(2) ^ x.RotateRight(13) ^ x.RotateRight(22) }
  function BigSigma1(x: Word): (r: Word) { x.RotateRight(6) ^ x.RotateRight(11) ^ x.RotateRight(25) }
  function SmallSigma0(x: Word): (r: Word) { x.RotateRight(7) ^ x.RotateRight(18) ^ (x >> 3) }
  function SmallSigma1(x: Word): (r: Word) { x.RotateRight(17) ^ x.RotateRight(19) ^ (x >> 10) }

  /** The word whose four octets, most significant first, are given. */
  function BigEndianWord(b0: Byte, b1: Byte, b2: Byte, b3: Byte): (r: Word) {
    ((b0 as Word) << 24) | ((b1 as Word) << 16) | ((b2 as Word) << 8) | (b3 as Word)
  }

  /** The message schedule of (6.2.2), step 1; the four terms stand in the program's order. */
  function Schedule(block: Bytes, t: nat): (r: Word)
    requires |block| == 64 && t < 64
  {
    if t < 16 then BigEndianWord(block[4 * t], block[4 * t + 1], block[4 * t + 2], block[4 * t + 3])
    else Sum(Sum(Sum(Schedule(block, t - 16), SmallSigma0(Schedule(block, t - 15))), Schedule(block, t - 7)),
        SmallSigma1(Schedule(block, t - 2)))
  }

  /** Addition modulo 2^32. */
  function Sum(x: Word, y: Word): (r: Word) { x + y }

  function T1(v: Words, k: Word, w: Word): (r: Word) {
    Sum(Sum(Sum(Sum(v.h, BigSigma1(v.e)), Ch(v.e, v.f, v.g)), k), w)
  }

  function T2(v: Words): (r: Word) { Sum(BigSigma0(v.a), Maj(v.a, v.b, v.c)) }

  /** One turn of (6.2.2), step 3. */
  function Round(v: Words, k: Word, w: Word): (r: Words) {
    Words(Sum(T1(v, k, w), T2(v)), v.a, v.b, v.c, Sum(v.d, T1(v, k, w)), v.e, v.f, v.g)
  }

  function Rounds(v: Words, block: Bytes, n: nat): (r: Words)
    requires |block| == 64 && n <= 64
  {
    if n == 0 then v else Round(Rounds(v, block, n - 1), K[n - 1], Schedule(block, n - 1))
  }

  function SumWords(x: Words, y: Words): (r: Words) {
    Words(Sum(x.a, y.a), Sum(x.b, y.b), Sum(x.c, y.c), Sum(x.d, y.d), Sum(x.e, y.e), Sum(x.f, y.f), Sum(x.g, y.g),
        Sum(x.h, y.h))
  }

  /** One message block: (6.2.2), steps 1 to 4. */
  function Compress(v: Words, block: Bytes): (r: Words)
    requires |block| == 64
  {
    SumWords(v, Rounds(v, block, 64))
  }

  /** Every block of a padded message in turn. */
  function Fold(message: Bytes): (r: Words)
    requires |message| % 64 == 0
  {
    if message == [] then INITIAL
    else Compress(Fold(message[..|message| - 64]), message[|message| - 64..])
  }

  /** (5.1.1): the bit 1, the least number of zero bits, and the length in bits as a 64-bit number. */
  function Pad(message: Bytes): (p: Bytes)
    ensures |p| % 64 == 0
  {
    PadFits(|message|);
    message + [0x80] + Zeros(PadZeros(|message|)) + BigEndian(8 * |message| % TWO_64, 8)
  }

  function PadZeros(n: nat): (r: nat) { 63 - (n + 8) % 64 }

  lemma PadFits(n: nat)
    ensures (n + 1 + PadZeros(n) + 8) % 64 == 0
  {
    var q := (n + 8) / 64;
    assert n + 1 + PadZeros(n) + 8 == 64 * (q + 1);
  }

  /** PadZeros is the only number below 64 that completes the last block. */
  lemma PadUnique(n: nat, z: nat)
    requires z < 64 && (n + 1 + z + 8) % 64 == 0
    ensures z == PadZeros(n)
  {
    var k := (n + 1 + z + 8) / 64;
    assert n + 1 + z + 8 == 64 * k;
  }

  function WordOctets(w: Word): (b: Bytes)
    ensures |b| == 4
  {
    [((w >> 24) & 0xFF) as bv8 as int, ((w >> 16) & 0xFF) as bv8 as int, ((w >> 8) & 0xFF) as bv8 as int,
        (w & 0xFF) as bv8 as int]
  }

  function Octets(v: Words): (b: Bytes)
    ensures |b| == 32
  {
    WordOctets(v.a) + WordOctets(v.b) + WordOctets(v.c) + WordOctets(v.d) +
    WordOctets(v.e) + WordOctets(v.f) + WordOctets(v.g) + WordOctets(v.h)
  }

  /** SHA-256 of a whole message (6.2). */
  function Hash(message: Bytes): (d: Bytes)
    ensures |d| == 32
  {
    Octets(Fold(Pad(message)))
  }

  // ----- The program -----

  // ror(x, n) of the program is two shifts.

  function ProgramSigma0(x: Word): (r: Word) { ((x >> 7) | (x << 25)) ^ ((x >> 18) | (x << 14)) ^ (x >> 3) }
  function ProgramSigma1(x: Word): (r: Word) { ((x >> 17) | (x << 15)) ^ ((x >> 19) | (x << 13)) ^ (x >> 10) }
  function ProgramBigSigma0(x: Word): (r: Word) {
    ((x >> 2) | (x << 30)) ^ ((x >> 13) | (x << 19)) ^ ((x >> 22) | (x << 10))
  }

  function ProgramBigSigma1(x: Word): (r: Word) {
    ((x >> 6) | (x << 26)) ^ ((x >> 11) | (x << 21)) ^ ((x >> 25) | (x << 7))
  }

  /** The program's rotation by two shifts is the standard's. */
  lemma SigmasAgree(x: Word)
    ensures ProgramSigma0(x) == SmallSigma0(x) && ProgramSigma1(x) == SmallSigma1(x)
    ensures ProgramBigSigma0(x) == BigSigma0(x) && ProgramBigSigma1(x) == BigSigma1(x)
  {
  }

  /** One word of the schedule from earlier ones. */
  lemma ScheduleIs(block: Bytes, t: nat)
    requires |block| == 64 && t < 64
    ensures Schedule(block, t)
            == if t < 16 then BigEndianWord(block[4 * t], block[4 * t + 1], block[4 * t + 2], block[4 * t + 3])
               else Sum(Sum(Sum(Schedule(block, t - 16), SmallSigma0(Schedule(block, t - 15))),
                            Schedule(block, t - 7)), SmallSigma1(Schedule(block, t - 2)))
  {
  }

  class SHA256 {
    var h: Words
    const buf: array<Byte>
    var buflen: nat
    var totsize: UInt64
    /** Everything given to Update, and the whole blocks of it. */
    ghost var fed: Bytes
    ghost var done: Bytes

    /** The hash value is that of all whole blocks fed, the buffer holds the rest. */
    ghost predicate Valid()
      reads this, buf
    {
      && buf.Length == 64 && buflen < 64
      && |done| % 64 == 0 && totsize == |done| % TWO_64 && h == Fold(done)
      && fed == done + buf[..buflen]
    }

    constructor ()
      ensures Valid() && fed == [] && fresh(buf)
    {
      h := INITIAL;
      buf := new Byte[64](_ => 0);
      buflen, totsize, fed, done := 0, 0, [], [];
    }

    /** The schedule of the buffered block. */
    method Expand() returns (w: array<Word>)
      requires buf.Length == 64
      ensures fresh(w) && w.Length == 64
      ensures forall t :: 0 <= t < 64 ==> w[t] == Schedule(buf[..], t)
    {
      hide Sum, ProgramSigma0, ProgramSigma1, ProgramBigSigma0, ProgramBigSigma1, SmallSigma0, SmallSigma1, BigSigma0,
          BigSigma1, BigEndianWord, Schedule;
      ghost var block := buf[..];
      w := new Word[64];
      var i := 0;
      while i < 16
        invariant 0 <= i <= 16
        invariant forall t :: 0 <= t < i ==> w[t] == Schedule(block, t)
      {
        ScheduleIs(block, i);
        w[i] := BigEndianWord(buf[4 * i], buf[4 * i + 1], buf[4 * i + 2], buf[4 * i + 3]);
        i := i + 1;
      }
      while i < 64
        invariant 16 <= i <= 64
        invariant forall t :: 0 <= t < i ==> w[t] == Schedule(block, t)
      {
        SigmasAgree(w[i - 15]);
        SigmasAgree(w[i - 2]);
        ScheduleIs(block, i);
        var s0 := ProgramSigma0(w[i - 15]);
        var s1 := ProgramSigma1(w[i - 2]);
        w[i] := Sum(Sum(Sum(w[i - 16], s0), w[i - 7]), s1);
        i := i + 1;
      }
    }

    method Transform()
      requires buf.Length == 64
      modifies this`totsize, this`h
      ensures totsize == (old(totsize) + 64) % TWO_64
      ensures h == Compress(old(h), buf[..])
    {
      hide Schedule, Sum, Ch, Maj, ProgramSigma0, ProgramSigma1, ProgramBigSigma0, ProgramBigSigma1, SmallSigma0,
          SmallSigma1, BigSigma0, BigSigma1;
      totsize := (totsize + 64) % TWO_64;
      ghost var block := buf[..];
      var w := Expand();
      var v := h;
      var i := 0;
      while i < 64
        invariant 0 <= i <= 64
        invariant v == Rounds(h, block, i)
        modifies {}
      {
        SigmasAgree(v.e);
        SigmasAgree(v.a);
        var temp1 := Sum(Sum(Sum(Sum(v.h, ProgramBigSigma1(v.e)), Ch(v.e, v.f, v.g)), K[i]), w[i]);
        var temp2 := Sum(ProgramBigSigma0(v.a), Maj(v.a, v.b, v.c));
        v := Words(Sum(temp1, temp2), v.a, v.b, v.c, Sum(v.d, temp1), v.e, v.f, v.g);
        i := i + 1;
      }
      h := SumWords(h, v);
    }

    method Update(data: Bytes)
      requires Valid()
      modifies this, buf
      ensures Valid() && fed == old(fed) + data
    {
      var i := 0;
      while i < |data|
        invariant 0 <= i <= |data|
        invariant Valid() && fed == old(fed) + data[..i]
      {
        Feed(data[i]);
        i := i + 1;
      }
    }

    method Feed(b: Byte)
      requires Valid()
      modifies this, buf
      ensures Valid() && fed == old(fed) + [b]
    {
      hide Compress, Fold;
      buf[buflen] := b;
      buflen := buflen + 1;
      fed := fed + [b];
      assert fed == done + buf[..buflen];
      if buflen == 64 {
        FoldAppend(done, buf[..]);
        OneMoreBlock(|done|);
        Transform();
        done := done + buf[..];
        buflen := 0;
      }
    }

    /** Writes zeros up to a limit. */
    method ZeroTo(limit: nat)
      requires buf.Length == 64 && buflen <= limit <= 64
      modifies this`buflen, buf
      ensures buflen == limit && buf[..limit] == old(buf[..buflen]) + Zeros(limit - old(buflen))
    {
      while buflen < limit
        invariant old(buflen) <= buflen <= limit
        invariant buf[..old(buflen)] == old(buf[..buflen])
        invariant forall j :: old(buflen) <= j < buflen ==> buf[j] == 0
      {
        buf[buflen] := 0;
        buflen := buflen + 1;
      }
    }

    /** Writes a number into the last eight octets, most significant first. */
    method WriteLength(bits: UInt64)
      requires buf.Length == 64
      modifies buf
      ensures buf[..] == old(buf[..56]) + BigEndian(bits, 8)
    {
      var rest := bits;
      var i := 8;
      while i > 0
        invariant 0 <= i <= 8
        invariant buf[..56] == old(buf[..56])
        invariant BigEndian(rest, i) + buf[56 + i..] == BigEndian(bits, 8)
      {
        i := i - 1;
        buf[56 + i] := rest % 256;
        rest := rest / 256;
      }
    }

    /** The digest of everything fed; the object is spent afterwards. */
    method Digest() returns (r: Bytes)
      requires Valid()
      modifies this, buf
      ensures r == Hash(old(fed))
    {
      hide Compress, Fold, Pad, Octets, BigEndian;
      ghost var whole, tail := done, buf[..buflen];
      var bits := (totsize + buflen) * 8 % TWO_64;
      LengthWraps(|whole|, buflen);
      buf[buflen] := 0x80;
      buflen := buflen + 1;
      if buflen > 56 {
        Spill(tail);
      }
      ghost var rest := buf[..buflen];
      ZeroTo(56);
      WriteLength(bits);
      Transform();
      FoldAppend(done, buf[..]);
      PadBlocks(whole, tail, done, rest, buf[..]);
      r := Octets(h);
    }

    /** The padding that does not fit the last block starts another one. */
    method Spill(ghost tail: Bytes)
      requires buf.Length == 64 && |done| % 64 == 0 && h == Fold(done)
      requires buflen == |tail| + 1 && 56 < buflen <= 64 && buf[..buflen] == tail + [0x80]
      modifies this`h, this`buflen, this`totsize, this`done, buf
      ensures done == old(done) + (tail + [0x80] + Zeros(63 - |tail|))
      ensures |done| % 64 == 0 && h == Fold(done) && buflen == 0
    {
      hide Compress, Fold;
      ZeroTo(64);
      assert buf[..] == buf[..64];
      FoldAppend(done, buf[..]);
      done := done + buf[..];
      Transform();
      buflen := 0;
    }
  }

  lemma FoldAppend(m: Bytes, block: Bytes)
    requires |m| % 64 == 0 && |block| == 64
    ensures Fold(m + block) == Compress(Fold(m), block)
  {
    hide Compress;
    assert (m + block)[..|m + block| - 64] == m && (m + block)[|m + block| - 64..] == block;
  }

  lemma OneMoreBlock(n: nat)
    requires n % 64 == 0
    ensures (n + 64) % 64 == 0 && (n % TWO_64 + 64) % TWO_64 == (n + 64) % TWO_64
  {
    var q := n / TWO_64;
    assert n + 64 == (n % TWO_64 + 64) + q * TWO_64;
  }

  /** The program's 64-bit length counter counts bits modulo 2^64. */
  lemma LengthWraps(n: nat, k: nat)
    ensures (n % TWO_64 + k) * 8 % TWO_64 == 8 * (n + k) % TWO_64
  {
    var q := n / TWO_64;
    assert 8 * (n + k) == (n % TWO_64 + k) * 8 + (8 * q) * TWO_64;
  }

  /** The blocks the program writes are the padded message: the last one, or the last two. */
  lemma PadBlocks(whole: Bytes, tail: Bytes, done: Bytes, rest: Bytes, last: Bytes)
    requires |whole| % 64 == 0 && |tail| < 64 && |rest| <= 56
    requires last == rest + Zeros(56 - |rest|) + BigEndian(8 * (|whole| + |tail|) % TWO_64, 8)
    requires if |tail| < 56 then done == whole && rest == tail + [0x80]
             else done == whole + (tail + [0x80] + Zeros(63 - |tail|)) && rest == []
    ensures done + last == Pad(whole + tail)
  {
    hide BigEndian, PadZeros;
    TailZeros(|whole|, |tail|);
    var z := PadZeros(|whole| + |tail|);
    assert Zeros(z) == if |tail| < 56 then Zeros(56 - |rest|) else Zeros(63 - |tail|) + Zeros(56);
  }

  lemma TailZeros(whole: nat, tail: nat)
    requires whole % 64 == 0 && tail < 64
    ensures PadZeros(whole + tail) == if tail < 56 then 55 - tail else 119 - tail
  {
    var z := if tail < 56 then 55 - tail else 119 - tail;
    var q := whole / 64;
    var k := q + if tail < 56 then 1 else 2;
    assert whole + tail + 1 + z + 8 == 64 * k;
    PadUnique(whole + tail, z);
  }
}
