/**
 HMAC-SHA256 as written three times (src/auth/jwt.cpp, src/service/user_service.cpp and
 src/crypto/NoiseProtocol.cpp) against RFC 2104, and HKDF of NoiseProtocol.cpp against RFC 5869.
 */
module Hmac {
  import opened Basics
  import opened Sha256
  import Sha256Facts

  /** The MAC of a text under a key; the program's is `Mac` below. */
  type MacFunction = (Bytes, Bytes) -> Bytes

  function XorByte(x: Byte, mask: Byte): (r: Byte) { ((x as bv8) ^ (mask as bv8)) as int }

  function XorAll(b: Bytes, mask: Byte): (r: Bytes)
    ensures |r| == |b|
  {
    seq(|b|, i requires 0 <= i < |b| => XorByte(b[i], mask))
  }

  /** The key as one block of B = 64 octets: hashed when longer, then filled with zeros (RFC 2104, section 2). */
  function KeyBlock(key: Bytes): (r: Bytes)
    ensures |r| == 64
  {
    var k := if |key| > 64 then Hash(key) else key;
    k + Zeros(64 - |k|)
  }

  /** H(K XOR opad, H(K XOR ipad, text)). */
  function Mac(key: Bytes, data: Bytes): (r: Bytes)
    ensures |r| == 32
  {
    Hash(XorAll(KeyBlock(key), 0x5c) + Hash(XorAll(KeyBlock(key), 0x36) + data))
  }

  /** Fills a 64-octet pad from a key of at most that size. */
  method Pads(key: Bytes) returns (ipad: Bytes, opad: Bytes)
    requires |key| <= 64
    ensures ipad == XorAll(key + Zeros(64 - |key|), 0x36) && opad == XorAll(key + Zeros(64 - |key|), 0x5c)
  {
    var kpad := new Byte[64](_ => 0);
    var i := 0;
    while i < |key|
      invariant 0 <= i <= |key|
      invariant kpad[..] == key[..i] + Zeros(64 - i)
    {
      kpad[i] := key[i];
      i := i + 1;
    }
    var a, b := new Byte[64](_ => 0), new Byte[64](_ => 0);
    i := 0;
    while i < 64
      invariant 0 <= i <= 64
      invariant kpad[..] == key + Zeros(64 - |key|)
      invariant forall j :: 0 <= j < i ==> a[j] == XorByte(kpad[j], 0x36) && b[j] == XorByte(kpad[j], 0x5c)
    {
      a[i] := XorByte(kpad[i], 0x36);
      b[i] := XorByte(kpad[i], 0x5c);
      i := i + 1;
    }
    ipad, opad := a[..], b[..];
  }

  /** A fresh hash object fed a pad and then the rest. */
  method Sha256Of(pad: Bytes, rest: Bytes) returns (r: Bytes)
    ensures r == Hash(pad + rest)
  {
    hide Hash;
    var sha := new SHA256();
    sha.Update(pad);
    sha.Update(rest);
    assert sha.fed == pad + rest;
    r := sha.Digest();
  }

  /** hmac_sha256 of jwt.cpp: any key, streamed. */
  method HmacSha256(key: Bytes, data: Bytes) returns (r: Bytes)
    ensures r == Mac(key, data)
  {
    hide Hash, XorAll;
    var k := key;
    if |key| > 64 {
      k := Sha256Of(key, []);
      assert key + [] == key;
    }
    var ipad, opad := Pads(k);
    var innerHash := Sha256Of(ipad, data);
    r := Sha256Of(opad, innerHash);
  }

  /** hmac_sha256_raw of user_service.cpp: a key of exactly 32 octets, streamed. */
  method HmacSha256Raw(key: Bytes, data: Bytes) returns (r: Bytes)
    requires |key| == 32
    ensures r == Mac(key, data)
  {
    hide Hash, XorAll;
    var ipad, opad := Pads(key);
    var innerHash := Sha256Of(ipad, data);
    r := Sha256Of(opad, innerHash);
  }

  /** hmac_sha256 of NoiseProtocol.cpp: whole messages handed to the library's SHA-256. */
  method HmacSha256OneShot(key: Bytes, data: Bytes) returns (r: Bytes)
    ensures r == Mac(key, data)
  {
    hide Hash, XorAll;
    var keyBlock := if |key| > 64 then Hash(key) else key;
    var ipad, opad := Pads(keyBlock);
    var innerHash := Hash(ipad + data);
    r := Hash(opad + innerHash);
  }

  // ----- The two pads -----

  /** The octet whose only one is bit i, from the least significant. */
  function OneAt(i: nat): (r: bv8)
    requires i < 8
  {
    if i == 0 then 1 else if i == 1 then 2 else if i == 2 then 4 else if i == 3 then 8 else if i == 4 then 16
    else if i == 5 then 32 else if i == 6 then 64 else 128
  }

  function Bits(x: Byte): (r: bv8) { x as bv8 }

  predicate On(x: bv8, i: nat)
    requires i < 8
  {
    x & OneAt(i) != 0
  }

  predicate Bit(x: Byte, i: nat)
    requires i < 8
  {
    On(Bits(x), i)
  }

  lemma OctetBack(c: bv8)
    ensures (c as int) as bv8 == c
  {
  }

  lemma XorFlips(x: bv8, mask: bv8, i: nat)
    requires i < 8
    ensures On(x ^ mask, i) <==> On(x, i) != On(mask, i)
  {
    hide OneAt;
    OneOf(i);
    XorFlipsOne(x, mask, OneAt(i));
  }

  lemma OneOf(i: nat)
    requires i < 8
    ensures Single(OneAt(i))
  {
  }

  predicate Single(one: bv8) { one != 0 && one & (one - 1) == 0 }

  lemma XorFlipsOne(x: bv8, mask: bv8, one: bv8)
    requires Single(one)
    ensures (x ^ mask) & one != 0 <==> (x & one != 0) != (mask & one != 0)
  {
  }

  /** The eight bits are all there is to an octet. */
  lemma BitsTell(x: Byte, y: Byte)
    requires forall i :: 0 <= i < 8 ==> Bit(x, i) == Bit(y, i)
    ensures x == y
  {
    hide On, Bits;
    forall i | 0 <= i < 8
      ensures On(Bits(x), i) == On(Bits(y), i)
    {
      assert Bit(x, i) == Bit(y, i);
    }
    AllBits(Bits(x), Bits(y));
    ByteBack(x);
    ByteBack(y);
  }

  lemma AllBits(x: bv8, y: bv8)
    requires forall i :: 0 <= i < 8 ==> On(x, i) == On(y, i)
    ensures x == y
  {
    assert On(x, 0) == On(y, 0) && On(x, 1) == On(y, 1) && On(x, 2) == On(y, 2) && On(x, 3) == On(y, 3);
    assert On(x, 4) == On(y, 4) && On(x, 5) == On(y, 5) && On(x, 6) == On(y, 6) && On(x, 7) == On(y, 7);
  }

  lemma ByteBack(x: Byte)
    ensures Bits(x) as int == x
  {
    Sha256Facts.OctetIs(x);
  }

  /** A bit is flipped exactly where the mask has a one. */
  lemma XorByteFlips(x: Byte, mask: Byte, i: nat)
    requires i < 8
    ensures Bit(XorByte(x, mask), i) <==> Bit(x, i) != Bit(mask, i)
  {
    hide On, XorByte, Bits;
    XorByteIs(x, mask);
    XorFlips(Bits(x), Bits(mask), i);
  }

  lemma XorByteIs(x: Byte, mask: Byte)
    ensures Bits(XorByte(x, mask)) == Bits(x) ^ Bits(mask)
  {
    OctetBack((x as bv8) ^ (mask as bv8));
  }

  lemma MaskBits(i: nat)
    requires i < 8
    ensures Bit(0x36, i) <==> i in {1, 2, 4, 5}
    ensures Bit(0x5c, i) <==> i in {2, 3, 4, 6}
  {
  }

  /** Octet j of the key filled with zeros. */
  function KeyOctet(key: Bytes, j: nat): (r: Byte) { if j < |key| then key[j] else 0 }

  /** A 64-octet block that is the key with some bits of every octet flipped. */
  ghost predicate Flipped(block: Bytes, key: Bytes, bits: set<nat>) {
    && |block| == 64
    && forall j, i :: 0 <= j < 64 && 0 <= i < 8 ==> (Bit(block[j], i) <==> Bit(KeyOctet(key, j), i) != (i in bits))
  }

  /**
   The MAC is a hash over an outer block and the hash over an inner block and the text, the key with bits 1, 2, 4 and 5
   flipped in every octet of the inner block and bits 2, 3, 4 and 6 in the outer; a key longer than a block counts as
   its hash.
   */
  lemma MacIs(key: Bytes, data: Bytes) returns (inner: Bytes, outer: Bytes)
    ensures var k := if |key| > 64 then Hash(key) else key;
            Flipped(inner, k, {1, 2, 4, 5}) && Flipped(outer, k, {2, 3, 4, 6})
    ensures Mac(key, data) == Hash(outer + Hash(inner + data))
  {
    hide Hash, Bit, XorByte;
    inner, outer := XorAll(KeyBlock(key), 0x36), XorAll(KeyBlock(key), 0x5c);
    forall j, i | 0 <= j < 64 && 0 <= i < 8
      ensures Bit(inner[j], i) <==> Bit(KeyBlock(key)[j], i) != (i in {1, 2, 4, 5})
      ensures Bit(outer[j], i) <==> Bit(KeyBlock(key)[j], i) != (i in {2, 3, 4, 6})
    {
      XorByteFlips(KeyBlock(key)[j], 0x36, i);
      XorByteFlips(KeyBlock(key)[j], 0x5c, i);
      MaskBits(i);
    }
  }

  // ----- HKDF (RFC 5869, sections 2.2 and 2.3) -----

  /** T(n), with empty info; T(0) is empty. The counter is one octet. */
  function T(prk: Bytes, n: nat): (t: Bytes)
    ensures |t| == if n == 0 then 0 else 32
  {
    if n == 0 then [] else Mac(prk, T(prk, n - 1) + [n % 256])
  }

  lemma TStep(prk: Bytes, n: nat)
    ensures T(prk, 0) == [] && T(prk, n + 1) == Mac(prk, T(prk, n) + [(n + 1) % 256])
  {
  }

  /** T(1) | ... | T(n). */
  function Blocks(prk: Bytes, n: nat): (b: Bytes)
    ensures |b| == 32 * n
  {
    if n == 0 then [] else Blocks(prk, n - 1) + T(prk, n)
  }

  /** The first `length` octets of T(1) | T(2) | ..., over PRK = HMAC(salt, IKM). */
  function HkdfOutput(salt: Bytes, ikm: Bytes, length: nat): (okm: Bytes)
    ensures |okm| == length
  {
    Blocks(Mac(salt, ikm), (length + 31) / 32)[..length]
  }

  method Hkdf(chainingKey: Bytes, ikm: Bytes, length: nat) returns (out: Bytes)
    ensures out == HkdfOutput(chainingKey, ikm, length)
  {
    hide Mac, T;
    var prk := HmacSha256OneShot(chainingKey, ikm);
    TStep(prk, 0);
    out := [];
    var previous: Bytes := [];
    var counter: Byte := 1;
    ghost var n := 0;
    while |out| < length
      invariant counter == (n + 1) % 256
      invariant previous == T(prk, n)
      invariant |out| == if 32 * n <= length then 32 * n else length
      invariant n > 0 ==> 32 * (n - 1) < length
      invariant out == Blocks(prk, n)[..|out|]
      decreases length - |out|
    {
      var block := previous + [counter];
      TStep(prk, n);
      previous := HmacSha256OneShot(prk, block);
      assert previous == T(prk, n + 1);
      assert Blocks(prk, n + 1) == Blocks(prk, n) + previous;
      var need := if 32 <= length - |out| then 32 else length - |out|;
      out := out + previous[..need];
      n := n + 1;
      counter := (counter + 1) % 256;
    }
    assert n == (length + 31) / 32;
  }

  /**
   The two halves the handshake takes: HMAC of 1, and of the first half and 2, under HMAC of the input by the salt.
   */
  lemma HkdfHalves(salt: Bytes, ikm: Bytes)
    ensures var prk := Mac(salt, ikm);
            HkdfOutput(salt, ikm, 64) == Mac(prk, [1]) + Mac(prk, Mac(prk, [1]) + [2])
  {
    hide Mac;
    var prk := Mac(salt, ikm);
    assert T(prk, 1) == Mac(prk, [1]) by {
      assert T(prk, 0) + [1] == [1];
    }
    assert Blocks(prk, 1) == T(prk, 1) by {
      assert Blocks(prk, 0) == [];
    }
    assert Blocks(prk, 2)[..64] == Blocks(prk, 2);
  }

  lemma {:induction false} BlocksPrefix(prk: Bytes, m: nat, n: nat)
    requires m <= n
    ensures Blocks(prk, n)[..32 * m] == Blocks(prk, m)
    decreases n
  {
    hide T;
    if m < n {
      BlocksPrefix(prk, m, n - 1);
      assert Blocks(prk, n)[..32 * m] == Blocks(prk, n - 1)[..32 * m];
    }
  }

  /** Asking for fewer octets gives a prefix. */
  lemma HkdfPrefix(salt: Bytes, ikm: Bytes, short: nat, long: nat)
    requires short <= long
    ensures HkdfOutput(salt, ikm, short) == HkdfOutput(salt, ikm, long)[..short]
  {
    hide Mac, Blocks;
    var prk := Mac(salt, ikm);
    var m, n := (short + 31) / 32, (long + 31) / 32;
    BlocksPrefix(prk, m, n);
    assert Blocks(prk, n)[..long][..short] == Blocks(prk, n)[..32 * m][..short];
  }
}
