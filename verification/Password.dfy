/**
 Stored passwords: hash_password and verify_password of src/service/user_service.cpp.

 The salt has 16 bytes but is written as if it had 32; what the other 16 are is up to memory, so they are
 arbitrary here.
 */
module Password {
  import opened Basics
  import Hmac
  import Hex
  import Ip

  const DOLLAR: Byte := 36

  /** "$sha256$". */
  const TAG: Bytes := [36, 115, 104, 97, 50, 53, 54, 36]

  /** "10000$". */
  const ROUNDS: Bytes := [49, 48, 48, 48, 48, 36]

  /** std::string::npos. */
  const NPOS: int := TWO_64 - 1

  function Iterate(mac: Hmac.MacFunction, key: Bytes, n: nat): (r: Bytes)
    decreases n
  {
    if n == 0 then key else mac(Iterate(mac, key, n - 1), Iterate(mac, key, n - 1))
  }

  /** The first MAC is under the zero key over password and salt; every other is of the key under itself. */
  function Derive(mac: Hmac.MacFunction, password: Bytes, salt: Bytes): (r: Bytes) {
    Iterate(mac, mac(Zeros(32), password + salt), 9999)
  }

  function Stored(mac: Hmac.MacFunction, password: Bytes, salt: Bytes, beyond: Bytes): (r: Bytes) {
    TAG + ROUNDS + Hex.Encode(salt + beyond) + [DOLLAR] + Hex.Encode(Derive(mac, password, salt))
  }

  // ----- Reading it back -----

  predicate IsSpace(c: Byte) { c == 32 || 9 <= c <= 13 }

  function Digit(c: Byte): (r: Option<nat>)
    ensures r.Some? ==> r.value < 16
  {
    if 48 <= c <= 57 || 97 <= c <= 102 || 65 <= c <= 70 then Some(Hex.Nibble(c)) else None
  }

  /** The digits of base 16 are these in either case, and no other character is one. */
  lemma DigitReads(c: Byte, n: nat)
    ensures Digit(c) == Some(n) <==> n < 16 && (Hex.LOWER[n] as int == c || Hex.UPPER[n] as int == c)
  {
    if n < 16 {
      Hex.DigitIs(n);
    }
  }

  /** strtol over two characters in base 16, as a byte: blanks, a sign and non-digits are not refused. */
  function Pair(a: Byte, b: Byte): (r: Byte) {
    if Digit(a).Some? then if Digit(b).Some? then 16 * Digit(a).value + Digit(b).value else Digit(a).value
    else if Digit(b).None? then 0
    else if IsSpace(a) || a == 43 then Digit(b).value
    else if a == 45 then (256 - Digit(b).value) % 256
    else 0
  }

  function HexPrefix(s: Bytes, sum: nat): (r: nat) {
    if s == [] || Digit(s[0]).None? then sum else HexPrefix(s[1..], 16 * sum + Digit(s[0]).value)
  }

  /** strtol in base 16 over a whole text: blanks, a sign, "0x", and the digits up to the first other character. */
  function Strtol(s: Bytes): (r: int) {
    if s != [] && IsSpace(s[0]) then Strtol(s[1..])
    else
      var digits := if s != [] && (s[0] == 43 || s[0] == 45) then s[1..] else s;
      var prefixed := |digits| > 2 && digits[0] == 48 && digits[1] in {88, 120} && Digit(digits[2]).Some?;
      var n := HexPrefix(if prefixed then digits[2..] else digits, 0);
      if s != [] && s[0] == 45 then 0 - n else n
  }

  lemma PairIsStrtol(a: Byte, b: Byte)
    ensures Pair(a, b) == Strtol([a, b]) % 256
  {
    var s := [a, b];
    var t := s[1..];
    assert t == [b] && t[1..] == [];
    assert HexPrefix([], 0) == 0 && Strtol([]) == 0;
    assert HexPrefix(t, 0) == if Digit(b).None? then 0 else Digit(b).value;
    assert Digit(a).Some? ==> HexPrefix(s, 0) == HexPrefix(t, Digit(a).value);
  }

  /** The first k bytes of a salt field, zero where the field is too short. */
  function SaltOf(field: Bytes, k: nat): (r: Bytes)
    ensures |r| == k
  {
    seq(k, i requires 0 <= i < k => if 2 * i + 1 < |field| then Pair(field[2 * i], field[2 * i + 1]) else 0)
  }

  /** A salt field too short is read as if zeros followed it; a single last digit does not count. */
  lemma ShortSaltIsPadded(field: Bytes, zeros: Bytes, k: nat)
    requires forall z :: z in zeros ==> z == 48
    ensures SaltOf(field, k) == SaltOf(field[..|field| / 2 * 2] + zeros, k)
  {
    assert Pair(48, 48) == 0;
    var whole := field[..|field| / 2 * 2];
    forall i | 0 <= i < k
      ensures SaltOf(field, k)[i] == SaltOf(whole + zeros, k)[i]
    {
      if 2 * i + 1 < |field| {
        assert (whole + zeros)[2 * i] == field[2 * i] && (whole + zeros)[2 * i + 1] == field[2 * i + 1];
      } else if 2 * i + 1 < |whole + zeros| {
        assert (whole + zeros)[2 * i] in zeros && (whole + zeros)[2 * i + 1] in zeros;
      }
    }
  }

  function Find(s: Bytes, from: UInt64): (r: UInt64)
    requires |s| < NPOS
  {
    var r := IndexOf(s, DOLLAR, from);
    if r.None? then NPOS else r.value
  }

  /** Sizes are unsigned 64-bit. */
  function Wrap(n: int): (r: UInt64) { n % TWO_64 }

  function Substr(s: Bytes, pos: UInt64, len: UInt64): (r: Bytes)
    requires pos <= |s|
  {
    if pos + len <= |s| then s[pos..pos + len] else s[pos..]
  }

  predicate Verify(mac: Hmac.MacFunction, password: Bytes, hash: Bytes)
    requires |hash| < NPOS
  {
    if |hash| < 8 || hash[..8] != TAG then false
    else
      var first := Find(hash, 1);
      var second := Find(hash, Wrap(first + 1));
      var third := Find(hash, Wrap(second + 1));
      if third == NPOS then false
      else
        WrapIs(second + 1);
        var field := Substr(hash, Wrap(second + 1), Wrap(third - second - 1));
        Hex.Encode(Derive(mac, password, SaltOf(field, 16))) == hash[third + 1..]
  }

  lemma WrapIs(n: int)
    ensures 0 <= n < TWO_64 ==> Wrap(n) == n
    ensures n == TWO_64 ==> Wrap(n) == 0
  {
  }

  // ----- The loops -----

  method DeriveKey(password: Bytes, salt: Bytes) returns (derived: Bytes)
    ensures derived == Derive(Hmac.Mac, password, salt) && |derived| == 32
  {
    hide Hmac.Mac;
    derived := Hmac.HmacSha256Raw(Zeros(32), password + salt);
    ghost var first := derived;
    for i := 0 to 9999
      invariant derived == Iterate(Hmac.Mac, first, i) && |derived| == 32
    {
      derived := Hmac.HmacSha256Raw(derived, derived);
    }
  }

  method HashPassword(password: Bytes, salt: Bytes, beyond: Bytes) returns (r: Bytes)
    requires |salt| == 16 && |beyond| == 16
    ensures r == Stored(Hmac.Mac, password, salt, beyond)
  {
    hide Derive;
    var derived := DeriveKey(password, salt);
    var saltHex := Hex.HexEncode(salt + beyond);
    var keyHex := Hex.HexEncode(derived);
    r := TAG + ROUNDS + saltHex + [DOLLAR] + keyHex;
  }

  method ReadSalt(field: Bytes) returns (salt: array<Byte>)
    ensures fresh(salt) && salt[..] == SaltOf(field, 16) + Zeros(16)
  {
    hide Pair;
    salt := new Byte[32](_ => 0);
    var i := 0;
    while i < 16 && 2 * i + 1 < |field|
      invariant 0 <= i <= 16 && (i == 0 || 2 * i - 1 < |field|)
      invariant forall j :: 0 <= j < i ==> salt[j] == Pair(field[2 * j], field[2 * j + 1])
      invariant forall j :: i <= j < 32 ==> salt[j] == 0
    {
      salt[i] := Pair(field[2 * i], field[2 * i + 1]);
      i := i + 1;
    }
  }

  method VerifyPassword(password: Bytes, hash: Bytes) returns (ok: bool)
    requires |hash| < NPOS
    ensures ok == Verify(Hmac.Mac, password, hash)
  {
    hide Derive, Find, Wrap, SaltOf;
    if |hash| < 8 || hash[..8] != TAG {
      return false;
    }
    var first: int := Find(hash, 1);
    var second: int := Find(hash, Wrap(first + 1));
    var third: int := Find(hash, Wrap(second + 1));
    if third == NPOS {
      return false;
    }
    FindIs(hash, Wrap(first + 1));
    FindIs(hash, Wrap(second + 1));
    WrapIs(second + 1);
    var field := Substr(hash, Wrap(second + 1), Wrap(third - second - 1));
    var salt := ReadSalt(field);
    assert salt[..16] == salt[..][..16] == SaltOf(field, 16);
    var derived := DeriveKey(password, salt[..16]);
    var hex := Hex.HexEncode(derived);
    return hex == hash[third + 1..];
  }

  lemma FindIs(s: Bytes, from: UInt64)
    requires |s| < NPOS
    ensures Find(s, from) < |s| || Find(s, from) == NPOS
  {
  }

  // ----- Properties -----

  lemma DigitOf(n: nat)
    requires n < 16
    ensures Digit(Hex.HexDigit(n)) == Some(n) && Hex.HexDigit(n) != DOLLAR && Hex.HexDigit(n) != 115
  {
  }

  lemma {:induction false} EncodedAt(data: Bytes, i: nat)
    requires i < |data|
    ensures Hex.Encode(data)[2 * i] == Hex.HexDigit(data[i] / 16)
            && Hex.Encode(data)[2 * i + 1] == Hex.HexDigit(data[i] % 16)
  {
    if i > 0 {
      EncodedAt(data[1..], i - 1);
    }
  }

  /** Neither a dollar nor an s appears in hexadecimal text. */
  lemma {:induction false} HexHas(data: Bytes)
    ensures DOLLAR !in Hex.Encode(data) && 115 !in Hex.Encode(data)
  {
    if data != [] {
      DigitOf(data[0] / 16);
      DigitOf(data[0] % 16);
      HexHas(data[1..]);
    }
  }

  /** Reading the salt field back gives the salt, whatever follows it. */
  lemma SaltReadBack(salt: Bytes, beyond: Bytes)
    requires |salt| == 16
    ensures SaltOf(Hex.Encode(salt + beyond), 16) == salt
  {
    hide Digit, Hex.HexDigit;
    var data := salt + beyond;
    forall i | 0 <= i < 16
      ensures SaltOf(Hex.Encode(data), 16)[i] == salt[i]
    {
      EncodedAt(data, i);
      DigitOf(data[i] / 16);
      DigitOf(data[i] % 16);
      assert 16 * (data[i] / 16) + data[i] % 16 == data[i];
    }
  }

  /** The shape of a hash a password fits: the rounds field is not read, and the salt field is read leniently. */
  ghost predicate Fits(mac: Hmac.MacFunction, password: Bytes, hash: Bytes, rounds: Bytes, field: Bytes) {
    && DOLLAR !in rounds && DOLLAR !in field
    && hash == TAG + rounds + [DOLLAR] + field + [DOLLAR] + Hex.Encode(Derive(mac, password, SaltOf(field, 16)))
  }

  lemma FirstDollar(hash: Bytes)
    requires 8 <= |hash| < NPOS && hash[..8] == TAG
    ensures Find(hash, 1) == 7
  {
    hide IndexOf;
    var r := IndexOf(hash, DOLLAR, 1);
    assert hash[7] == hash[..8][7] && forall i :: 1 <= i < 7 ==> hash[i] == hash[..8][i];
  }

  lemma FindAt(s: Bytes, from: nat, part: Bytes, tail: Bytes)
    requires |s| < NPOS && from <= |s| && s[from..] == part + [DOLLAR] + tail && DOLLAR !in part
    ensures Find(s, from) == from + |part|
  {
    hide IndexOf;
    var r := IndexOf(s, DOLLAR, from);
    assert s[from + |part|] == s[from..][|part|] == DOLLAR;
    assert forall i :: from <= i < from + |part| ==> s[i] == s[from..][i - from] == part[i - from];
  }

  /** A hash whose fields fit is accepted. */
  lemma FittingVerifies(mac: Hmac.MacFunction, password: Bytes, hash: Bytes, rounds: Bytes, field: Bytes)
    requires |hash| < NPOS && Fits(mac, password, hash, rounds, field)
    ensures Verify(mac, password, hash)
  {
    hide Find, Wrap, Derive, SaltOf;
    var tail := Hex.Encode(Derive(mac, password, SaltOf(field, 16)));
    assert hash[..8] == TAG;
    FirstDollar(hash);
    assert hash[8..] == rounds + [DOLLAR] + (field + [DOLLAR] + tail);
    FindAt(hash, 8, rounds, field + [DOLLAR] + tail);
    var second := 8 + |rounds|;
    assert hash[second + 1..] == field + [DOLLAR] + tail;
    FindAt(hash, second + 1, field, tail);
    WrapIs(8);
    WrapIs(second + 1);
    WrapIs(|field|);
    assert Substr(hash, second + 1, |field|) == field;
    assert hash[second + 1 + |field| + 1..] == tail;
  }

  /** Without a second dollar after the tag the search wraps around to the first character, and the comparison fails. */
  lemma WrappedSearchFails(mac: Hmac.MacFunction, password: Bytes, hash: Bytes)
    requires 8 <= |hash| < NPOS && hash[..8] == TAG && Find(hash, 8) == NPOS
    ensures !Verify(mac, password, hash)
  {
    hide Derive, SaltOf, Substr, IndexOf;
    FirstDollar(hash);
    WrapIs(8);
    WrapIs(NPOS + 1);
    var third := Find(hash, 0);
    assert hash[0] == hash[..8][0] && hash[1] == hash[..8][1] == 115;
    assert third == 0;
    assert hash[third + 1..][0] == 115;
    HexHas(Derive(mac, password, SaltOf(Substr(hash, 0, Wrap(third - NPOS - 1)), 16)));
  }

  lemma Fields(hash: Bytes, second: nat, third: nat)
    requires 8 <= |hash| < NPOS && hash[..8] == TAG && second == Find(hash, 8) && second < NPOS
    requires third == Find(hash, second + 1) && third < NPOS
    ensures 8 <= second < third < |hash|
    ensures DOLLAR !in hash[8..second] && DOLLAR !in hash[second + 1..third]
    ensures hash == TAG + hash[8..second] + [DOLLAR] + hash[second + 1..third] + [DOLLAR] + hash[third + 1..]
  {
    hide IndexOf;
    assert hash[second] == DOLLAR && hash[third] == DOLLAR;
    assert hash == hash[..8] + hash[8..second] + [hash[second]] + hash[second + 1..third] + [hash[third]]
        + hash[third + 1..];
  }

  /** Verification of a hash with a second and a third dollar, spelled out. */
  lemma VerifyAt(mac: Hmac.MacFunction, password: Bytes, hash: Bytes, second: nat, third: nat)
    requires 8 <= |hash| < NPOS && hash[..8] == TAG && second == Find(hash, 8) && second < NPOS
    requires third == Find(hash, second + 1) && third < NPOS
    ensures 8 <= second < third < |hash|
    ensures Verify(mac, password, hash) <==>
            Hex.Encode(Derive(mac, password, SaltOf(hash[second + 1..third], 16))) == hash[third + 1..]
  {
    hide Derive, SaltOf, Find, Wrap, Hex.Encode;
    FirstDollar(hash);
    WrapIs(8);
    WrapIs(second + 1);
    Fields(hash, second, third);
    WrapIs(third - second - 1);
    assert Substr(hash, second + 1, third - second - 1) == hash[second + 1..third];
  }

  /** Without a third dollar verification fails. */
  lemma VerifyNeedsThird(mac: Hmac.MacFunction, password: Bytes, hash: Bytes)
    requires 8 <= |hash| < NPOS && hash[..8] == TAG && Find(hash, 8) < NPOS && Find(hash, Find(hash, 8) + 1) == NPOS
    ensures !Verify(mac, password, hash)
  {
    hide Derive, SaltOf, Find, Wrap, Substr;
    FirstDollar(hash);
    WrapIs(8);
    WrapIs(Find(hash, 8) + 1);
  }

  /** What an accepted hash looks like. */
  lemma VerifiedFits(mac: Hmac.MacFunction, password: Bytes, hash: Bytes)
    requires |hash| < NPOS
    ensures Verify(mac, password, hash) ==> exists rounds, field :: Fits(mac, password, hash, rounds, field)
  {
    hide Derive, SaltOf, Find, Verify, Hex.Encode;
    VerifyNeedsTag(mac, password, hash);
    if Verify(mac, password, hash) {
      FindIs(hash, 8);
      var second: int := Find(hash, 8);
      if second == NPOS {
        WrappedSearchFails(mac, password, hash);
      } else {
        FindIs(hash, second + 1);
        var third: int := Find(hash, second + 1);
        if third == NPOS {
          VerifyNeedsThird(mac, password, hash);
        } else {
          VerifyAt(mac, password, hash, second, third);
          Fields(hash, second, third);
          assert Fits(mac, password, hash, hash[8..second], hash[second + 1..third]);
        }
      }
    }
  }

  lemma VerifyNeedsTag(mac: Hmac.MacFunction, password: Bytes, hash: Bytes)
    requires |hash| < NPOS
    ensures Verify(mac, password, hash) ==> 8 <= |hash| && hash[..8] == TAG
  {
    hide Find, Wrap, Substr, SaltOf, Derive;
  }

  /** A stored hash is accepted exactly when its fields fit the password. */
  lemma VerifiesExactly(mac: Hmac.MacFunction, password: Bytes, hash: Bytes)
    requires |hash| < NPOS
    ensures Verify(mac, password, hash) <==> exists rounds, field :: Fits(mac, password, hash, rounds, field)
  {
    hide Verify, Fits;
    if Verify(mac, password, hash) {
      VerifiedFits(mac, password, hash);
    }
    if rounds: Bytes, field: Bytes :| Fits(mac, password, hash, rounds, field) {
      FittingVerifies(mac, password, hash, rounds, field);
    }
  }

  /**
   The round trip, for every salt and whatever lies beyond it: the hash of a password accepts that
   password, and another exactly when both derive the same key.
   */
  lemma StoredVerifies(mac: Hmac.MacFunction, password: Bytes, salt: Bytes, beyond: Bytes, other: Bytes)
    requires |salt| == 16 && |beyond| == 16 && |Stored(mac, password, salt, beyond)| < NPOS
    ensures Verify(mac, other, Stored(mac, password, salt, beyond)) <==>
            Derive(mac, other, salt) == Derive(mac, password, salt)
    ensures Verify(mac, password, Stored(mac, password, salt, beyond))
  {
    hide Derive, SaltOf, Verify;
    var hash := Stored(mac, password, salt, beyond);
    var field := Hex.Encode(salt + beyond);
    var rounds: Bytes := ROUNDS[..5];
    HexHas(salt + beyond);
    SaltReadBack(salt, beyond);
    var key := Hex.Encode(Derive(mac, password, salt));
    assert hash == TAG + rounds + [DOLLAR] + field + [DOLLAR] + key;
    assert Fits(mac, password, hash, rounds, field);
    FittingVerifies(mac, password, hash, rounds, field);
    if Derive(mac, other, salt) == Derive(mac, password, salt) {
      assert Fits(mac, other, hash, rounds, field);
      FittingVerifies(mac, other, hash, rounds, field);
    }
    if Verify(mac, other, hash) {
      VerifiedFits(mac, other, hash);
      var r: Bytes, f: Bytes :| Fits(mac, other, hash, r, f);
      SplitOnce(hash, rounds, field, key, r, f, Hex.Encode(Derive(mac, other, SaltOf(f, 16))));
      Hex.RoundTrip(Derive(mac, other, salt), true);
      Hex.RoundTrip(Derive(mac, password, salt), true);
    }
  }

  /** Fields without dollars are determined by the whole. */
  lemma SplitOnce(hash: Bytes, a: Bytes, b: Bytes, c: Bytes, x: Bytes, y: Bytes, z: Bytes)
    requires DOLLAR !in a && DOLLAR !in b && DOLLAR !in x && DOLLAR !in y && |hash| < NPOS
    requires hash == TAG + a + [DOLLAR] + b + [DOLLAR] + c == TAG + x + [DOLLAR] + y + [DOLLAR] + z
    ensures a == x && b == y && c == z
  {
    hide Find;
    assert hash[8..] == a + [DOLLAR] + (b + [DOLLAR] + c);
    assert hash[8..] == x + [DOLLAR] + (y + [DOLLAR] + z);
    FindAt(hash, 8, a, b + [DOLLAR] + c);
    FindAt(hash, 8, x, y + [DOLLAR] + z);
    var second := 8 + |a|;
    assert a == hash[8..second] == x;
    assert hash[second + 1..] == b + [DOLLAR] + c && hash[second + 1..] == y + [DOLLAR] + z;
    FindAt(hash, second + 1, b, c);
    FindAt(hash, second + 1, y, z);
    assert b == hash[second + 1..second + 1 + |b|] == y;
    assert c == hash[second + 2 + |b|..] == z;
  }

  // ----- What the derived key depends on -----

  /** The keys of a derivation: the first MAC, and each MAC of the one before under itself. */
  ghost predicate KeyChain(mac: Hmac.MacFunction, input: Bytes, keys: seq<Bytes>) {
    && keys != [] && keys[0] == mac(Zeros(32), input)
    && forall i :: 0 < i < |keys| ==> keys[i] == mac(keys[i - 1], keys[i - 1])
  }

  /** Such a chain with the key at its end, as long as the rounds field says. */
  ghost predicate Yields(mac: Hmac.MacFunction, input: Bytes, keys: seq<Bytes>, key: Bytes) {
    KeyChain(mac, input, keys) && keys[|keys| - 1] == key && Ascii(Decimal(|keys|)) + [DOLLAR] == ROUNDS
  }

  lemma {:induction false} IterateChain(mac: Hmac.MacFunction, input: Bytes, n: nat) returns (keys: seq<Bytes>)
    ensures KeyChain(mac, input, keys) && |keys| == n + 1
    ensures forall i :: 0 <= i <= n ==> keys[i] == Iterate(mac, mac(Zeros(32), input), i)
  {
    if n == 0 {
      keys := [mac(Zeros(32), input)];
    } else {
      keys := IterateChain(mac, input, n - 1);
      keys := keys + [mac(keys[n - 1], keys[n - 1])];
    }
  }

  /** Two chains of one input are alike as far as both go. */
  lemma {:induction false} ChainIsOne(mac: Hmac.MacFunction, input: Bytes, keys: seq<Bytes>, others: seq<Bytes>, i: nat)
    requires KeyChain(mac, input, keys) && KeyChain(mac, input, others) && i < |keys| && i < |others|
    ensures keys[i] == others[i]
  {
    if i > 0 {
      ChainIsOne(mac, input, keys, others, i - 1);
    }
  }

  /**
   The derived key is the last of as many MACs as the rounds field of the stored text says: the first is of password
   and salt under the zero key, each other of its predecessor under itself.
   */
  lemma RoundsAreMacs(mac: Hmac.MacFunction, password: Bytes, salt: Bytes, key: Bytes)
    ensures Derive(mac, password, salt) == key <==>
            exists keys :: Yields(mac, password + salt, keys, key)
  {
    hide Decimal, Iterate;
    RoundsIs();
    var keys := IterateChain(mac, password + salt, 9999);
    if Derive(mac, password, salt) == key {
      assert Yields(mac, password + salt, keys, key);
    }
    if others: seq<Bytes> :| Yields(mac, password + salt, others, key) {
      RoundsOnly(|others|);
      ChainIsOne(mac, password + salt, keys, others, 9999);
    }
  }

  lemma RoundsIs()
    ensures Ascii(Decimal(10000)) + [DOLLAR] == ROUNDS
  {
    assert Decimal(10000) == "10000" by {
      assert Decimal(1000) == "1000" by {
        assert Decimal(100) == "100";
      }
    }
  }

  /** The field says one number only. */
  lemma RoundsOnly(n: nat)
    requires Ascii(Decimal(n)) + [DOLLAR] == ROUNDS
    ensures n == 10000
  {
    hide Decimal;
    RoundsIs();
    var s := Ascii(Decimal(n));
    assert s == (s + [DOLLAR])[..|s|] && Ascii(Decimal(10000)) == (Ascii(Decimal(10000)) + [DOLLAR])[..|s|];
    AsciiDecimal(n);
    AsciiDecimal(10000);
    Ip.ValueDecimal(n);
    Ip.ValueDecimal(10000);
    assert Decimal(n) == Decimal(10000);
  }

  lemma AsciiDecimal(n: nat)
    ensures forall i :: 0 <= i < |Decimal(n)| ==> Decimal(n)[i] as int == Ascii(Decimal(n))[i]
  {
    Ip.ValueDecimal(n);
    forall i | 0 <= i < |Decimal(n)|
      ensures Decimal(n)[i] as int == Ascii(Decimal(n))[i]
    {
      assert Decimal(n)[i] in Decimal(n);
    }
  }

  /** One output of the MAC for two different arguments. */
  predicate MacCollides(mac: Hmac.MacFunction, k: Bytes, x: Bytes, l: Bytes, y: Bytes) {
    (k, x) != (l, y) && mac(k, x) == mac(l, y)
  }

  /** Within the derivations from two inputs the MAC collides, at the first step or at a later one. */
  ghost predicate ChainsCollide(mac: Hmac.MacFunction, x: Bytes, y: Bytes) {
    || MacCollides(mac, Zeros(32), x, Zeros(32), y)
    || exists keys: seq<Bytes>, others: seq<Bytes>, i: nat :: CollidesAt(mac, x, keys, y, others, i)
  }

  ghost predicate CollidesAt(mac: Hmac.MacFunction, x: Bytes, keys: seq<Bytes>, y: Bytes, others: seq<Bytes>, i: nat) {
    && KeyChain(mac, x, keys) && KeyChain(mac, y, others) && i < |keys| == |others| == 9999
    && MacCollides(mac, keys[i], keys[i], others[i], others[i])
  }

  /** Different inputs give one derived key exactly by a collision of the MAC within the two derivations. */
  lemma SameKeyExactly(mac: Hmac.MacFunction, x: Bytes, y: Bytes)
    requires x != y
    ensures Iterate(mac, mac(Zeros(32), x), 9999) == Iterate(mac, mac(Zeros(32), y), 9999) <==> ChainsCollide(mac, x, y)
  {
    hide Iterate;
    var keys := IterateChain(mac, x, 9999);
    var others := IterateChain(mac, y, 9999);
    if keys[9999] == others[9999] && !MacCollides(mac, Zeros(32), x, Zeros(32), y) {
      var i := FirstAlike(keys, others, 9999);
      Shorter(mac, x, keys);
      Shorter(mac, y, others);
      assert CollidesAt(mac, x, keys[..9999], y, others[..9999], i);
    }
    if MacCollides(mac, Zeros(32), x, Zeros(32), y) {
      AlikeOn(mac, x, keys, y, others, 0, 9999);
    } else if ks: seq<Bytes>, os: seq<Bytes>, i: nat :| CollidesAt(mac, x, ks, y, os, i) {
      ChainIsOne(mac, x, keys, ks, i);
      ChainIsOne(mac, y, others, os, i);
      AlikeOn(mac, x, keys, y, others, i + 1, 9999);
    }
  }

  lemma Shorter(mac: Hmac.MacFunction, input: Bytes, keys: seq<Bytes>)
    requires KeyChain(mac, input, keys) && |keys| == 10000
    ensures KeyChain(mac, input, keys[..9999])
  {
  }

  /** Two chains unlike at first and alike at last are unlike at some step and alike at the next. */
  lemma {:induction false} FirstAlike(keys: seq<Bytes>, others: seq<Bytes>, n: nat) returns (i: nat)
    requires n < |keys| && n < |others| && keys[0] != others[0] && keys[n] == others[n]
    ensures i < n && keys[i] != others[i] && keys[i + 1] == others[i + 1]
  {
    if keys[n - 1] == others[n - 1] {
      i := FirstAlike(keys, others, n - 1);
    } else {
      i := n - 1;
    }
  }

  /** Once alike two chains stay alike. */
  lemma {:induction false} AlikeOn(mac: Hmac.MacFunction, x: Bytes, keys: seq<Bytes>, y: Bytes, others: seq<Bytes>,
      i: nat,
      n: nat)
    requires KeyChain(mac, x, keys) && KeyChain(mac, y, others) && i <= n < |keys| == |others| && keys[i] == others[i]
    ensures keys[n] == others[n]
    decreases n
  {
    if i < n {
      AlikeOn(mac, x, keys, y, others, i, n - 1);
    }
  }

  /**
   A stored hash accepts another password exactly if the MAC collides within the two derivations, on password and salt
   or on the keys of one of the later steps.
   */
  lemma WrongPasswordCollides(mac: Hmac.MacFunction, password: Bytes, salt: Bytes, beyond: Bytes, other: Bytes)
    requires |salt| == 16 && |beyond| == 16 && |Stored(mac, password, salt, beyond)| < NPOS && other != password
    ensures Verify(mac, other, Stored(mac, password, salt, beyond)) <==>
            ChainsCollide(mac, other + salt, password + salt)
  {
    hide Iterate, Verify, Stored, ChainsCollide;
    StoredVerifies(mac, password, salt, beyond, other);
    var x, y := other + salt, password + salt;
    assert x[..|x| - 16] == other && y[..|y| - 16] == password;
    SameKeyExactly(mac, x, y);
  }

  /** Two salts give one password the same key exactly by such a collision. */
  lemma OtherSaltCollides(mac: Hmac.MacFunction, password: Bytes, salt: Bytes, other: Bytes)
    requires |salt| == |other| == 16 && salt != other
    ensures Derive(mac, password, salt) == Derive(mac, password, other) <==>
            ChainsCollide(mac, password + salt, password + other)
  {
    hide Iterate, ChainsCollide;
    var x, y := password + salt, password + other;
    assert x[|password|..] == salt && y[|password|..] == other;
    SameKeyExactly(mac, x, y);
  }

  /** The stored text, field by field. */
  lemma StoredText(mac: Hmac.MacFunction, password: Bytes, salt: Bytes, beyond: Bytes)
    ensures Stored(mac, password, salt, beyond)
            == Ascii("$sha256$10000$") + Hex.Encode(salt + beyond) + Ascii("$")
                + Hex.Encode(Derive(mac, password, salt))
  {
    assert Ascii("$sha256$10000$") == TAG + ROUNDS && Ascii("$") == [DOLLAR];
  }
}
