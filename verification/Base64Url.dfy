/**
 URL-safe base64 with its padding stripped and restored: base64_encode, base64_decode, strip_pad and the
 padding loop of src/auth/jwt.cpp (RFC 4648, section 5; RFC 7515, appendix C).
 */
module Base64Url {
  import opened Basics

  const PAD: Byte := 61

  const DOT: Byte := 46

  /** "ABC...Zabc...z0123456789-_"[n]. */
  function Letter(n: nat): (r: Byte)
    requires n < 64
  {
    if n < 26 then 'A' as int + n
    else if n < 52 then 'a' as int + (n - 26)
    else if n < 62 then '0' as int + (n - 52)
    else if n == 62 then '-' as int
    else '_' as int
  }

  /** The decoding table at c - 45, 0 for the padding; None where the read falls outside the table. */
  function Value(c: Byte): (r: Option<nat>)
    ensures r.Some? ==> r.value < 64
  {
    if c == PAD then Some(0)
    else if c < 45 || c > 122 then None
    else if 'A' as int <= c <= 'Z' as int then Some(c - 'A' as int)
    else if 'a' as int <= c <= 'z' as int then Some(c - 'a' as int + 26)
    else if '0' as int <= c <= '9' as int then Some(c - '0' as int + 52)
    else if c == '-' as int then Some(62)
    else if c == '_' as int then Some(63)
    else Some(0)
  }

  /** Four letters for one to three bytes, padded. */
  function EncodeGroup(g: Bytes): (r: Bytes)
    requires 1 <= |g| <= 3
    ensures |r| == 4
  {
    var b0 := g[0];
    var b1 := if |g| > 1 then g[1] else 0;
    var b2 := if |g| > 2 then g[2] else 0;
    [Letter(b0 / 4), Letter(b0 % 4 * 16 + b1 / 16),
     if |g| > 1 then Letter(b1 % 16 * 4 + b2 / 64) else PAD,
     if |g| > 2 then Letter(b2 % 64) else PAD]
  }

  function Encode(input: Bytes): (r: Bytes) {
    if |input| == 0 then []
    else if |input| <= 3 then EncodeGroup(input)
    else EncodeGroup(input[..3]) + Encode(input[3..])
  }

  function DecodeGroup(q: Bytes): (r: Option<Bytes>)
    requires |q| == 4
  {
    var v0, v1, v2, v3 := Value(q[0]), Value(q[1]), Value(q[2]), Value(q[3]);
    if v0.None? || v1.None? || v2.None? || v3.None? then None
    else Some([(v0.value * 4 + v1.value / 16)]
              + (if q[2] != PAD then [v1.value % 16 * 16 + v2.value / 4] else [])
              + (if q[3] != PAD then [v2.value % 4 * 64 + v3.value] else []))
  }

  /** None when a character reads outside the table. */
  function Decode(text: Bytes): (r: Option<Bytes>)
    requires |text| % 4 == 0
  {
    if |text| == 0 then Some([])
    else
      var head := DecodeGroup(text[..4]);
      var rest := Decode(text[4..]);
      if head.None? || rest.None? then None else Some(head.value + rest.value)
  }

  function StripPad(s: Bytes): (r: Bytes) {
    if s != [] && s[|s| - 1] == PAD then StripPad(s[..|s| - 1]) else s
  }

  function Pads(n: nat): (r: Bytes)
    ensures |r| == n && forall i :: 0 <= i < n ==> r[i] == PAD
  {
    seq(n, _ => PAD)
  }

  /** Padding up to a multiple of four. */
  function RestorePad(s: Bytes): (r: Bytes)
    ensures |r| % 4 == 0
  {
    if |s| % 4 == 0 then s else s + Pads(4 - |s| % 4)
  }

  // ----- Properties -----

  lemma LetterValue(n: nat)
    requires n < 64
    ensures Value(Letter(n)) == Some(n) && Letter(n) != PAD && Letter(n) != DOT
  {
  }

  lemma GroupRoundTrip(g: Bytes)
    requires 1 <= |g| <= 3
    ensures DecodeGroup(EncodeGroup(g)) == Some(g)
  {
    hide Letter, Value;
    var b0 := g[0];
    var b1 := if |g| > 1 then g[1] else 0;
    var b2 := if |g| > 2 then g[2] else 0;
    LetterValue(b0 / 4);
    LetterValue(b0 % 4 * 16 + b1 / 16);
    LetterValue(b1 % 16 * 4 + b2 / 64);
    LetterValue(b2 % 64);
    PadIsZero();
    Sextets(b0, b1, b2);
    assert DecodeGroup(EncodeGroup(g)).value == g;
  }

  /** Four groups of six bits put back as three bytes. */
  lemma Sextets(b0: Byte, b1: Byte, b2: Byte)
    ensures b0 / 4 * 4 + (b0 % 4 * 16 + b1 / 16) / 16 == b0
    ensures (b0 % 4 * 16 + b1 / 16) % 16 * 16 + (b1 % 16 * 4 + b2 / 64) / 4 == b1
    ensures (b1 % 16 * 4 + b2 / 64) % 4 * 64 + b2 % 64 == b2
  {
  }

  lemma PadIsZero()
    ensures Value(PAD) == Some(0)
  {
  }

  lemma {:induction false} EncodedLength(input: Bytes)
    ensures |Encode(input)| % 4 == 0
    decreases |input|
  {
    hide EncodeGroup;
    if |input| > 3 {
      EncodedLength(input[3..]);
    }
  }

  lemma {:induction false} DecodeEncode(input: Bytes)
    ensures |Encode(input)| % 4 == 0 && Decode(Encode(input)) == Some(input)
    decreases |input|
  {
    hide EncodeGroup, DecodeGroup;
    EncodedLength(input);
    if |input| > 3 {
      var g, rest := EncodeGroup(input[..3]), Encode(input[3..]);
      DecodeEncode(input[3..]);
      GroupRoundTrip(input[..3]);
      assert (g + rest)[..4] == g && (g + rest)[4..] == rest;
      assert input[..3] + input[3..] == input;
    } else if |input| > 0 {
      GroupRoundTrip(input);
      var g := EncodeGroup(input);
      assert g[..4] == g && g[4..] == [];
      assert Decode(g[4..]) == Some([]) && input + [] == input;
    }
  }

  /** Letters only, then at most two pads, to a multiple of four. */
  ghost predicate Shaped(text: Bytes, body: Bytes, p: nat) {
    && p <= 2 && text == body + Pads(p) && |text| % 4 == 0
    && forall c :: c in body ==> c != PAD && c != DOT
  }

  lemma GroupShaped(g: Bytes)
    requires 1 <= |g| <= 3
    ensures Shaped(EncodeGroup(g), EncodeGroup(g)[..|g| + 1], 3 - |g|)
  {
    hide Letter;
    var b0 := g[0];
    var b1 := if |g| > 1 then g[1] else 0;
    var b2 := if |g| > 2 then g[2] else 0;
    LetterValue(b0 / 4);
    LetterValue(b0 % 4 * 16 + b1 / 16);
    LetterValue(b1 % 16 * 4 + b2 / 64);
    LetterValue(b2 % 64);
  }

  lemma {:induction false} EncodeShaped(input: Bytes) returns (body: Bytes, p: nat)
    ensures Shaped(Encode(input), body, p)
    decreases |input|
  {
    hide EncodeGroup;
    if |input| == 0 {
      body, p := [], 0;
    } else if |input| <= 3 {
      GroupShaped(input);
      body, p := EncodeGroup(input)[..|input| + 1], 3 - |input|;
    } else {
      var rest;
      rest, p := EncodeShaped(input[3..]);
      GroupShaped(input[..3]);
      var g := EncodeGroup(input[..3]);
      assert g[..4] == g;
      body := g + rest;
      assert g + (rest + Pads(p)) == body + Pads(p);
    }
  }

  lemma {:induction false} StripIs(body: Bytes, p: nat)
    requires forall c :: c in body ==> c != PAD
    ensures StripPad(body + Pads(p)) == body
    decreases p
  {
    var s := body + Pads(p);
    if p > 0 {
      assert s[..|s| - 1] == body + Pads(p - 1);
      StripIs(body, p - 1);
    } else {
      assert s == body;
      assert s != [] ==> s[|s| - 1] in body;
    }
  }

  /** Restoring the padding undoes stripping it, for the text of any bytes. */
  lemma StripRestores(input: Bytes)
    ensures RestorePad(StripPad(Encode(input))) == Encode(input)
    ensures DOT !in StripPad(Encode(input)) && PAD !in StripPad(Encode(input))
  {
    hide Encode, StripPad;
    var body, p := EncodeShaped(input);
    StripIs(body, p);
  }

  /** Every byte string survives encoding, stripping, restoring and decoding. */
  lemma RoundTrip(input: Bytes)
    ensures Decode(RestorePad(StripPad(Encode(input)))) == Some(input)
  {
    hide Encode, StripPad, Decode, RestorePad;
    StripRestores(input);
    DecodeEncode(input);
  }

  lemma Injective(a: Bytes, b: Bytes)
    requires StripPad(Encode(a)) == StripPad(Encode(b))
    ensures a == b
  {
    hide Encode, StripPad, Decode, RestorePad;
    RoundTrip(a);
    RoundTrip(b);
  }

  // ----- The alphabet -----

  const ALPHABET := "ABCDEFGHIJKLMNOPQRSTUVWXYZ" + "abcdefghijklmnopqrstuvwxyz" + "0123456789-_"

  /** Letter n is the nth of the URL-safe alphabet, table 2 of RFC 4648. */
  lemma LetterIs(n: nat)
    requires n < 64
    ensures |ALPHABET| == 64 && Letter(n) == ALPHABET[n] as int
  {
    if n < 26 {
      UpperIs(n);
    } else if n < 52 {
      LowerIs(n - 26);
    }
  }

  lemma UpperIs(n: nat)
    requires n < 26
    ensures "ABCDEFGHIJKLMNOPQRSTUVWXYZ"[n] as int == 'A' as int + n
  {
  }

  lemma LowerIs(n: nat)
    requires n < 26
    ensures "abcdefghijklmnopqrstuvwxyz"[n] as int == 'a' as int + n
  {
  }

  /** Three bytes and their four letters spell one number, most significant first. */
  lemma GroupSpells(b0: Byte, b1: Byte, b2: Byte, v: seq<nat>)
    requires |v| == 4 && (forall i :: 0 <= i < 4 ==> v[i] < 64)
    requires EncodeGroup([b0, b1, b2]) == [Letter(v[0]), Letter(v[1]), Letter(v[2]), Letter(v[3])]
    ensures (b0 * 256 + b1) * 256 + b2 == ((v[0] * 64 + v[1]) * 64 + v[2]) * 64 + v[3]
  {
    hide Letter;
    LetterValue(b0 / 4);
    LetterValue(b0 % 4 * 16 + b1 / 16);
    LetterValue(b1 % 16 * 4 + b2 / 64);
    LetterValue(b2 % 64);
    LetterValue(v[0]);
    LetterValue(v[1]);
    LetterValue(v[2]);
    LetterValue(v[3]);
    var g := EncodeGroup([b0, b1, b2]);
    assert g[0] == Letter(v[0]) && g[1] == Letter(v[1]) && g[2] == Letter(v[2]) && g[3] == Letter(v[3]);
  }

  /** A shorter group spells its bytes followed by zero bits, and then the padding. */
  lemma ShortGroupSpells(b0: Byte, b1: Byte, v: seq<nat>)
    requires |v| == 3 && forall i :: 0 <= i < 3 ==> v[i] < 64
    ensures EncodeGroup([b0]) == [Letter(v[0]), Letter(v[1]), PAD, PAD] ==> b0 * 16 == v[0] * 64 + v[1]
    ensures EncodeGroup([b0, b1]) == [Letter(v[0]), Letter(v[1]), Letter(v[2]), PAD] ==>
              (b0 * 256 + b1) * 4 == (v[0] * 64 + v[1]) * 64 + v[2]
    ensures EncodeGroup([b0])[2..] == [PAD, PAD] && EncodeGroup([b0, b1])[3] == PAD
  {
    hide Letter;
    LetterValue(b0 / 4);
    LetterValue(b0 % 4 * 16);
    LetterValue(b0 % 4 * 16 + b1 / 16);
    LetterValue(b1 % 16 * 4);
    LetterValue(v[0]);
    LetterValue(v[1]);
    LetterValue(v[2]);
    var g, h := EncodeGroup([b0]), EncodeGroup([b0, b1]);
    if g == [Letter(v[0]), Letter(v[1]), PAD, PAD] {
      assert g[0] == Letter(v[0]) && g[1] == Letter(v[1]);
    }
    if h == [Letter(v[0]), Letter(v[1]), Letter(v[2]), PAD] {
      assert h[0] == Letter(v[0]) && h[1] == Letter(v[1]) && h[2] == Letter(v[2]);
    }
  }

  predicate InAlphabet(c: Byte) { exists n :: 0 <= n < 64 && c == Letter(n) }

  lemma GroupLetters(g: Bytes)
    requires 1 <= |g| <= 3
    ensures forall c :: c in EncodeGroup(g) ==> c == PAD || InAlphabet(c)
  {
    hide Letter;
  }

  lemma {:induction false} EncodedLetters(input: Bytes)
    ensures forall c :: c in Encode(input) ==> c == PAD || InAlphabet(c)
    decreases |input|
  {
    hide EncodeGroup, InAlphabet;
    if |input| > 3 {
      GroupLetters(input[..3]);
      EncodedLetters(input[3..]);
    } else if |input| > 0 {
      GroupLetters(input);
    }
  }

  lemma {:induction false} StrippedFrom(s: Bytes)
    ensures forall c :: c in StripPad(s) ==> c in s
  {
    if s != [] && s[|s| - 1] == PAD {
      StrippedFrom(s[..|s| - 1]);
    }
  }

  /** A stripped encoding has letters of the alphabet only. */
  lemma StrippedLetters(input: Bytes)
    ensures forall c :: c in StripPad(Encode(input)) ==> InAlphabet(c)
  {
    hide Encode, StripPad, InAlphabet;
    EncodedLetters(input);
    StrippedFrom(Encode(input));
    StripRestores(input);
  }

  // ----- What is outside the alphabet -----

  /** A letter is read as its place in the alphabet; of other characters the table holds 0 from '-' to 'z'. */
  lemma ValueIs(c: Byte)
    ensures Value(c).None? <==> c < 45 || c > 122
    ensures forall n :: 0 <= n < 64 && ALPHABET[n] as int == c ==> Value(c) == Some(n)
    ensures Value(c).Some? && !InAlphabet(c) ==> Value(c) == Some(0)
  {
    hide Letter;
    forall n | 0 <= n < 64 && ALPHABET[n] as int == c
      ensures Value(c) == Some(n)
    {
      LetterIs(n);
      LetterValue(n);
    }
    if Value(c).Some? && Value(c).value > 0 {
      LetterIs(Value(c).value);
      LetterOf(c);
    }
  }

  lemma LetterOf(c: Byte)
    requires Value(c).Some? && Value(c).value > 0
    ensures Letter(Value(c).value) == c
  {
  }

  /** Decoding stays inside the table exactly if every character lies between '-' and 'z'. */
  lemma {:induction false} DecodesExactly(text: Bytes)
    requires |text| % 4 == 0
    ensures Decode(text).Some? <==> forall c :: c in text ==> 45 <= c <= 122
    decreases |text|
  {
    if text != [] {
      hide DecodeGroup;
      DecodesExactly(text[4..]);
      GroupDecodes(text[..4]);
      assert text == text[..4] + text[4..];
      assert forall c :: c in text <==> c in text[..4] || c in text[4..];
    }
  }

  lemma GroupDecodes(q: Bytes)
    requires |q| == 4
    ensures DecodeGroup(q).Some? <==> forall c :: c in q ==> 45 <= c <= 122
  {
    hide Value, InAlphabet;
    ValueIs(q[0]);
    ValueIs(q[1]);
    ValueIs(q[2]);
    ValueIs(q[3]);
    assert q == [q[0], q[1], q[2], q[3]];
    assert q[0] in q && q[1] in q && q[2] in q && q[3] in q;
    assert DecodeGroup(q).None?
        <==> Value(q[0]).None? || Value(q[1]).None? || Value(q[2]).None? || Value(q[3]).None?;
  }

  // ----- The loops -----

  lemma {:induction false} EncodeMore(done: Bytes, g: Bytes)
    requires |done| % 3 == 0 && 1 <= |g| <= 3
    ensures Encode(done + g) == Encode(done) + EncodeGroup(g)
    decreases |done|
  {
    hide EncodeGroup;
    if |done| == 0 {
      assert done + g == g;
    } else {
      EncodeMore(done[3..], g);
      assert (done + g)[..3] == done[..3] && (done + g)[3..] == done[3..] + g;
      if |done| == 3 {
        assert done[..3] == done && done[3..] == [];
      }
    }
  }

  method Base64Encode(input: Bytes) returns (out: Bytes)
    ensures out == Encode(input)
  {
    hide Encode, EncodeGroup;
    out := [];
    EncodeNothing();
    var i := 0;
    while i < |input|
      invariant 0 <= i && i % 3 == 0
      invariant i <= |input| ==> out == Encode(input[..i])
      invariant i > |input| ==> out == Encode(input)
    {
      var n := if |input| - i < 3 then |input| - i else 3;
      var b0 := input[i];
      var b1 := if n > 1 then input[i + 1] else 0;
      var b2 := if n > 2 then input[i + 2] else 0;
      ghost var before := out;
      out := out + [Letter(b0 / 4)];
      out := out + [Letter(b0 % 4 * 16 + b1 / 16)];
      out := out + [if n > 1 then Letter(b1 % 16 * 4 + b2 / 64) else PAD];
      out := out + [if n > 2 then Letter(b2 % 64) else PAD];
      ghost var g := input[i..i + n];
      GroupIs(g, b0, b1, b2);
      assert out == before + EncodeGroup(g);
      EncodeMore(input[..i], g);
      assert input[..i] + g == input[..i + n];
      if i + 3 >= |input| {
        assert input[..i + n] == input;
      }
      i := i + 3;
    }
    assert i == |input| ==> input[..i] == input;
  }

  lemma EncodeNothing()
    ensures Encode([]) == []
  {
  }

  lemma GroupIs(g: Bytes, b0: Byte, b1: Byte, b2: Byte)
    requires 1 <= |g| <= 3 && b0 == g[0]
    requires b1 == (if |g| > 1 then g[1] else 0) && b2 == if |g| > 2 then g[2] else 0
    ensures EncodeGroup(g) == [Letter(b0 / 4), Letter(b0 % 4 * 16 + b1 / 16),
                               if |g| > 1 then Letter(b1 % 16 * 4 + b2 / 64) else PAD,
                               if |g| > 2 then Letter(b2 % 64) else PAD]
  {
  }

  method Base64Decode(input: Bytes) returns (r: Option<Bytes>)
    requires |input| % 4 == 0
    ensures r == Decode(input)
  {
    hide Value, Decode, DecodeGroup, Prepend;
    var out: Bytes := [];
    var i := 0;
    assert input[0..] == input;
    PrependIs([], [], Decode(input));
    while i < |input|
      invariant 0 <= i <= |input| && i % 4 == 0
      invariant Decode(input) == Prepend(out, Decode(input[i..]))
    {
      var v0, v1, v2, v3 := Value(input[i]), Value(input[i + 1]), Value(input[i + 2]), Value(input[i + 3]);
      DecodeStep(out, input, i);
      if v0.None? || v1.None? || v2.None? || v3.None? {
        return None;
      }
      ghost var before := out;
      out := out + [v0.value * 4 + v1.value / 16];
      if input[i + 2] != PAD {
        out := out + [v1.value % 16 * 16 + v2.value / 4];
      }
      if input[i + 3] != PAD {
        out := out + [v2.value % 4 * 64 + v3.value];
      }
      assert out == before + Three(v0.value, v1.value, v2.value, v3.value, input[i + 2] != PAD, input[i + 3] != PAD);
      i := i + 4;
    }
    DecodeNothing(out, input[i..]);
    return Some(out);
  }

  /** The bytes of four six-bit values, the last two optional. */
  function Three(v0: nat, v1: nat, v2: nat, v3: nat, second: bool, third: bool): (r: Bytes)
    requires v0 < 64 && v1 < 64 && v2 < 64 && v3 < 64
  {
    [v0 * 4 + v1 / 16] + (if second then [v1 % 16 * 16 + v2 / 4] else []) + (if third then [v2 % 4 * 64 + v3] else [])
  }

  lemma DecodeStep(out: Bytes, input: Bytes, i: nat)
    requires i < |input| && i % 4 == 0 && |input| % 4 == 0 && i + 4 <= |input|
    ensures var v0, v1, v2, v3 := Value(input[i]), Value(input[i + 1]), Value(input[i + 2]), Value(input[i + 3]);
            if v0.None? || v1.None? || v2.None? || v3.None? then Prepend(out, Decode(input[i..])) == None
            else Prepend(out, Decode(input[i..]))
                 == Prepend(out + Three(v0.value, v1.value, v2.value, v3.value, input[i + 2] != PAD,
                     input[i + 3] != PAD), Decode(input[i + 4..]))
  {
    hide Value;
    assert input[i..][..4] == input[i..i + 4] && input[i..][4..] == input[i + 4..];
    var head := DecodeGroup(input[i..i + 4]);
    if head.Some? {
      PrependIs(out, head.value, Decode(input[i + 4..]));
    }
  }

  lemma DecodeNothing(out: Bytes, rest: Bytes)
    requires rest == []
    ensures Prepend(out, Decode(rest)) == Some(out)
  {
    assert out + [] == out;
  }

  function Prepend(out: Bytes, rest: Option<Bytes>): (r: Option<Bytes>) {
    if rest.None? then None else Some(out + rest.value)
  }

  lemma PrependIs(a: Bytes, b: Bytes, rest: Option<Bytes>)
    ensures Prepend(a, Prepend(b, rest)) == Prepend(a + b, rest) && Prepend([], rest) == rest
  {
    if rest.Some? {
      assert a + (b + rest.value) == (a + b) + rest.value && [] + rest.value == rest.value;
    }
  }

  method Strip(s: Bytes) returns (r: Bytes)
    ensures r == StripPad(s)
  {
    r := s;
    while r != [] && r[|r| - 1] == PAD
      invariant StripPad(r) == StripPad(s)
      decreases |r|
    {
      r := r[..|r| - 1];
    }
  }

  method Restore(s: Bytes) returns (r: Bytes)
    ensures r == RestorePad(s)
  {
    r := s;
    ghost var k := 0;
    while |r| % 4 != 0
      invariant k <= (4 - |s| % 4) % 4 && |r| == |s| + k && r == s + Pads(k)
      decreases 4 - k
    {
      r := r + [PAD];
      k := k + 1;
    }
  }
}
