/**
 Tokens: JwtManager::generate_token and verify_token of src/auth/jwt.cpp.

 Claims are dumped to and parsed from text by a codec of which only one law is used: what it dumps, it
 parses back. Dumping may fail (a user name that is not UTF-8), and so may parsing.
 */
module Jwt {
  import opened Basics
  import opened Base64Url
  import Hmac

  datatype Payload = Payload(userId: Int64, username: Bytes, exp: Int64)

  datatype Codec = Codec(header: Bytes, dump: (Payload, Int64) -> Option<Bytes>, parse: Bytes -> Option<Payload>) {
    ghost predicate Lawful() {
      forall p: Payload, iat: Int64 :: dump(p, iat).Some? ==> parse(dump(p, iat).value) == Some(p)
    }
  }

  /** `Undefined` is a table read out of range, on a payload that carries a correct signature. */
  datatype Verdict = Accepted(payload: Payload) | Rejected | Undefined

  function Encoded(b: Bytes): (r: Bytes) { StripPad(Encode(b)) }

  function Signature(mac: Hmac.MacFunction, secret: Bytes, input: Bytes): (r: Bytes) { Encoded(mac(secret, input)) }

  function Token(mac: Hmac.MacFunction, secret: Bytes, header: Bytes, payload: Bytes): (r: Bytes) {
    header + [DOT] + payload + [DOT] + Signature(mac, secret, header + [DOT] + payload)
  }

  function Generate(c: Codec, mac: Hmac.MacFunction, secret: Bytes, p: Payload, iat: Int64): (r: Option<Bytes>) {
    var text := c.dump(p, iat);
    if text.None? then None else Some(Token(mac, secret, Encoded(c.header), Encoded(text.value)))
  }

  /** What a correctly signed payload part says at a time. */
  function Judge(c: Codec, payload: Bytes, now: int): (r: Verdict) {
    var text := Decode(RestorePad(payload));
    if text.None? then Undefined
    else
      var p := c.parse(text.value);
      if p.None? || now >= p.value.exp then Rejected else Accepted(p.value)
  }

  /** A token cut at its first two dots. */
  datatype Parts = Parts(header: Bytes, payload: Bytes, signature: Bytes) {
    function Input(): (r: Bytes) { header + [DOT] + payload }
  }

  function Cut(token: Bytes): (r: Option<Parts>)
    ensures r.Some? ==> token == r.value.Input() + [DOT] + r.value.signature
    ensures r.Some? ==> DOT !in r.value.header && DOT !in r.value.payload
  {
    var dot1 := IndexOf(token, DOT, 0);
    if dot1.None? then None
    else
      var dot2 := IndexOf(token, DOT, dot1.value + 1);
      if dot2.None? then None
      else
        SplitAt(token, dot1.value, dot2.value);
        Some(Parts(token[..dot1.value], token[dot1.value + 1..dot2.value], token[dot2.value + 1..]))
  }

  lemma SplitAt(token: Bytes, dot1: nat, dot2: nat)
    requires dot1 < dot2 < |token| && token[dot1] == DOT && token[dot2] == DOT
    ensures token == token[..dot1] + [DOT] + token[dot1 + 1..dot2] + [DOT] + token[dot2 + 1..]
  {
  }

  function Verify(c: Codec, mac: Hmac.MacFunction, secret: Bytes, token: Bytes, now: int): (r: Verdict) {
    var parts := Cut(token);
    if parts.None? || parts.value.signature != Signature(mac, secret, parts.value.Input()) then Rejected
    else Judge(c, parts.value.payload, now)
  }

  method GenerateToken(c: Codec, secret: Bytes, userId: Int64, username: Bytes, exp: Int64, iat: Int64)
      returns (token: Option<Bytes>)
    ensures token == Generate(c, Hmac.Mac, secret, Payload(userId, username, exp), iat)
  {
    hide Encode, StripPad, Hmac.Mac;
    var dumped := c.dump(Payload(userId, username, exp), iat);
    if dumped.None? {
      return None;
    }
    var h := Base64Encode(c.header);
    var p := Base64Encode(dumped.value);
    h := Strip(h);
    p := Strip(p);
    var input := h + [DOT] + p;
    var tag := Hmac.HmacSha256(secret, input);
    var signature := Base64Encode(tag);
    signature := Strip(signature);
    return Some(input + [DOT] + signature);
  }

  method VerifyToken(c: Codec, secret: Bytes, token: Bytes, now: int) returns (r: Verdict)
    ensures r == Verify(c, Hmac.Mac, secret, token, now)
  {
    hide Encode, StripPad, RestorePad, Decode, Hmac.Mac, IndexOf;
    var dot1 := IndexOf(token, DOT, 0);
    if dot1.None? {
      return Rejected;
    }
    var dot2 := IndexOf(token, DOT, dot1.value + 1);
    if dot2.None? {
      return Rejected;
    }
    var header := token[..dot1.value];
    var payload := token[dot1.value + 1..dot2.value];
    var tag := Hmac.HmacSha256(secret, header + [DOT] + payload);
    var expected := Base64Encode(tag);
    expected := Strip(expected);
    if token[dot2.value + 1..] != expected {
      return Rejected;
    }
    var padded := Restore(payload);
    var text := Base64Decode(padded);
    if text.None? {
      return Undefined;
    }
    var p := c.parse(text.value);
    if p.None? || now >= p.value.exp {
      return Rejected;
    }
    return Accepted(p.value);
  }

  // ----- Properties -----

  lemma FirstDot(a: Bytes, b: Bytes)
    requires DOT !in a
    ensures IndexOf(a + [DOT] + b, DOT, 0) == Some(|a|)
  {
    hide IndexOf;
    var s := a + [DOT] + b;
    assert s[|a|] == DOT;
    assert forall i :: 0 <= i < |a| ==> s[i] == a[i];
  }

  lemma NextDot(a: Bytes, b: Bytes, c: Bytes)
    requires DOT !in b
    ensures IndexOf(a + [DOT] + b + [DOT] + c, DOT, |a| + 1) == Some(|a| + 1 + |b|)
  {
    hide IndexOf;
    var s := a + [DOT] + b + [DOT] + c;
    assert s[|a| + 1 + |b|] == DOT;
    assert forall i :: |a| + 1 <= i < |a| + 1 + |b| ==> s[i] == b[i - |a| - 1];
  }

  /** Cutting undoes joining, for parts without dots. */
  lemma CutJoins(p: Parts)
    requires DOT !in p.header && DOT !in p.payload
    ensures Cut(p.Input() + [DOT] + p.signature) == Some(p)
  {
    hide IndexOf;
    var token := p.Input() + [DOT] + p.signature;
    FirstDot(p.header, p.payload + [DOT] + p.signature);
    assert token == p.header + [DOT] + (p.payload + [DOT] + p.signature);
    NextDot(p.header, p.payload, p.signature);
    assert token[..|p.header|] == p.header;
    assert token[|p.header| + 1..|p.header| + 1 + |p.payload|] == p.payload;
    assert token[|p.header| + 1 + |p.payload| + 1..] == p.signature;
  }

  /** A token put together from two parts without dots is judged by its payload part. */
  lemma VerifyParts(c: Codec, mac: Hmac.MacFunction, secret: Bytes, header: Bytes, payload: Bytes, now: int)
    requires DOT !in header && DOT !in payload
    ensures Verify(c, mac, secret, Token(mac, secret, header, payload), now) == Judge(c, payload, now)
  {
    hide Cut, Signature, Judge;
    CutJoins(Parts(header, payload, Signature(mac, secret, header + [DOT] + payload)));
  }

  /** The round trip: a generated token gives back its claims at every time before exp, and nothing from exp on. */
  lemma GeneratedVerifies(c: Codec, mac: Hmac.MacFunction, secret: Bytes, p: Payload, iat: Int64, now: int)
    requires c.Lawful()
    ensures Generate(c, mac, secret, p, iat).Some? <==> c.dump(p, iat).Some?
    ensures var token := Generate(c, mac, secret, p, iat);
            token.Some? ==>
              Verify(c, mac, secret, token.value, now) == if now < p.exp then Accepted(p) else Rejected
  {
    hide Encode, StripPad, RestorePad, Decode, Verify, Token;
    if c.dump(p, iat).None? {
      return;
    }
    var text := c.dump(p, iat).value;
    StripRestores(c.header);
    StripRestores(text);
    RoundTrip(text);
    VerifyParts(c, mac, secret, Encoded(c.header), Encoded(text), now);
  }

  /**
   What a verifier says yes to, in terms of the parts of the token: the signature of its first two parts, and claims
   that have not expired.
   */
  ghost predicate Acceptable(c: Codec, mac: Hmac.MacFunction, secret: Bytes, token: Bytes, now: int, header: Bytes,
      payload: Bytes, claims: Payload)
  {
    && DOT !in header && DOT !in payload && token == Token(mac, secret, header, payload)
    && Decode(RestorePad(payload)).Some? && c.parse(Decode(RestorePad(payload)).value) == Some(claims)
    && now < claims.exp
  }

  lemma AcceptedExactly(c: Codec, mac: Hmac.MacFunction, secret: Bytes, token: Bytes, now: int, claims: Payload)
    ensures Verify(c, mac, secret, token, now) == Accepted(claims) <==>
            exists header, payload :: Acceptable(c, mac, secret, token, now, header, payload, claims)
  {
    hide Cut, Signature, Decode, RestorePad;
    if Verify(c, mac, secret, token, now) == Accepted(claims) {
      var p := Cut(token).value;
      assert Acceptable(c, mac, secret, token, now, p.header, p.payload, claims);
    }
    if header: Bytes, payload: Bytes :| Acceptable(c, mac, secret, token, now, header, payload, claims) {
      VerifyParts(c, mac, secret, header, payload, now);
    }
  }

  /** The signature part of a token is the URL-safe text of the MAC of everything before it. */
  lemma SignatureReads(mac: Hmac.MacFunction, secret: Bytes, header: Bytes, payload: Bytes)
    ensures var signature := Signature(mac, secret, header + [DOT] + payload);
            && Token(mac, secret, header, payload) == header + [DOT] + payload + [DOT] + signature
            && Decode(RestorePad(signature)) == Some(mac(secret, header + [DOT] + payload))
            && forall x :: x in signature ==> InAlphabet(x)
  {
    hide Encode, StripPad, RestorePad, Decode, InAlphabet;
    RoundTrip(mac(secret, header + [DOT] + payload));
    StrippedLetters(mac(secret, header + [DOT] + payload));
  }

  /** So it is of every token accepted. */
  lemma AcceptedSignature(c: Codec, mac: Hmac.MacFunction, secret: Bytes, token: Bytes, now: int)
    requires Verify(c, mac, secret, token, now).Accepted?
    ensures Cut(token).Some?
            && Decode(RestorePad(Cut(token).value.signature)) == Some(mac(secret, Cut(token).value.Input()))
  {
    hide Cut, Decode, RestorePad, Signature;
    var p := Cut(token).value;
    SignatureReads(mac, secret, p.header, p.payload);
  }

  /** The table is overrun exactly on a correctly signed token whose payload part leaves the range from '-' to 'z'. */
  lemma UndefinedExactly(c: Codec, mac: Hmac.MacFunction, secret: Bytes, token: Bytes, now: int)
    ensures Verify(c, mac, secret, token, now).Undefined? <==>
            && Cut(token).Some?
            && Cut(token).value.signature == Signature(mac, secret, Cut(token).value.Input())
            && exists x :: x in Cut(token).value.payload && !(45 <= x <= 122)
  {
    hide Cut, Decode, Signature;
    if Cut(token).Some? {
      var payload := Cut(token).value.payload;
      DecodesExactly(RestorePad(payload));
      assert forall x :: x in RestorePad(payload) ==> x in payload || x == PAD;
      assert forall x :: x in payload ==> x in RestorePad(payload);
    }
  }

  /** A generated token is three texts of the alphabet with dots between them, and no padding. */
  lemma GeneratedLetters(c: Codec, mac: Hmac.MacFunction, secret: Bytes, p: Payload, iat: Int64)
    requires Generate(c, mac, secret, p, iat).Some?
    ensures forall x :: x in Generate(c, mac, secret, p, iat).value ==> x == DOT || InAlphabet(x)
  {
    hide Encode, StripPad, InAlphabet;
    var text := c.dump(p, iat).value;
    StrippedLetters(c.header);
    StrippedLetters(text);
    StrippedLetters(mac(secret, Encoded(c.header) + [DOT] + Encoded(text)));
  }

  /** Two different tokens that are accepted with one signature part sign two different inputs with one MAC. */
  lemma ForgeryIsCollision(c: Codec, mac: Hmac.MacFunction, secret: Bytes, token: Bytes, forged: Bytes, now: int,
      later: int)
    requires Verify(c, mac, secret, token, now).Accepted? && Verify(c, mac, secret, forged, later).Accepted?
    requires token != forged && Cut(token).Some? && Cut(forged).Some?
    requires Cut(token).value.signature == Cut(forged).value.signature
    ensures var (signed, other) := (Cut(token).value.Input(), Cut(forged).value.Input());
            signed != other && mac(secret, signed) == mac(secret, other)
  {
    hide Cut, Encode, StripPad, Judge;
    Injective(mac(secret, Cut(token).value.Input()), mac(secret, Cut(forged).value.Input()));
  }
}
