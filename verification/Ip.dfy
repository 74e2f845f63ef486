/**
 IPv4 addresses as text and as 32-bit numbers: the static helpers of src/ipam/IpAllocator.cpp and
 ipv4_dst of src/http/http_server.cpp.
 */
module Ip {
  import opened Basics

  // ----- Decimal text -----

  predicate IsDigit(c: char) { '0' <= c <= '9' }

  function Digit(c: char): (r: nat)
    requires IsDigit(c)
  {
    c as int - '0' as int
  }

  /** The number a digit string denotes. */
  function Value(s: string): (r: nat)
    requires forall c :: c in s ==> IsDigit(c)
  {
    if s == "" then 0
    else
      assert s[|s| - 1] in s && forall c :: c in s[..|s| - 1] ==> c in s;
      10 * Value(s[..|s| - 1]) + Digit(s[|s| - 1])
  }

  lemma {:induction false} ValueDecimal(n: nat)
    ensures forall c :: c in Decimal(n) ==> IsDigit(c)
    ensures Value(Decimal(n)) == n
    ensures n < 10 ==> |Decimal(n)| == 1
    ensures n < 1000 ==> |Decimal(n)| <= 3
  {
    if n >= 10 {
      ValueDecimal(n / 10);
      assert Decimal(n)[..|Decimal(n)| - 1] == Decimal(n / 10);
      if n < 1000 {
        ValueDecimal(n / 10 / 10);
      }
    }
  }

  // ----- Dotted quads -----

  function Quad(a: Byte, b: Byte, c: Byte, d: Byte): (r: UInt32) { ((a * 256 + b) * 256 + c) * 256 + d }

  function QuadText(a: Byte, b: Byte, c: Byte, d: Byte): (r: string) {
    Decimal(a) + "." + (Decimal(b) + "." + (Decimal(c) + "." + Decimal(d)))
  }

  /** inet_ntop of the address in network order. */
  function UintToIp(x: UInt32): (r: string) {
    QuadText(x / 256 / 256 / 256, x / 256 / 256 % 256, x / 256 % 256, x % 256)
  }

  function Fields(s: string): (r: seq<string>)
    ensures |r| > 0
  {
    if s == "" then [""]
    else if s[0] == '.' then [""] + Fields(s[1..])
    else
      var rest := Fields(s[1..]);
      [[s[0]] + rest[0]] + rest[1..]
  }

  /** A decimal octet without leading zeros. */
  function ParseOctet(s: string): (r: Option<Byte>)
    ensures r.Some? ==> Decimal(r.value) == s
  {
    if 1 <= |s| <= 3 && (forall c :: c in s ==> IsDigit(c)) && Value(s) < 256 && Decimal(Value(s)) == s
        then Some(Value(s))
    else None
  }

  /** inet_pton: exactly four decimal octets. */
  function ParseIp(s: string): (r: Option<UInt32>) {
    var f := Fields(s);
    if |f| != 4 then None
    else
      var a, b, c, d := ParseOctet(f[0]), ParseOctet(f[1]), ParseOctet(f[2]), ParseOctet(f[3]);
      if a.None? || b.None? || c.None? || d.None? then None
      else Some(Quad(a.value, b.value, c.value, d.value))
  }

  /** ipToUint: a text inet_pton refuses leaves the zeroed address. */
  function IpToUint(s: string): (r: UInt32) {
    var r := ParseIp(s);
    if r.Some? then r.value else 0
  }

  lemma {:induction false} FieldsAppend(s: string, rest: string)
    requires '.' !in s
    ensures Fields(s + "." + rest) == [s] + Fields(rest)
  {
    if s == "" {
      assert s + "." + rest == "." + rest;
      assert ("." + rest)[1..] == rest;
    } else {
      FieldsAppend(s[1..], rest);
      assert (s + "." + rest)[1..] == s[1..] + "." + rest;
      assert [s[0]] + s[1..] == s;
    }
  }

  lemma {:induction false} FieldsSingle(s: string)
    requires '.' !in s
    ensures Fields(s) == [s]
  {
    if s != "" {
      FieldsSingle(s[1..]);
      assert [s[0]] + s[1..] == s;
    }
  }

  function Join(f: seq<string>): (r: string)
    requires |f| > 0
  {
    if |f| == 1 then f[0] else f[0] + "." + Join(f[1..])
  }

  lemma {:induction false} JoinFields(s: string)
    ensures Join(Fields(s)) == s
  {
    if s != "" {
      JoinFields(s[1..]);
    }
  }

  lemma OctetRoundTrip(b: Byte)
    ensures ParseOctet(Decimal(b)) == Some(b) && '.' !in Decimal(b)
  {
    ValueDecimal(b);
  }

  /** Reading back a printed quad gives the quad. */
  lemma ParseQuadText(a: Byte, b: Byte, c: Byte, d: Byte)
    ensures ParseIp(QuadText(a, b, c, d)) == Some(Quad(a, b, c, d))
  {
    OctetRoundTrip(a);
    OctetRoundTrip(b);
    OctetRoundTrip(c);
    OctetRoundTrip(d);
    FieldsSingle(Decimal(d));
    FieldsAppend(Decimal(c), Decimal(d));
    FieldsAppend(Decimal(b), Decimal(c) + "." + Decimal(d));
    FieldsAppend(Decimal(a), Decimal(b) + "." + (Decimal(c) + "." + Decimal(d)));
  }

  lemma QuadOctets(x: UInt32)
    ensures Quad(x / 256 / 256 / 256, x / 256 / 256 % 256, x / 256 % 256, x % 256) == x
  {
    assert x / 256 / 256 == x / 256 / 256 / 256 * 256 + x / 256 / 256 % 256;
    assert x / 256 == x / 256 / 256 * 256 + x / 256 % 256;
  }

  lemma OctetsQuad(a: Byte, b: Byte, c: Byte, d: Byte)
    ensures UintToIp(Quad(a, b, c, d)) == QuadText(a, b, c, d)
  {
    hide QuadText;
    var x := Quad(a, b, c, d);
    assert x / 256 == (a * 256 + b) * 256 + c;
    assert x / 256 / 256 == a * 256 + b;
  }

  lemma QuadTextJoins(a: Byte, b: Byte, c: Byte, d: Byte)
    ensures QuadText(a, b, c, d) == Join([Decimal(a), Decimal(b), Decimal(c), Decimal(d)])
  {
    assert Join([Decimal(c), Decimal(d)]) == Decimal(c) + "." + Decimal(d);
    assert Join([Decimal(b), Decimal(c), Decimal(d)]) == Decimal(b) + "." + Join([Decimal(c), Decimal(d)]);
    assert [Decimal(a), Decimal(b), Decimal(c), Decimal(d)][1..] == [Decimal(b), Decimal(c), Decimal(d)];
  }

  /** A text is read as x exactly when it is what x prints as. */
  lemma ParseIsPrint(s: string, x: UInt32)
    ensures ParseIp(s) == Some(x) <==> s == UintToIp(x)
  {
    hide QuadText, ParseOctet;
    if s == UintToIp(x) {
      QuadOctets(x);
      ParseQuadText(x / 256 / 256 / 256, x / 256 / 256 % 256, x / 256 % 256, x % 256);
    }
    if ParseIp(s) == Some(x) {
      var f := Fields(s);
      JoinFields(s);
      assert f == [f[0], f[1], f[2], f[3]];
      var a, b, c, d := ParseOctet(f[0]).value, ParseOctet(f[1]).value, ParseOctet(f[2]).value, ParseOctet(f[3]).value;
      QuadTextJoins(a, b, c, d);
      OctetsQuad(ParseOctet(f[0]).value, ParseOctet(f[1]).value, ParseOctet(f[2]).value, ParseOctet(f[3]).value);
    }
  }

  /** A text that is no printed address reads as 0.0.0.0. */
  lemma UnreadableIsZero(s: string)
    requires forall x :: UintToIp(x) != s
    ensures IpToUint(s) == 0
  {
    hide UintToIp, ParseIp;
    if ParseIp(s).Some? {
      ParseIsPrint(s, ParseIp(s).value);
    }
  }

  /** Different addresses print differently, and freeing by text finds the address allocated. */
  lemma PrintInjective(x: UInt32, y: UInt32)
    ensures IpToUint(UintToIp(x)) == x
    ensures UintToIp(x) == UintToIp(y) ==> x == y
    ensures UintToIp(x) != ""
  {
    ParseIsPrint(UintToIp(x), x);
    ParseIsPrint(UintToIp(y), y);
  }

  // ----- Packets -----

  /** ipv4_dst: the destination of an IPv4 packet as text, or nothing. */
  function Ipv4Dst(packet: Bytes): (r: string) {
    if |packet| < 20 || packet[0] / 16 != 4 then ""
    else Decimal(packet[16]) + "." + Decimal(packet[17]) + "." + Decimal(packet[18]) + "." + Decimal(packet[19])
  }

  /** It is the text of the destination octets, the one the allocator prints for that address. */
  lemma Ipv4DstIs(packet: Bytes, x: UInt32)
    ensures Ipv4Dst(packet) == UintToIp(x) <==>
            |packet| >= 20 && packet[0] / 16 == 4 && Quad(packet[16], packet[17], packet[18], packet[19]) == x
  {
    hide Quad, UintToIp, QuadText;
    PrintInjective(x, x);
    if |packet| >= 20 && packet[0] / 16 == 4 {
      var y := Quad(packet[16], packet[17], packet[18], packet[19]);
      OctetsQuad(packet[16], packet[17], packet[18], packet[19]);
      Ipv4DstText(packet);
      PrintInjective(x, y);
    }
  }

  lemma Ipv4DstText(packet: Bytes)
    requires |packet| >= 20 && packet[0] / 16 == 4
    ensures Ipv4Dst(packet) == QuadText(packet[16], packet[17], packet[18], packet[19])
  {
    hide Decimal;
    var a, b, c, d := Decimal(packet[16]), Decimal(packet[17]), Decimal(packet[18]), Decimal(packet[19]);
    assert a + "." + b + "." + c + "." + d == a + "." + (b + "." + (c + "." + d));
  }
}
