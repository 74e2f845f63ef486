/**
 Packets as hexadecimal text: hex_encode and relay_to_tun of src/client/TestClient.cpp, hex_encode and
 hex_decode of src/http/http_server.cpp, bytes_to_hex of src/service/user_service.cpp.
 */
module Hex {
  import opened Basics

  /** "0123456789abcdef"[n]. */
  function HexDigit(n: nat): (r: Byte)
    requires n < 16
  {
    if n < 10 then '0' as int + n else 'a' as int + n - 10
  }

  /** The value of a hexadecimal digit of either case; any other character counts as 0. */
  function Nibble(c: Byte): (n: nat)
    ensures n < 16
  {
    if '0' as int <= c <= '9' as int then c - '0' as int
    else if 'a' as int <= c <= 'f' as int then c - 'a' as int + 10
    else if 'A' as int <= c <= 'F' as int then c - 'A' as int + 10
    else 0
  }

  function Encode(data: Bytes): (text: Bytes)
    ensures |text| == 2 * |data|
  {
    if data == [] then [] else [HexDigit(data[0] / 16), HexDigit(data[0] % 16)] + Encode(data[1..])
  }

  /** Pairs of digits; the server drops a last single digit, the client reads a terminating zero after it. */
  function Decode(text: Bytes, keepOdd: bool): (r: Bytes) {
    if |text| == 0 || (|text| == 1 && !keepOdd) then []
    else if |text| == 1 then [16 * Nibble(text[0])]
    else [16 * Nibble(text[0]) + Nibble(text[1])] + Decode(text[2..], keepOdd)
  }

  /** Either decoder gives back every byte sequence. */
  lemma {:induction false} RoundTrip(data: Bytes, keepOdd: bool)
    ensures Decode(Encode(data), keepOdd) == data
  {
    if data != [] {
      RoundTrip(data[1..], keepOdd);
      assert Encode(data)[2..] == Encode(data[1..]);
      assert 16 * (data[0] / 16) + data[0] % 16 == data[0];
    }
  }

  const LOWER := "0123456789abcdef"
  const UPPER := "0123456789ABCDEF"

  /** A byte is written as the digits of its high and its low half, in lower case. */
  lemma {:induction false} EncodeSpells(data: Bytes, i: nat)
    requires i < |data|
    ensures Encode(data)[2 * i] == LOWER[data[i] / 16] as int && Encode(data)[2 * i + 1] == LOWER[data[i] % 16] as int
  {
    if i == 0 {
      DigitIs(data[0] / 16);
      DigitIs(data[0] % 16);
    } else {
      EncodeSpells(data[1..], i - 1);
      assert Encode(data)[2..] == Encode(data[1..]);
    }
  }

  lemma DigitIs(n: nat)
    requires n < 16
    ensures HexDigit(n) == LOWER[n] as int
    ensures n < 10 ==> LOWER[n] == UPPER[n] && LOWER[n] as int == 48 + n
    ensures n >= 10 ==> LOWER[n] as int == 87 + n && UPPER[n] as int == 55 + n
  {
  }

  /** Digits are read in either case; every other character counts as 0. */
  lemma NibbleReads(c: Byte, n: nat)
    requires 0 < n < 16
    ensures Nibble(c) == n <==> LOWER[n] as int == c || UPPER[n] as int == c
  {
    DigitIs(n);
  }

  /** Each byte read is that of its two characters; only the client reads a single last one, as a high half. */
  lemma {:induction false} DecodeReads(text: Bytes, keepOdd: bool)
    ensures var data := Decode(text, keepOdd);
            && |data| == (if keepOdd then (|text| + 1) / 2 else |text| / 2)
            && forall i :: 0 <= i < |data| ==>
                data[i] == 16 * Nibble(text[2 * i]) + if 2 * i + 1 < |text| then Nibble(text[2 * i + 1]) else 0
    decreases |text|
  {
    if |text| > 1 {
      DecodeReads(text[2..], keepOdd);
      var data := Decode(text, keepOdd);
      assert data[1..] == Decode(text[2..], keepOdd);
      forall i | 0 <= i < |data|
        ensures data[i] == 16 * Nibble(text[2 * i]) + if 2 * i + 1 < |text| then Nibble(text[2 * i + 1]) else 0
      {
        if i > 0 {
          assert data[i] == data[1..][i - 1];
        }
      }
    }
  }

  lemma {:induction false} EncodeAppend(data: Bytes, b: Byte)
    ensures Encode(data + [b]) == Encode(data) + [HexDigit(b / 16), HexDigit(b % 16)]
  {
    if data != [] {
      EncodeAppend(data[1..], b);
      assert (data + [b])[1..] == data[1..] + [b];
    } else {
      assert (data + [b])[1..] == [];
    }
  }

  method HexEncode(data: Bytes) returns (out: Bytes)
    ensures out == Encode(data)
  {
    out := [];
    for i := 0 to |data|
      invariant out == Encode(data[..i])
    {
      EncodeAppend(data[..i], data[i]);
      assert data[..i + 1] == data[..i] + [data[i]];
      out := out + [HexDigit(data[i] / 16)];
      out := out + [HexDigit(data[i] % 16)];
    }
    assert data[..|data|] == data;
  }

  /** hex_decode of the server. */
  method HexDecode(hex: Bytes) returns (out: Bytes)
    ensures out == Decode(hex, false)
  {
    out := [];
    var i := 0;
    while i + 1 < |hex|
      invariant 0 <= i <= |hex|
      invariant out + Decode(hex[i..], false) == Decode(hex, false)
    {
      assert hex[i..][2..] == hex[i + 2..];
      out := out + [16 * Nibble(hex[i]) + Nibble(hex[i + 1])];
      i := i + 2;
    }
  }

  /** The loop of relay_to_tun. */
  method DecodeForTun(payload: Bytes) returns (packet: Bytes)
    ensures packet == Decode(payload, true)
  {
    packet := [];
    var i := 0;
    while i < |payload|
      invariant 0 <= i <= |payload| + 1
      invariant i <= |payload| ==> packet + Decode(payload[i..], true) == Decode(payload, true)
      invariant i > |payload| ==> packet == Decode(payload, true)
    {
      var h := payload[i];
      var l := if i + 1 < |payload| then payload[i + 1] else 0;
      assert i + 2 <= |payload| ==> payload[i..][2..] == payload[i + 2..];
      packet := packet + [16 * Nibble(h) + Nibble(l)];
      i := i + 2;
    }
  }
}
