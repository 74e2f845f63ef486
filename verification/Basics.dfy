/** Types shared by every module of the project. */
module Basics {

  datatype Option<+T> = None | Some(value: T)

  type Byte = x: int | 0 <= x < 256

  /** A std::string or a byte vector of the program. */
  type Bytes = seq<Byte>

  const TWO_32 := 0x1_0000_0000
  const TWO_64 := 0x1_0000_0000_0000_0000

  type UInt32 = x: int | 0 <= x < TWO_32
  type UInt64 = x: int | 0 <= x < TWO_64
  type Int64 = x: int | -0x8000_0000_0000_0000 <= x < 0x8000_0000_0000_0000

  function CharByte(c: char): (r: Byte) { c as int % 256 }

  /** The bytes of an ASCII string. */
  function Ascii(s: string): (b: Bytes)
    ensures |b| == |s|
    ensures forall i :: 0 <= i < |s| ==> b[i] == CharByte(s[i])
  {
    seq(|s|, i requires 0 <= i < |s| => CharByte(s[i]))
  }

  /** n >> 8 * k. */
  function ShiftBytes(n: nat, k: nat): (r: nat) {
    if k == 0 then n else ShiftBytes(n / 256, k - 1)
  }

  function Pow256(k: nat): (p: nat)
    ensures p > 0
  {
    if k == 0 then 1 else 256 * Pow256(k - 1)
  }

  /** The k low octets of n, least significant first. */
  function LittleEndian(n: nat, k: nat): (b: Bytes)
    ensures |b| == k
  {
    if k == 0 then [] else [n % 256] + LittleEndian(n / 256, k - 1)
  }

  lemma {:induction false} LittleEndianAt(n: nat, k: nat, i: nat)
    requires i < k
    ensures LittleEndian(n, k)[i] == ShiftBytes(n, i) % 256
  {
    if i > 0 {
      LittleEndianAt(n / 256, k - 1, i - 1);
    }
  }

  /** k octets determine every number below 256^k. */
  lemma {:induction false} LittleEndianInjective(m: nat, n: nat, k: nat)
    requires m < Pow256(k) && n < Pow256(k)
    requires LittleEndian(m, k) == LittleEndian(n, k)
    ensures m == n
  {
    if k > 0 {
      var lm, ln := LittleEndian(m, k), LittleEndian(n, k);
      assert lm[0] == ln[0] && lm[1..] == ln[1..];
      LittleEndianInjective(m / 256, n / 256, k - 1);
    }
  }

  function Zeros(n: nat): (b: Bytes)
    ensures |b| == n
  {
    seq(n, _ => 0)
  }

  /** The k low octets of n, most significant first. */
  function BigEndian(n: nat, k: nat): (b: Bytes)
    ensures |b| == k
  {
    if k == 0 then [] else BigEndian(n / 256, k - 1) + [n % 256]
  }

  /** std::to_string of a non-negative number. */
  function Decimal(n: nat): (s: string)
    ensures |s| > 0
  {
    if n < 10 then [('0' as int + n) as char]
    else Decimal(n / 10) + [('0' as int + n % 10) as char]
  }

  lemma {:induction false} DecimalDigits(n: nat)
    ensures forall c :: c in Decimal(n) ==> '0' <= c <= '9'
  {
    if n >= 10 {
      DecimalDigits(n / 10);
    }
  }

  lemma {:induction false} DecimalInjective(m: nat, n: nat)
    requires Decimal(m) == Decimal(n)
    ensures m == n
  {
    var last := |Decimal(m)| - 1;
    assert Decimal(m)[last] as int - '0' as int == m % 10;
    assert Decimal(n)[last] as int - '0' as int == n % 10;
    if m >= 10 && n >= 10 {
      assert Decimal(m)[..last] == Decimal(m / 10) && Decimal(n)[..last] == Decimal(n / 10);
      DecimalInjective(m / 10, n / 10);
    }
  }

  /** std::string::find of one character from a position; None is npos. */
  function IndexOf<T(==)>(s: seq<T>, x: T, from: nat): (r: Option<nat>)
    ensures r.Some? ==> from <= r.value < |s| && s[r.value] == x && forall i :: from <= i < r.value ==> s[i] != x
    ensures r.None? ==> forall i :: from <= i < |s| ==> s[i] != x
    decreases |s| - from
  {
    if from >= |s| then None else if s[from] == x then Some(from) else IndexOf(s, x, from + 1)
  }

  const SECOND: int := 1_000_000_000

  /** Nanoseconds to whole seconds, rounded towards zero. */
  function WholeSeconds(d: int): (r: int)
    ensures d >= 0 ==> r * SECOND <= d < (r + 1) * SECOND
    ensures d <= 0 ==> r <= 0
  {
    if d >= 0 then d / SECOND else 0 - (0 - d) / SECOND
  }
}
