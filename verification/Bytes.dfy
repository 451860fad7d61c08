/** Byte strings: lower-case hexadecimal text and the eight-byte big-endian counter. */
module Bytes {
  import opened Prelude

  newtype byte = x: int | 0 <= x < 256

  type Bytes32 = b: seq<byte> | |b| == 32 witness seq(32, i => 0 as byte)

  const TWO_POW_64: nat := 0x1_0000_0000_0000_0000

  function HexDigit(n: int): (c: char)
    requires 0 <= n < 16
  {
    (if n < 10 then '0' as int + n else 'a' as int + n - 10) as char
  }

  function HexValue(c: char): (r: Option<int>)
    ensures r.Some? ==> 0 <= r.value < 16
  {
    if '0' <= c <= '9' then Some(c as int - '0' as int)
    else if 'a' <= c <= 'f' then Some(c as int - 'a' as int + 10)
    else if 'A' <= c <= 'F' then Some(c as int - 'A' as int + 10)
    else None
  }

  lemma HexDigitValue(n: int)
    requires 0 <= n < 16
    ensures HexValue(HexDigit(n)) == Some(n)
  {
  }

  /** `bytes.hex()`. */
  function Hex(b: seq<byte>): (s: string)
    ensures |s| == 2 * |b|
  {
    if b == [] then ""
    else [HexDigit(b[0] as int / 16), HexDigit(b[0] as int % 16)] + Hex(b[1..])
  }

  /** `bytes.fromhex`, on text without white space. */
  function FromHex(s: string): (r: Option<seq<byte>>)
  {
    if s == "" then Some([])
    else if |s| == 1 then None
    else
      match (HexValue(s[0]), HexValue(s[1]), FromHex(s[2..]))
      case (Some(high), Some(low), Some(rest)) => Some([(16 * high + low) as byte] + rest)
      case _ => None
  }

  lemma {:induction false} HexRoundTrip(b: seq<byte>)
    ensures FromHex(Hex(b)) == Some(b)
  {
    if b != [] {
      var high, low := b[0] as int / 16, b[0] as int % 16;
      HexDigitValue(high);
      HexDigitValue(low);
      HexRoundTrip(b[1..]);
      var s, rest := Hex(b), Hex(b[1..]);
      assert s[0] == HexDigit(high) && s[1] == HexDigit(low) && s[2..] == rest;
      assert [b[0]] + b[1..] == b;
    }
  }

  lemma HexInjective(a: seq<byte>, b: seq<byte>)
    requires Hex(a) == Hex(b)
    ensures a == b
  {
    HexRoundTrip(a);
    HexRoundTrip(b);
  }

  /** The `width` low bytes of `n`, most significant first. */
  function BigEndian(n: nat, width: nat): (b: seq<byte>)
    ensures |b| == width
  {
    if width == 0 then [] else BigEndian(n / 256, width - 1) + [(n % 256) as byte]
  }

  function BigEndianValue(b: seq<byte>): nat {
    if b == [] then 0 else 256 * BigEndianValue(b[..|b| - 1]) + b[|b| - 1] as nat
  }

  function Pow256(width: nat): (p: nat)
    ensures p > 0
  {
    if width == 0 then 1 else 256 * Pow256(width - 1)
  }

  lemma {:induction false} BigEndianRoundTrip(n: nat, width: nat)
    requires n < Pow256(width)
    ensures BigEndianValue(BigEndian(n, width)) == n
  {
    if width > 0 {
      BigEndianRoundTrip(n / 256, width - 1);
      assert BigEndian(n, width)[..width - 1] == BigEndian(n / 256, width - 1);
    }
  }

  /** The most significant byte comes first. */
  lemma {:induction false} BigEndianAt(n: nat, width: nat, i: nat)
    requires i < width
    ensures BigEndian(n, width)[i] as nat == n / Pow256(width - 1 - i) % 256
  {
    if i < width - 1 {
      BigEndianAt(n / 256, width - 1, i);
      DivideOnce(n, Pow256(width - 2 - i));
    }
  }

  lemma DivideOnce(n: nat, p: nat)
    requires p > 0
    ensures n / 256 / p == n / (256 * p)
  {
    var q := n / 256;
    var r := q / p;
    assert n == 256 * q + n % 256 && q == p * r + q % p;
    assert n == (256 * p) * r + (256 * (q % p) + n % 256);
    assert 0 <= 256 * (q % p) + n % 256 < 256 * p;
    QuotientIs(n, 256 * p, r, 256 * (q % p) + n % 256);
  }

  lemma QuotientIs(n: nat, d: nat, q: nat, r: nat)
    requires d > 0 && r < d && n == d * q + r
    ensures n / d == q
  {
    var k := n / d;
    assert n == d * k + n % d;
    assert d * (q - k) == n % d - r;
    Small(d, q - k);
  }

  lemma Small(d: int, k: int)
    requires -d < d * k < d
    ensures k == 0
  {
  }

  /** Digests are printed in lower case. */
  lemma {:induction false} HexLowerCase(b: seq<byte>, i: nat)
    requires i < |Hex(b)|
    ensures '0' <= Hex(b)[i] <= '9' || 'a' <= Hex(b)[i] <= 'f'
  {
    if i >= 2 {
      HexLowerCase(b[1..], i - 2);
    }
  }

  lemma BigEndian64Injective(m: nat, n: nat)
    requires m < TWO_POW_64 && n < TWO_POW_64
    requires BigEndian(m, 8) == BigEndian(n, 8)
    ensures m == n
  {
    assert Pow256(2) == 0x1_0000;
    assert Pow256(4) == 0x1_0000_0000;
    assert Pow256(6) == 0x1_0000_0000_0000;
    assert Pow256(8) == TWO_POW_64;
    BigEndianRoundTrip(m, 8);
    BigEndianRoundTrip(n, 8);
  }
}
