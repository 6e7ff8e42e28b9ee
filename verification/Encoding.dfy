// Big-endian numbers and the length-prefixed framing of QDataStream.
module Encoding {
  import opened Basics

  // 256 to the power k.
  function Pow256(k: nat): (p: nat)
    ensures p >= 1
  {
    if k == 0 then 1 else 256 * Pow256(k - 1)
  }

  // The low k bytes of n, most significant first.
  function Be(n: nat, k: nat): (b: Bytes)
    ensures |b| == k
  {
    if k == 0 then [] else Be(n / 256, k - 1) + [n % 256]
  }

  function FromBe(b: Bytes): nat {
    if b == [] then 0 else FromBe(b[..|b| - 1]) * 256 + b[|b| - 1]
  }

  lemma {:induction false} FromBeOfBe(n: nat, k: nat)
    requires n < Pow256(k)
    ensures FromBe(Be(n, k)) == n
  {
    if k > 0 {
      FromBeOfBe(n / 256, k - 1);
      assert Be(n, k)[..k - 1] == Be(n / 256, k - 1);
    }
  }

  lemma BeInjective(a: nat, b: nat, k: nat)
    requires a < Pow256(k) && b < Pow256(k) && Be(a, k) == Be(b, k)
    ensures a == b
  {
    FromBeOfBe(a, k);
    FromBeOfBe(b, k);
  }

  lemma Powers()
    ensures Pow256(2) == 0x1_0000 && Pow256(4) == 0x1_0000_0000 && Pow256(8) == 0x1_0000_0000_0000_0000
  {
    assert Pow256(1) == 256 && Pow256(3) == 0x100_0000;
    assert Pow256(5) == 0x100_0000_0000 && Pow256(6) == 0x1_0000_0000_0000 && Pow256(7) == 0x100_0000_0000_0000;
  }

  // ---- Reading from the front of a byte string ----

  function TakeNumber(s: Bytes, k: nat): Option<(nat, Bytes)> {
    if |s| < k then None else Some((FromBe(s[..k]), s[k..]))
  }

  lemma TakeNumberOfBe(n: nat, k: nat, rest: Bytes)
    requires n < Pow256(k)
    ensures TakeNumber(Be(n, k) + rest, k) == Some((n, rest))
  {
    FromBeOfBe(n, k);
    assert (Be(n, k) + rest)[..k] == Be(n, k) && (Be(n, k) + rest)[k..] == rest;
  }

  // A byte array: its length in four bytes, then its contents.
  function Put(b: Bytes): Bytes {
    Be(|b|, 4) + b
  }

  function Take(s: Bytes): Option<(Bytes, Bytes)> {
    match TakeNumber(s, 4)
    case None => None
    case Some((n, rest)) => if |rest| < n then None else Some((rest[..n], rest[n..]))
  }

  lemma TakeOfPut(b: Bytes, rest: Bytes)
    requires |b| <= MAX_UINT32
    ensures Take(Put(b) + rest) == Some((b, rest))
  {
    Powers();
    assert Put(b) + rest == Be(|b|, 4) + (b + rest);
    TakeNumberOfBe(|b|, 4, b + rest);
  }

  lemma PutPrefixUnique(a: Bytes, b: Bytes, x: Bytes, y: Bytes)
    requires |a| <= MAX_UINT32 && |b| <= MAX_UINT32 && Put(a) + x == Put(b) + y
    ensures a == b && x == y
  {
    TakeOfPut(a, x);
    TakeOfPut(b, y);
  }

  // ---- Strings ----

  // All characters are in the basic multilingual plane, one UTF-16 unit each.
  predicate Plain(s: string) {
    forall i :: 0 <= i < |s| ==> s[i] as int < 0x1_0000
  }

  lemma PlainJoins(a: string, b: string)
    requires Plain(a) && Plain(b)
    ensures Plain(a + b)
  {
  }

  function Utf16(s: string): (b: Bytes)
    ensures |b| == 2 * |s|
  {
    if s == [] then [] else [s[0] as int / 256 % 256, s[0] as int % 256] + Utf16(s[1..])
  }

  function PutString(s: string): Bytes {
    Put(Utf16(s))
  }

  lemma {:induction false} Utf16Injective(s: string, t: string)
    requires Plain(s) && Plain(t) && Utf16(s) == Utf16(t)
    ensures s == t
  {
    assert |s| == |t|;
    if s != [] {
      var u, v := Utf16(s), Utf16(t);
      assert u[2..] == Utf16(s[1..]) && v[2..] == Utf16(t[1..]);
      Utf16Injective(s[1..], t[1..]);
      TwoBytes(s[0] as int, t[0] as int, u[0], u[1]);
      assert s == [s[0]] + s[1..] && t == [t[0]] + t[1..];
    }
  }

  lemma TwoBytes(x: nat, y: nat, high: int, low: int)
    requires x < 0x1_0000 && y < 0x1_0000
    requires high == x / 256 % 256 == y / 256 % 256 && low == x % 256 == y % 256
    ensures x == y
  {
  }

  lemma PutStringPrefixUnique(s: string, t: string, x: Bytes, y: Bytes)
    requires Plain(s) && Plain(t) && 2 * |s| <= MAX_UINT32 && 2 * |t| <= MAX_UINT32
    requires PutString(s) + x == PutString(t) + y
    ensures s == t && x == y
  {
    PutPrefixUnique(Utf16(s), Utf16(t), x, y);
    Utf16Injective(s, t);
  }

  lemma CommonPrefix(p: Bytes, x: Bytes, y: Bytes)
    requires p + x == p + y
    ensures x == y
  {
    assert x == (p + x)[|p|..] && y == (p + y)[|p|..];
  }

  // ---- Hexadecimal ----

  function HexDigit(d: nat): char
    requires d < 16
  {
    if d < 10 then '0' + d as char else 'a' + (d - 10) as char
  }

  // The low k hexadecimal digits of n.
  function HexFixed(n: nat, k: nat): (s: string)
    ensures |s| == k && Plain(s)
  {
    if k == 0 then [] else HexFixed(n / 16, k - 1) + [HexDigit(n % 16)]
  }

  function Pow16(k: nat): (p: nat)
    ensures p >= 1
  {
    if k == 0 then 1 else 16 * Pow16(k - 1)
  }

  lemma {:induction false} HexFixedInjective(a: nat, b: nat, k: nat)
    requires a < Pow16(k) && b < Pow16(k) && HexFixed(a, k) == HexFixed(b, k)
    ensures a == b
  {
    if k > 0 {
      var s, t := HexFixed(a, k), HexFixed(b, k);
      assert s[..k - 1] == HexFixed(a / 16, k - 1) && t[..k - 1] == HexFixed(b / 16, k - 1);
      assert s[k - 1] == HexDigit(a % 16) && t[k - 1] == HexDigit(b % 16);
      HexFixedInjective(a / 16, b / 16, k - 1);
    }
  }

  // QByteArray::toHex
  function Hex(b: Bytes): (s: string)
    ensures |s| == 2 * |b| && Plain(s)
  {
    if b == [] then [] else [HexDigit(b[0] / 16), HexDigit(b[0] % 16)] + Hex(b[1..])
  }

  lemma {:induction false} HexInjective(a: Bytes, b: Bytes)
    requires Hex(a) == Hex(b)
    ensures a == b
  {
    assert |a| == |b|;
    if a != [] {
      var s, t := Hex(a), Hex(b);
      assert s[0] == HexDigit(a[0] / 16) && s[1] == HexDigit(a[0] % 16);
      assert t[0] == HexDigit(b[0] / 16) && t[1] == HexDigit(b[0] % 16);
      assert s[2..] == Hex(a[1..]) && t[2..] == Hex(b[1..]);
      HexInjective(a[1..], b[1..]);
      assert a == [a[0]] + a[1..] && b == [b[0]] + b[1..];
    }
  }

  lemma {:induction false} DecimalLengthBound(n: nat, k: nat)
    requires k >= 1 && n < Pow10(k)
    ensures |Decimal(n)| <= k
  {
    if n >= 10 {
      assert k > 1;
      DecimalLengthBound(n / 10, k - 1);
    }
  }
}
