/** Bytes, decimal numerals and big-endian words. */
module Bytes {
  type Byte = b: int | 0 <= b < 256

  type Octets = seq<Byte>

  const SPACE: Byte := 32

  /** A text of ASCII characters as bytes. */
  function Ascii(s: string): (r: Octets)
    ensures |r| == |s| && forall i :: 0 <= i < |s| ==> r[i] < 128 && (s[i] as int < 128 ==> r[i] == s[i] as int)
  {
    if s == "" then [] else [if s[0] as int < 128 then s[0] as int else 63] + Ascii(s[1..])
  }

  /** "blob" in ASCII. */
  const BLOB: Octets := [98, 108, 111, 98]

  /** ASCII decimal digits, without leading zeros. */
  function Decimal(n: nat): (r: Octets)
    ensures r != [] && forall b <- r :: 48 <= b <= 57
  {
    if n < 10 then [(48 + n) as Byte] else Decimal(n / 10) + [(48 + n % 10) as Byte]
  }

  function DecimalValue(s: Octets): int {
    if s == [] then 0 else 10 * DecimalValue(s[..|s| - 1]) + s[|s| - 1] - 48
  }

  lemma {:induction false} DecimalRoundTrip(n: nat)
    ensures DecimalValue(Decimal(n)) == n
  {
    if n < 10 {
      assert Decimal(n)[..0] == [];
    } else {
      DecimalRoundTrip(n / 10);
      assert Decimal(n)[..|Decimal(n)| - 1] == Decimal(n / 10);
    }
  }

  /** A number, a space and the rest can be told apart. */
  lemma DecimalsAgree(m: nat, x: Octets, n: nat, y: Octets)
    requires Decimal(m) + [SPACE] + x == Decimal(n) + [SPACE] + y
    ensures m == n && x == y
  {
    hide Decimal;
    FieldsAgree(Decimal(m), x, Decimal(n), y, SPACE);
    DecimalRoundTrip(m);
    DecimalRoundTrip(n);
  }

  /** The k low-order bytes of n, most significant first. */
  function BigEndian(n: nat, k: nat): (r: Octets)
    ensures |r| == k
  {
    if k == 0 then [] else BigEndian(n / 256, k - 1) + [(n % 256) as Byte]
  }

  function Power256(k: nat): nat { if k == 0 then 1 else 256 * Power256(k - 1) }

  lemma {:induction false} BigEndianInjective(m: nat, n: nat, k: nat)
    requires m < Power256(k) && n < Power256(k) && BigEndian(m, k) == BigEndian(n, k)
    ensures m == n
  {
    if k > 0 {
      assert BigEndian(m, k)[..k - 1] == BigEndian(m / 256, k - 1);
      assert BigEndian(n, k)[..k - 1] == BigEndian(n / 256, k - 1);
      assert BigEndian(m, k)[k - 1] == m % 256 && BigEndian(n, k)[k - 1] == n % 256;
      BigEndianInjective(m / 256, n / 256, k - 1);
    }
  }

  /** Two strings that end a field at their first occurrence of a mark agree on the field and the rest. */
  lemma FieldsAgree<T>(a: seq<T>, x: seq<T>, b: seq<T>, y: seq<T>, mark: T)
    requires a + [mark] + x == b + [mark] + y && mark !in a && mark !in b
    ensures a == b && x == y
  {
    var s := a + [mark] + x;
    assert (forall i | 0 <= i < |a| :: s[i] == a[i]) && (forall i | 0 <= i < |b| :: s[i] == b[i]);
    assert s[|a|] == mark && s[|b|] == mark;
    assert |a| == |b|;
    assert a == s[..|a|] && b == s[..|b|];
    assert x == s[|a| + 1..] && y == s[|b| + 1..];
  }

  /** Equal concatenations with equally long heads split alike. */
  lemma HeadsAgree<T>(a: seq<T>, x: seq<T>, b: seq<T>, y: seq<T>)
    requires a + x == b + y && |a| == |b|
    ensures a == b && x == y
  {
    assert a == (a + x)[..|a|] && b == (b + y)[..|b|];
    assert x == (a + x)[|a|..] && y == (b + y)[|b|..];
  }
}
