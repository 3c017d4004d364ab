/**
 Numbers as the metadata files hold them: what printf writes for "%d" and for an unsigned 64-bit
 conversion, and what sscanf reads back.
 */
module Numbers {

  type uint8 = n: int | 0 <= n < 0x100
  type int32 = n: int | -0x8000_0000 <= n < 0x8000_0000
  type uint32 = n: int | 0 <= n < 0x1_0000_0000
  type uint64 = n: int | 0 <= n < 0x1_0000_0000_0000_0000

  function Digit(d: int): char
    requires 0 <= d < 10
  {
    (d + 48) as char
  }

  predicate IsDigit(c: char) {
    '0' <= c <= '9'
  }

  function Digits(n: nat): (r: string)
    ensures r != [] && forall k :: 0 <= k < |r| ==> IsDigit(r[k])
  {
    if n < 10 then [Digit(n)] else Digits(n / 10) + [Digit(n % 10)]
  }

  /** The bits of an unsigned 32-bit value read as a signed one. */
  function Signed(u: uint32): int32
  {
    if u < 0x8000_0000 then u else u - 0x1_0000_0000
  }

  /** The value a 32-bit integer gets when it is assigned n. */
  function ToInt(n: int): (i: int32)
    ensures -0x8000_0000 <= n < 0x8000_0000 ==> i == n
    ensures 0x8000_0000 <= n <= 0x1_0000_0000 ==> i == n - 0x1_0000_0000
  {
    Signed(n % 0x1_0000_0000)
  }

  lemma ToIntRepeats(n: int, k: int)
    ensures ToInt(n + k * 0x1_0000_0000) == ToInt(n)
  {
    assert (n + k * 0x1_0000_0000) % 0x1_0000_0000 == n % 0x1_0000_0000;
  }

  lemma ToIntAdds(a: int, b: int)
    ensures ToInt(ToInt(a) + b) == ToInt(a + b)
  {
    var k := a / 0x1_0000_0000;
    assert a == k * 0x1_0000_0000 + a % 0x1_0000_0000;
    if ToInt(a) == a % 0x1_0000_0000 {
      ToIntRepeats(ToInt(a) + b, k);
    } else {
      ToIntRepeats(ToInt(a) + b, k + 1);
    }
  }

  /** "%d" applied to an unsigned 32-bit value. */
  function PrintInt(u: uint32): string {
    var i: int := Signed(u);
    if i < 0 then "-" + Digits(-i) else Digits(i)
  }

  function SkipSpaces(s: string): string {
    if s != [] && s[0] == ' ' then SkipSpaces(s[1..]) else s
  }

  function ReadDigits(s: string, acc: nat): nat {
    if s != [] && IsDigit(s[0]) then ReadDigits(s[1..], acc * 10 + (s[0] as int - 48)) else acc
  }

  /** get_guint64_from_string */
  function ScanUint64(s: string): uint64 {
    ReadDigits(SkipSpaces(s), 0) % 0x1_0000_0000_0000_0000
  }

  /** get_uint_from_string: a "%d" conversion into an unsigned variable. */
  function ScanUint(s: string): uint32 {
    var t := SkipSpaces(s);
    if t != [] && t[0] == '-' then (0 - ReadDigits(t[1..], 0)) % 0x1_0000_0000 else ReadDigits(t, 0) % 0x1_0000_0000
  }

  lemma {:induction false} ReadDigitsOfDigits(n: nat, rest: string)
    ensures ReadDigits(Digits(n) + rest, 0) == ReadDigits(rest, n)
  {
    var d := Digit(n % 10);
    if n < 10 {
      assert (Digits(n) + rest)[1..] == rest;
    } else {
      assert Digits(n) + rest == Digits(n / 10) + ([d] + rest);
      ReadDigitsOfDigits(n / 10, [d] + rest);
      assert ([d] + rest)[1..] == rest;
    }
  }

  lemma ReadBack(n: nat)
    ensures ReadDigits(Digits(n), 0) == n
  {
    ReadDigitsOfDigits(n, "");
    assert Digits(n) + "" == Digits(n);
  }

  /** sscanf reads back what printf wrote, with or without the space that follows a comma. */
  lemma ScanPrintUint64(n: uint64)
    ensures ScanUint64(Digits(n)) == n && ScanUint64(" " + Digits(n)) == n
  {
    ReadBack(n);
    assert (" " + Digits(n))[1..] == Digits(n);
  }

  lemma SpaceSkipped(t: string)
    requires t != "" && t[0] != ' '
    ensures SkipSpaces(t) == t && SkipSpaces(" " + t) == t
  {
    assert (" " + t)[1..] == t;
  }

  lemma ScanPrintInt(u: uint32)
    ensures ScanUint(PrintInt(u)) == u && ScanUint(" " + PrintInt(u)) == u
  {
    var i: int, t := Signed(u), PrintInt(u);
    SpaceSkipped(t);
    if i < 0 {
      ReadBack(-i);
      assert t[1..] == Digits(-i);
    } else {
      ReadBack(i);
    }
  }

  lemma PrintIntChars(u: uint32)
    ensures var r := PrintInt(u); r != [] && forall k :: 0 <= k < |r| ==> IsDigit(r[k]) || r[k] == '-'
  {
  }

  lemma QuotientIs(n: int, d: int, q: int)
    requires d > 0 && q * d <= n < (q + 1) * d
    ensures n / d == q
  {
    var q', r' := n / d, n % d;
    assert n == q' * d + r';
    if q' < q {
      Scaled(q' + 1, q, d);
    } else if q < q' {
      Scaled(q + 1, q', d);
    }
  }

  lemma Scaled(a: int, b: int, d: int)
    requires a <= b && d > 0
    ensures a * d <= b * d
  {
  }

  /** Dividing twice. */
  lemma QuotientOfQuotient(n: nat, a: nat, b: nat)
    requires a > 0 && b > 0
    ensures a * b > 0 && (n / a) / b == n / (a * b)
  {
    var m, r := n / a, n % a;
    var q, r' := m / b, m % b;
    Regrouped(q, b, r', a);
    Scaled(r', b - 1, a);
    assert n == q * (a * b) + (r' * a + r);
    assert (q + 1) * (a * b) == q * (a * b) + a * b;
    QuotientIs(n, a * b, q);
  }

  lemma Regrouped(q: int, b: int, r: int, a: int)
    ensures (q * b + r) * a == q * (a * b) + r * a
    ensures (b - 1) * a == a * b - a
  {
  }
}
