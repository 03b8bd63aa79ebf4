/**
 * Strings as the core uses them: zero-padded decimal rendering (the
 * `ToString("yyyyMMdd")` date part and the numeric suffix of a booking
 * number), ordinal string order (the `OrderBy` over names and room numbers)
 * and `string.IsNullOrWhiteSpace`.
 */
module Text {

  predicate IsDigit(c: char)
  {
    '0' <= c <= '9'
  }

  predicate AllDigits(s: string)
  {
    forall i :: 0 <= i < |s| ==> IsDigit(s[i])
  }

  function DigitChar(d: nat): (c: char)
    requires d < 10
    ensures IsDigit(c)
  {
    ('0' as int + d) as char
  }

  function DigitValue(c: char): nat
    requires IsDigit(c)
  {
    c as int - '0' as int
  }

  function Pow10(n: nat): (p: nat)
    ensures p >= 1
  {
    if n == 0 then 1 else 10 * Pow10(n - 1)
  }

  /** `n` rendered in decimal with exactly `width` digits, most significant first. */
  function PadDigits(n: nat, width: nat): (s: string)
    ensures |s| == width
  {
    if width == 0 then ""
    else PadDigits(n / 10, width - 1) + [DigitChar(n % 10)]
  }

  /** A padded rendering is made of decimal digits only. */
  lemma {:induction false} PadDigitsAllDigits(n: nat, width: nat)
    ensures AllDigits(PadDigits(n, width))
  {
    if width > 0 {
      var s := PadDigits(n, width);
      PadDigitsAllDigits(n / 10, width - 1);
      assert s == PadDigits(n / 10, width - 1) + [DigitChar(n % 10)];
    }
  }

  /** The value of a string of decimal digits. */
  function ParseDigits(s: string): nat
    requires AllDigits(s)
  {
    if s == [] then 0
    else 10 * ParseDigits(s[..|s| - 1]) + DigitValue(s[|s| - 1])
  }

  /** Padding a number that fits in `width` digits loses nothing: it parses back. */
  lemma {:induction false} ParsePadDigits(n: nat, width: nat)
    requires n < Pow10(width)
    ensures AllDigits(PadDigits(n, width)) && ParseDigits(PadDigits(n, width)) == n
  {
    PadDigitsAllDigits(n, width);
    if width > 0 {
      var s := PadDigits(n, width);
      assert s[..|s| - 1] == PadDigits(n / 10, width - 1);
      assert n / 10 < Pow10(width - 1) by {
        assert n < 10 * Pow10(width - 1);
      }
      ParsePadDigits(n / 10, width - 1);
      assert DigitValue(s[|s| - 1]) == n % 10;
    }
  }

  /** A padded rendering starts with '0' exactly when the number is below the top digit's weight. */
  lemma {:induction false} PadDigitsLeading(n: nat, width: nat)
    requires 0 < width && n < Pow10(width)
    ensures PadDigits(n, width)[0] == '0' <==> n < Pow10(width - 1)
  {
    if width > 1 {
      assert n / 10 < Pow10(width - 1);
      PadDigitsLeading(n / 10, width - 1);
      assert PadDigits(n, width)[0] == PadDigits(n / 10, width - 1)[0];
      assert n / 10 < Pow10(width - 2) <==> n < Pow10(width - 1);
    } else {
      assert PadDigits(n, width) == [DigitChar(n % 10)];
    }
  }

  /** Ordinal (code-point by code-point) string order. */
  predicate OrdinalLe(a: string, b: string)
  {
    if a == [] then true
    else if b == [] then false
    else if a[0] != b[0] then a[0] < b[0]
    else OrdinalLe(a[1..], b[1..])
  }

  lemma {:induction false} OrdinalLeTotal(a: string, b: string)
    ensures OrdinalLe(a, b) || OrdinalLe(b, a)
  {
    if a != [] && b != [] && a[0] == b[0] {
      OrdinalLeTotal(a[1..], b[1..]);
    }
  }

  lemma {:induction false} OrdinalLeAntisymmetric(a: string, b: string)
    requires OrdinalLe(a, b) && OrdinalLe(b, a)
    ensures a == b
  {
    if a != [] && b != [] {
      OrdinalLeAntisymmetric(a[1..], b[1..]);
      assert a == [a[0]] + a[1..] && b == [b[0]] + b[1..];
    }
  }

  lemma {:induction false} OrdinalLeTransitive(a: string, b: string, c: string)
    requires OrdinalLe(a, b) && OrdinalLe(b, c)
    ensures OrdinalLe(a, c)
  {
    if a != [] && b != [] && c != [] && a[0] == b[0] && b[0] == c[0] {
      OrdinalLeTransitive(a[1..], b[1..], c[1..]);
    }
  }

  /** `char.IsWhiteSpace`: the Unicode White_Space characters. */
  predicate IsWhiteSpace(c: char)
  {
    var k := c as int;
    (0x09 <= k <= 0x0D) || k == 0x20 || k == 0x85 || k == 0xA0 || k == 0x1680
    || (0x2000 <= k <= 0x200A) || k == 0x2028 || k == 0x2029 || k == 0x202F
    || k == 0x205F || k == 0x3000
  }

  /** `string.IsNullOrWhiteSpace` for a non-null string: empty or only white space. */
  predicate IsBlank(s: string)
  {
    forall i :: 0 <= i < |s| ==> IsWhiteSpace(s[i])
  }
}
