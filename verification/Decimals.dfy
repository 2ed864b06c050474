/**
 * Decimal text: rendering and reading natural numbers, zero padding, digit
 * grouping and trimming. Shared by the money and the transaction-number text.
 */
module Decimals {

  predicate IsDigit(c: char) {
    '0' <= c <= '9'
  }

  predicate AllDigits(s: string) {
    forall i | 0 <= i < |s| :: IsDigit(s[i])
  }

  function DigitChar(d: nat): (c: char)
    requires d < 10
    ensures IsDigit(c)
  {
    '0' + d as char
  }

  function DigitValue(c: char): nat
    requires IsDigit(c)
  {
    (c - '0') as nat
  }

  /** `%d` of a natural number. */
  function Render(n: nat): string {
    if n < 10 then [DigitChar(n)] else Render(n / 10) + [DigitChar(n % 10)]
  }

  /** The number a digit string denotes; leading zeros are allowed. */
  function Value(s: string): nat
    requires AllDigits(s)
  {
    if s == "" then 0 else 10 * Value(s[..|s| - 1]) + DigitValue(s[|s| - 1])
  }

  function Pow10(k: nat): nat {
    if k == 0 then 1 else 10 * Pow10(k - 1)
  }

  function Repeat(c: char, count: nat): (s: string)
    ensures |s| == count && forall i | 0 <= i < count :: s[i] == c
  {
    seq(count, _ => c)
  }

  /** `%0*d`: padded with zeros to at least `width` characters. */
  function PadLeft(s: string, width: int): string {
    if |s| < width then Repeat('0', width - |s|) + s else s
  }

  /** Reading what `%d` printed gives the number back, and no zero leads it. */
  lemma {:induction false} RenderRoundTrip(n: nat)
    ensures Render(n) != "" && AllDigits(Render(n)) && Value(Render(n)) == n
    ensures n > 0 ==> Render(n)[0] != '0'
  {
    if n >= 10 {
      RenderRoundTrip(n / 10);
      var s := Render(n);
      assert s[..|s| - 1] == Render(n / 10);
    }
  }

  lemma {:induction false} RenderLength(n: nat, k: nat)
    requires 0 < k && n < Pow10(k)
    ensures |Render(n)| <= k
  {
    if n >= 10 {
      RenderLength(n / 10, k - 1);
    }
  }

  lemma {:induction false} ZerosDoNotCount(count: nat, s: string)
    requires AllDigits(s)
    ensures AllDigits(Repeat('0', count) + s) && Value(Repeat('0', count) + s) == Value(s)
    decreases |s|, count
  {
    var t := Repeat('0', count) + s;
    if s != "" {
      ZerosDoNotCount(count, s[..|s| - 1]);
      assert t[..|t| - 1] == Repeat('0', count) + s[..|s| - 1];
    } else if count > 0 {
      ZerosDoNotCount(count - 1, "");
      assert t[..|t| - 1] == Repeat('0', count - 1) + "";
    } else {
      assert t == "";
    }
  }

  lemma PadRoundTrip(n: nat, width: int)
    ensures var s := PadLeft(Render(n), width);
            AllDigits(s) && Value(s) == n && |s| == (if |Render(n)| < width then width else |Render(n)|)
  {
    RenderRoundTrip(n);
    if |Render(n)| < width {
      ZerosDoNotCount(width - |Render(n)|, Render(n));
    }
  }

  /** A number has as many digits as its magnitude says. */
  lemma {:induction false} RenderDigits(n: nat, k: nat)
    requires 0 < k && (k == 1 || Pow10(k - 1) <= n) && n < Pow10(k)
    ensures |Render(n)| == k
  {
    if n >= 10 {
      RenderDigits(n / 10, k - 1);
    } else if k > 1 {
      assert Pow10(k - 1) == 10 * Pow10(k - 2);
      PowersArePositive(k - 2);
    }
  }

  lemma {:induction false} PowersArePositive(k: nat)
    ensures Pow10(k) >= 1
  {
    if k > 0 {
      PowersArePositive(k - 1);
    }
  }

  /** Equally long digit texts of one number are one text. */
  lemma {:induction false} DigitsAreUnique(a: string, b: string)
    requires AllDigits(a) && AllDigits(b) && |a| == |b| && Value(a) == Value(b)
    ensures a == b
  {
    if a != "" {
      var n := |a| - 1;
      DigitsAreUnique(a[..n], b[..n]);
      assert a == a[..n] + [a[n]] && b == b[..n] + [b[n]];
    }
  }

  /** Two digits, as `%02d` prints a number below one hundred. */
  lemma TwoDigits(n: nat)
    requires n < 100
    ensures var s := PadLeft(Render(n), 2); |s| == 2 && AllDigits(s) && Value(s) == n
  {
    PadRoundTrip(n, 2);
    assert Pow10(2) == 100 by {
      assert Pow10(1) == 10;
    }
    RenderLength(n, 2);
  }

  /** The characters `unicode.IsSpace` accepts. */
  predicate IsSpace(c: char) {
    || c == ' '
    || '\t' <= c <= '\r'
    || c == '\U{0085}' || c == '\U{00A0}' || c == '\U{1680}'
    || '\U{2000}' <= c <= '\U{200A}'
    || c == '\U{2028}' || c == '\U{2029}' || c == '\U{202F}' || c == '\U{205F}' || c == '\U{3000}'
  }

  function TrimLeft(s: string): string {
    if s != "" && IsSpace(s[0]) then TrimLeft(s[1..]) else s
  }

  function TrimRight(s: string): string {
    if s != "" && IsSpace(s[|s| - 1]) then TrimRight(s[..|s| - 1]) else s
  }

  /** `strings.TrimSpace` */
  function Trim(s: string): string {
    TrimRight(TrimLeft(s))
  }
}
