/** Fixed-width positional numerals, decimal for timestamps and hexadecimal for UUIDs. */
module Digits {
  import opened Wrappers

  function DigitChar(d: nat): char
    requires d < 16
  {
    "0123456789abcdef"[d]
  }

  function DigitValue(c: char): Option<nat> {
    if '0' <= c <= '9' then Some(c as int - '0' as int)
    else if 'a' <= c <= 'f' then Some(c as int - 'a' as int + 10)
    else if 'A' <= c <= 'F' then Some(c as int - 'A' as int + 10)
    else None
  }

  function Power(base: nat, n: nat): nat {
    if n == 0 then 1 else base * Power(base, n - 1)
  }

  /** The width low digits of n, most significant first. */
  function ToText(n: nat, base: nat, width: nat): (s: string)
    requires 2 <= base <= 16
    ensures |s| == width
    ensures forall i :: 0 <= i < |s| ==> DigitValue(s[i]).Some? && DigitValue(s[i]).value < base
    ensures forall i :: 0 <= i < |s| ==> s[i] in "0123456789abcdef"
  {
    if width == 0 then "" else ToText(n / base, base, width - 1) + [DigitChar(n % base)]
  }

  function FromText(s: string, base: nat): Option<nat> {
    if s == "" then Some(0)
    else
      var high, low := FromText(s[..|s| - 1], base), DigitValue(s[|s| - 1]);
      if high.None? || low.None? || low.value >= base then None else Some(high.value * base + low.value)
  }

  /** Reading back a number that fits gives it back. */
  lemma {:induction false} NumeralRoundTrip(n: nat, base: nat, width: nat)
    requires 2 <= base <= 16 && n < Power(base, width)
    ensures FromText(ToText(n, base, width), base) == Some(n)
    decreases width
  {
    if width > 0 {
      var q, d := n / base, n % base;
      DivMod(n, base);
      QuotientFits(q, d, base, Power(base, width - 1));
      NumeralRoundTrip(q, base, width - 1);
      OneDigit(ToText(q, base, width - 1), q, d, base);
    }
  }

  lemma DivMod(n: nat, base: nat)
    requires base >= 2
    ensures n == n / base * base + n % base && 0 <= n % base < base && 0 <= n / base
  {
  }

  lemma OneDigit(high: string, n: nat, d: nat, base: nat)
    requires 2 <= base <= 16 && d < base && FromText(high, base) == Some(n)
    ensures FromText(high + [DigitChar(d)], base) == Some(n * base + d)
  {
    var s := high + [DigitChar(d)];
    assert s[..|s| - 1] == high;
    assert DigitValue(DigitChar(d)) == Some(d);
  }

  lemma QuotientFits(q: nat, d: nat, base: nat, p: nat)
    requires q * base + d < base * p
    ensures q < p
  {
    if q >= p { MulMono(p, q, base); }
  }

  lemma MulMono(a: nat, b: nat, c: nat)
    requires a <= b
    ensures c * a <= b * c
  {
  }

  lemma {:induction false} PowerAdds(base: nat, a: nat, b: nat)
    ensures Power(base, a + b) == Power(base, a) * Power(base, b)
    decreases b
  {
    if b > 0 {
      PowerAdds(base, a, b - 1);
      assert Power(base, a + b) == base * Power(base, a + (b - 1));
    }
  }
}
