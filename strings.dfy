/** Decimal digits, number-to-string conversion, JavaScript's relational
    comparison of strings, and simplified models of `parseInt` and
    `parseFloat` as the store uses them on exercise fields. */
module Strings {
  import opened Collections

  predicate IsDigit(c: char)
  {
    '0' <= c <= '9'
  }

  predicate AllDigits(s: string)
  {
    forall i :: 0 <= i < |s| ==> IsDigit(s[i])
  }

  function DigitValue(c: char): (n: nat)
    requires IsDigit(c)
    ensures n < 10
  {
    (c as int) - ('0' as int)
  }

  function DigitChar(n: nat): (c: char)
    requires n < 10
    ensures IsDigit(c) && DigitValue(c) == n
  {
    (('0' as int) + n) as char
  }

  function Pow10(k: nat): (p: nat)
    ensures p >= 1
  {
    if k == 0 then 1 else 10 * Pow10(k - 1)
  }

  /** The value of a run of decimal digits, most significant digit first. */
  function DigitsValue(s: string): (n: nat)
    requires AllDigits(s)
    ensures n < Pow10(|s|)
  {
    if s == [] then 0 else DigitsValue(s[..|s| - 1]) * 10 + DigitValue(s[|s| - 1])
  }

  /** `String(n)` for a non-negative integer: its shortest decimal numeral. */
  function NatToString(n: nat): (s: string)
    ensures |s| >= 1 && AllDigits(s)
    ensures DigitsValue(s) == n
  {
    if n < 10 then [DigitChar(n)]
    else
      var t := NatToString(n / 10);
      var s := t + [DigitChar(n % 10)];
      assert s[..|s| - 1] == t;
      s
  }

  /** `String(i)` for any integer. */
  function IntToString(i: int): string
  {
    if i < 0 then "-" + NatToString(-i) else NatToString(i)
  }

  /** `s.padStart(width, fill)`: fill characters in front until s is width long. */
  function PadStart(s: string, width: nat, fill: char): (r: string)
    ensures |r| == if |s| < width then width else |s|
    ensures r[|r| - |s|..] == s
    ensures forall i :: 0 <= i < |r| - |s| ==> r[i] == fill
  {
    if |s| < width then seq(width - |s|, _ => fill) + s else s
  }

  /** `String(n).padStart(2, '0')`, used for months and days in date strings. */
  function Pad2(n: nat): string
  {
    PadStart(NatToString(n), 2, '0')
  }

  lemma NatToStringLength(n: nat, k: nat)
    requires 1 <= k && Pow10(k - 1) <= n < Pow10(k)
    ensures |NatToString(n)| == k
    decreases k
  {
    if n >= 10 {
      assert k >= 2;
      NatToStringLength(n / 10, k - 1);
    }
  }

  lemma {:induction false} PowMonotone(a: nat, b: nat)
    requires a <= b
    ensures Pow10(a) <= Pow10(b)
    decreases b
  {
    if a < b {
      PowMonotone(a, b - 1);
    }
  }

  /** A number below 100 padded to two places is two digits worth that number. */
  lemma Pad2Digits(n: nat)
    requires n < 100
    ensures |Pad2(n)| == 2 && AllDigits(Pad2(n)) && DigitsValue(Pad2(n)) == n
  {
    var t := NatToString(n);
    if n < 10 {
      assert |t| == 1;
      var r := Pad2(n);
      assert r == ['0'] + t;
      assert r[..1] == ['0'];
      assert DigitsValue(['0']) == 0;
    } else {
      NatToStringLength(n, 2);
    }
  }

  /** JavaScript's `a < b` on strings: character by character, and a proper
      prefix is smaller. */
  function LexLess(a: string, b: string): bool
    decreases |a|
  {
    if |b| == 0 then false
    else if |a| == 0 then true
    else if a[0] != b[0] then a[0] < b[0]
    else LexLess(a[1..], b[1..])
  }

  /** Comparing two concatenations whose first parts have the same length:
      the first parts decide unless they are equal. */
  lemma {:induction false} LexConcat(a1: string, a2: string, b1: string, b2: string)
    requires |a1| == |b1|
    ensures LexLess(a1 + a2, b1 + b2) == (LexLess(a1, b1) || (a1 == b1 && LexLess(a2, b2)))
    decreases |a1|
  {
    if |a1| == 0 {
      assert a1 + a2 == a2 && b1 + b2 == b2;
    } else {
      assert (a1 + a2)[0] == a1[0] && (b1 + b2)[0] == b1[0];
      if a1[0] == b1[0] {
        assert (a1 + a2)[1..] == a1[1..] + a2;
        assert (b1 + b2)[1..] == b1[1..] + b2;
        LexConcat(a1[1..], a2, b1[1..], b2);
        assert a1 == b1 <==> a1[1..] == b1[1..] by {
          if a1[1..] == b1[1..] {
            assert a1 == [a1[0]] + a1[1..] && b1 == [b1[0]] + b1[1..];
          }
        }
      }
    }
  }

  /** Two digit strings of the same length are equal exactly when they have the
      same value. */
  lemma {:induction false} DigitsEqual(s: string, t: string)
    requires |s| == |t| && AllDigits(s) && AllDigits(t)
    ensures s == t <==> DigitsValue(s) == DigitsValue(t)
    decreases |s|
  {
    if |s| > 0 {
      var n := |s| - 1;
      DigitsEqual(s[..n], t[..n]);
      if DigitsValue(s) == DigitsValue(t) {
        assert DigitValue(s[n]) == DigitValue(t[n]);
        assert s == s[..n] + [s[n]] && t == t[..n] + [t[n]];
      }
    }
  }

  /** On digit strings of the same length, string order is numeric order. */
  lemma {:induction false} LexDigits(s: string, t: string)
    requires |s| == |t| && AllDigits(s) && AllDigits(t)
    ensures LexLess(s, t) <==> DigitsValue(s) < DigitsValue(t)
    decreases |s|
  {
    if |s| > 0 {
      var n := |s| - 1;
      LexDigits(s[..n], t[..n]);
      DigitsEqual(s[..n], t[..n]);
      assert s == s[..n] + [s[n]] && t == t[..n] + [t[n]];
      LexConcat(s[..n], [s[n]], t[..n], [t[n]]);
      assert LexLess([s[n]], [t[n]]) == (s[n] < t[n]) by {
        assert [s[n]][1..] == [] && [t[n]][1..] == [];
      }
    }
  }

  /** The characters `parseInt` and `parseFloat` skip at the front: ECMAScript's
      white space (tab, vertical tab, form feed, the byte-order mark and every
      space separator of Unicode category Zs) and line terminators. */
  predicate IsJsWhitespace(c: char)
  {
    c == '\t' || c == '\U{0B}' || c == '\U{0C}' || c == '\U{FEFF}'
    || c == '\n' || c == '\r' || c == '\U{2028}' || c == '\U{2029}'
    || c == ' ' || c == '\U{A0}' || c == '\U{1680}' || '\U{2000}' <= c <= '\U{200A}'
    || c == '\U{202F}' || c == '\U{205F}' || c == '\U{3000}'
  }

  function TrimStart(s: string): (r: string)
    ensures |r| <= |s| && r == s[|s| - |r|..]
    ensures |r| > 0 ==> !IsJsWhitespace(r[0])
  {
    if |s| > 0 && IsJsWhitespace(s[0]) then TrimStart(s[1..]) else s
  }

  /** The length of the run of digits at the front of s. */
  function DigitRunLength(s: string): (k: nat)
    ensures k <= |s| && AllDigits(s[..k])
    ensures k < |s| ==> !IsDigit(s[k])
  {
    if |s| > 0 && IsDigit(s[0]) then
      var k := 1 + DigitRunLength(s[1..]);
      assert s[..k] == [s[0]] + s[1..][..k - 1];
      k
    else 0
  }

  /** What follows the optional sign, after leading white space. */
  function Unsigned(s: string): string
  {
    var t := TrimStart(s);
    if |t| > 0 && (t[0] == '-' || t[0] == '+') then t[1..] else t
  }

  predicate IsNegated(s: string)
  {
    var t := TrimStart(s);
    |t| > 0 && t[0] == '-'
  }

  /** The digits that `parseInt` and `parseFloat` read before any point. */
  function IntegerDigits(u: string): (d: string)
    ensures AllDigits(d)
  {
    u[..DigitRunLength(u)]
  }

  /** The fraction digits that `parseFloat` reads after the integer digits. */
  function FractionDigits(u: string): (f: string)
    ensures AllDigits(f)
  {
    var rest := u[DigitRunLength(u)..];
    if |rest| > 0 && rest[0] == '.' then IntegerDigits(rest[1..]) else ""
  }

  /** `parseInt(s)` in base 10: white space, an optional sign and the longest
      run of digits; None stands for NaN. */
  function ParseInt(s: string): Option<int>
  {
    IntOfDigits(IsNegated(s), IntegerDigits(Unsigned(s)))
  }

  function IntOfDigits(negative: bool, d: string): Option<int>
    requires AllDigits(d)
  {
    if |d| == 0 then None
    else
      var v: int := DigitsValue(d);
      Some(if negative then -v else v)
  }

  /** `parseFloat(s)` without exponents and without `Infinity`: white space,
      an optional sign, digits, and optionally a point and more digits, with at
      least one digit in all; None stands for NaN. */
  function ParseFloat(s: string): Option<real>
  {
    var u := Unsigned(s);
    RealOfDigits(IsNegated(s), IntegerDigits(u), FractionDigits(u))
  }

  function RealOfDigits(negative: bool, d: string, f: string): Option<real>
    requires AllDigits(d) && AllDigits(f)
  {
    if |d| == 0 && |f| == 0 then None
    else
      var magnitude := DigitsValue(d) as real + DigitsValue(f) as real / Pow10(|f|) as real;
      Some(if negative then -magnitude else magnitude)
  }

  /** A string `parseInt` reads as a positive number reads through
      `parseFloat` as a number at least as large. */
  lemma ParseIntPositiveThenFloat(s: string)
    requires ParseInt(s).Some? && ParseInt(s).value > 0
    ensures ParseFloat(s).Some? && ParseFloat(s).value >= ParseInt(s).value as real
  {
    var u := Unsigned(s);
    assert ParseInt(s) == IntOfDigits(IsNegated(s), IntegerDigits(u));
    assert ParseFloat(s) == RealOfDigits(IsNegated(s), IntegerDigits(u), FractionDigits(u));
    FractionNotNegative(IsNegated(s), IntegerDigits(u), FractionDigits(u));
  }

  lemma FractionNotNegative(negative: bool, d: string, f: string)
    requires AllDigits(d) && AllDigits(f)
    requires IntOfDigits(negative, d).Some? && IntOfDigits(negative, d).value > 0
    ensures RealOfDigits(negative, d, f).Some?
    ensures RealOfDigits(negative, d, f).value >= IntOfDigits(negative, d).value as real
  {
    assert !negative;
    assert DigitsValue(f) as real / Pow10(|f|) as real >= 0.0;
  }

  lemma UnsignedDigits(s: string)
    requires |s| >= 1 && AllDigits(s)
    ensures Unsigned(s) == s && !IsNegated(s) && DigitRunLength(s) == |s|
  {
    assert IsDigit(s[0]);
    assert !IsJsWhitespace(s[0]) && s[0] != '-' && s[0] != '+';
    assert TrimStart(s) == s;
    DigitRunAll(s);
  }

  /** `parseInt` and `parseFloat` read a plain run of digits as its value. */
  lemma ParseDigits(s: string)
    requires |s| >= 1 && AllDigits(s)
    ensures ParseInt(s) == Some(DigitsValue(s))
    ensures ParseFloat(s) == Some(DigitsValue(s) as real)
  {
    UnsignedDigits(s);
    assert IntegerDigits(s) == s by {
      assert s[..|s|] == s;
    }
    assert FractionDigits(s) == "" by {
      assert s[|s|..] == [];
    }
  }

  /** `parseInt` and `parseFloat` read back the numeral `String(n)`. */
  lemma ParseNatToString(n: nat)
    ensures ParseInt(NatToString(n)) == Some(n)
    ensures ParseFloat(NatToString(n)) == Some(n as real)
  {
    ParseDigits(NatToString(n));
  }

  lemma {:induction false} DigitRunAll(s: string)
    requires AllDigits(s)
    ensures DigitRunLength(s) == |s|
  {
    if |s| > 0 {
      DigitRunAll(s[1..]);
    }
  }
}
