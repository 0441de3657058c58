/**
 * Decimal text of integers, as Python's `str` writes it and `int` reads it
 * back; used to build adjustment confirmation numbers.
 */
module Decimal {
  import opened Wrappers

  predicate IsDigit(c: char)
  {
    '0' <= c <= '9'
  }

  predicate AllDigits(s: string)
  {
    forall i :: 0 <= i < |s| ==> IsDigit(s[i])
  }

  function DigitValue(c: char): nat
    requires IsDigit(c)
  {
    c as int - '0' as int
  }

  function DigitChar(d: nat): (c: char)
    requires d < 10
    ensures IsDigit(c) && DigitValue(c) == d
  {
    ('0' as int + d) as char
  }

  function Pow10(k: nat): nat
  {
    if k == 0 then 1 else 10 * Pow10(k - 1)
  }

  /** `str(n)` for `n >= 0`: at least one digit, and a leading zero only for zero itself. */
  function NatToString(n: nat): (s: string)
    ensures |s| >= 1 && AllDigits(s)
    ensures s[0] == '0' <==> n == 0
  {
    if n < 10 then [DigitChar(n)] else NatToString(n / 10) + [DigitChar(n % 10)]
  }

  function Magnitude(i: int): nat
  {
    if i < 0 then -i else i
  }

  /** The sign `str` writes: a minus for a negative number, nothing otherwise. */
  function SignText(i: int): string
  {
    if i < 0 then "-" else ""
  }

  /** `str(i)`: a minus sign before the digits of a negative number. */
  function IntToString(i: int): (r: string)
    ensures |r| >= 1
    ensures r[0] == '-' <==> i < 0
    ensures ParseInt(r) == Some(i)
  {
    NatToStringValue(Magnitude(i));
    ParseSignedDigits(i, NatToString(Magnitude(i)));
    SignText(i) + NatToString(Magnitude(i))
  }

  /** The value of a string of digits, leading zeros allowed (as `int` allows them). */
  function DigitsValue(s: string): nat
    requires AllDigits(s)
  {
    if s == [] then 0 else DigitsValue(s[..|s| - 1]) * 10 + DigitValue(s[|s| - 1])
  }

  /**
   * `int(s)` on an optional minus sign followed by digits; `None` for any
   * other text.
   */
  function ParseInt(s: string): (r: Option<int>)
    ensures r.Some? <==> (|s| >= 1 && AllDigits(s)) || (|s| >= 2 && s[0] == '-' && AllDigits(s[1..]))
    ensures r.Some? && r.value < 0 ==> s[0] == '-'
    ensures |s| >= 1 && AllDigits(s) ==> r == Some(DigitsValue(s))
  {
    if |s| >= 2 && s[0] == '-' && AllDigits(s[1..]) then Some(-(DigitsValue(s[1..]) as int))
    else if |s| >= 1 && AllDigits(s) then Some(DigitsValue(s))
    else None
  }

  lemma DigitsValueAppend(a: string, c: char)
    requires AllDigits(a) && IsDigit(c)
    ensures AllDigits(a + [c]) && DigitsValue(a + [c]) == DigitsValue(a) * 10 + DigitValue(c)
  {
    assert (a + [c])[..|a|] == a;
  }

  lemma ShiftByOneDigit(va: int, p: int, vb: int, d: int)
    ensures (va * p + vb) * 10 + d == va * (10 * p) + (vb * 10 + d)
  {
  }

  /** Reading a concatenation: the digits of `a` are worth `10^|b|` times more. */
  lemma {:induction false} DigitsValueConcat(a: string, b: string)
    requires AllDigits(a) && AllDigits(b)
    ensures AllDigits(a + b) && DigitsValue(a + b) == DigitsValue(a) * Pow10(|b|) + DigitsValue(b)
  {
    if b == [] {
      assert a + b == a;
    } else {
      var b' := b[..|b| - 1];
      var c := b[|b| - 1];
      assert b == b' + [c];
      assert a + b == (a + b') + [c];
      DigitsValueConcat(a, b');
      DigitsValueAppend(a + b', c);
      DigitsValueAppend(b', c);
      ShiftByOneDigit(DigitsValue(a), Pow10(|b'|), DigitsValue(b'), DigitValue(c));
    }
  }

  /** `int(str(n)) == n`. */
  lemma {:induction false} NatToStringValue(n: nat)
    ensures DigitsValue(NatToString(n)) == n
  {
    if n < 10 {
      assert NatToString(n) == [] + [DigitChar(n)];
      DigitsValueAppend([], DigitChar(n));
    } else {
      NatToStringValue(n / 10);
      DigitsValueAppend(NatToString(n / 10), DigitChar(n % 10));
    }
  }

  /** A digit string without a leading zero is worth at least one. */
  lemma {:induction false} DigitsValuePositive(s: string)
    requires |s| >= 1 && AllDigits(s) && s[0] != '0'
    ensures DigitsValue(s) >= 1
  {
    if |s| > 1 {
      var p := s[..|s| - 1];
      assert s == p + [s[|s| - 1]];
      DigitsValuePositive(p);
      DigitsValueAppend(p, s[|s| - 1]);
    }
  }

  lemma DivModTen(v: nat, d: nat)
    requires d < 10
    ensures (v * 10 + d) / 10 == v && (v * 10 + d) % 10 == d
  {
  }

  /** `str(int(s)) == s` for a digit string without a leading zero. */
  lemma {:induction false} NatToStringOfDigits(s: string)
    requires |s| >= 1 && AllDigits(s) && s[0] != '0'
    ensures NatToString(DigitsValue(s)) == s
  {
    var p := s[..|s| - 1];
    var c := s[|s| - 1];
    assert s == p + [c];
    var n := DigitsValue(s);
    var d := DigitValue(c);
    assert n == DigitsValue(p) * 10 + d by { DigitsValueAppend(p, c); }
    assert DigitChar(d) == c;
    if |s| == 1 {
      assert p == [];
      assert NatToString(n) == [DigitChar(d)];
    } else {
      var v := DigitsValue(p);
      assert v >= 1 by { DigitsValuePositive(p); }
      assert n / 10 == v && n % 10 == d by { DivModTen(v, d); }
      assert NatToString(v) == p by { NatToStringOfDigits(p); }
      assert NatToString(n) == NatToString(n / 10) + [DigitChar(n % 10)];
    }
  }

  /** `str(n)` has `k + 1` digits exactly when `10^k <= n < 10^(k+1)` (or `n < 10` for `k = 0`). */
  lemma {:induction false} NatToStringLength(n: nat, k: nat)
    requires n < Pow10(k + 1) && (k > 0 ==> Pow10(k) <= n)
    ensures |NatToString(n)| == k + 1
  {
    if k > 0 {
      assert Pow10(k) == 10 * Pow10(k - 1);
      assert Pow10(k + 1) == 10 * Pow10(k);
      assert Pow10(k - 1) <= n / 10 < Pow10(k);
      NatToStringLength(n / 10, k - 1);
    }
  }

  /** `int` reads a sign followed by digits as the signed value of the digits. */
  lemma ParseSignedDigits(i: int, digits: string)
    requires |digits| >= 1 && AllDigits(digits)
    ensures ParseInt(SignText(i) + digits) == Some(if i < 0 then -(DigitsValue(digits) as int) else DigitsValue(digits))
  {
    var t := SignText(i) + digits;
    if i < 0 {
      assert t[1..] == digits;
    } else {
      assert t == digits;
      assert IsDigit(t[0]);
    }
  }

  /**
   * `str(int(s)) == s` for the text `str` itself writes: digits without a
   * leading zero, with or without a minus sign.
   */
  lemma ParseIntCanonical(d: string)
    requires |d| >= 1 && AllDigits(d) && d[0] != '0'
    ensures ParseInt(d).Some? && IntToString(ParseInt(d).value) == d
    ensures ParseInt("-" + d).Some? && IntToString(ParseInt("-" + d).value) == "-" + d
  {
    var v := DigitsValue(d);
    assert NatToString(v) == d && v >= 1 by {
      NatToStringOfDigits(d);
      DigitsValuePositive(d);
    }
    assert ParseInt(d) == Some(v as int);
    assert IntToString(v) == d by {
      assert SignText(v) == "" && Magnitude(v) == v;
    }
    assert ParseInt("-" + d) == Some(-(v as int)) by {
      assert ("-" + d)[1..] == d;
    }
    assert IntToString(-(v as int)) == "-" + d by {
      assert SignText(-(v as int)) == "-" && Magnitude(-(v as int)) == v;
    }
  }

  /** `int` ignores a leading zero. */
  lemma LeadingZeroIgnored(s: string)
    requires AllDigits(s)
    ensures AllDigits("0" + s) && DigitsValue("0" + s) == DigitsValue(s)
  {
    DigitsValueAppend([], '0');
    assert [] + ['0'] == "0";
    DigitsValueConcat("0", s);
  }

  lemma AllDigitsConcat(a: string, b: string)
    requires AllDigits(a) && AllDigits(b)
    ensures AllDigits(a + b)
  {
    forall i | 0 <= i < |a + b| ensures IsDigit((a + b)[i]) {
      if i < |a| { assert (a + b)[i] == a[i]; } else { assert (a + b)[i] == b[i - |a|]; }
    }
  }

  /** Reading three runs of digits one after another. */
  lemma DigitsValueConcat3(a: string, b: string, c: string)
    requires AllDigits(a) && AllDigits(b) && AllDigits(c)
    ensures AllDigits(a + b + c)
    ensures DigitsValue(a + b + c) == (DigitsValue(a) * Pow10(|b|) + DigitsValue(b)) * Pow10(|c|) + DigitsValue(c)
  {
    var ab := a + b;
    var vab := DigitsValue(a) * Pow10(|b|) + DigitsValue(b);
    assert AllDigits(ab) && DigitsValue(ab) == vab by { DigitsValueConcat(a, b); }
    assert AllDigits(ab + c) && DigitsValue(ab + c) == DigitsValue(ab) * Pow10(|c|) + DigitsValue(c) by {
      DigitsValueConcat(ab, c);
    }
  }
}
