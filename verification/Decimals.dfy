/** Which texts read as an amount of money, and as which: exactly the signed decimal numerals, at their positional
    value. */
module Decimals {
  import opened Base
  import opened Text
  import opened Money

  predicate AllDigits(s: string) {
    forall i :: 0 <= i < |s| ==> '0' <= s[i] <= '9'
  }

  function TenTo(n: nat): nat {
    if n == 0 then 1 else 10 * TenTo(n - 1)
  }

  /** What a run of digits is worth, each by its place. */
  function Worth(s: string): nat
    requires AllDigits(s)
  {
    if s == "" then 0 else (s[0] as int - '0' as int) * TenTo(|s| - 1) + Worth(s[1..])
  }

  /** Digits, perhaps a point and digits; some digit somewhere. */
  predicate Numeral(s: string, whole: string, frac: string) {
    && AllDigits(whole) && AllDigits(frac) && whole + frac != ""
    && (s == whole + ['.'] + frac || (s == whole && frac == ""))
  }

  predicate Times(x: real, p: nat, total: nat) {
    x * p as real == total as real
  }

  /** Moving the point behind the last digit leaves the whole number of those digits. */
  predicate WorthOf(whole: string, frac: string, x: real) {
    AllDigits(whole + frac) && Times(x, TenTo(|frac|), Worth(whole + frac))
  }

  ghost predicate Amounts(s: string, x: real) {
    exists whole, frac :: Numeral(s, whole, frac) && WorthOf(whole, frac, x)
  }

  ghost predicate SignedAmount(s: string, x: real) {
    if s == "" then false
    else if s[0] == '-' then Amounts(s[1..], -x)
    else if s[0] == '+' then Amounts(s[1..], x)
    else Amounts(s, x)
  }

  lemma {:induction false} LastPlace(s: string)
    requires s != "" && AllDigits(s)
    ensures Worth(s) == 10 * Worth(s[..|s| - 1]) + (s[|s| - 1] as int - '0' as int)
    decreases |s|
  {
    if |s| > 1 {
      LastPlace(s[1..]);
      var front := s[..|s| - 1];
      assert front[1..] == s[1..][..|s[1..]| - 1];
      var d, p := s[0] as int - '0' as int, TenTo(|s| - 2);
      assert d * (10 * p) == 10 * (d * p);
    }
  }

  lemma {:induction false} NatOfIff(s: string)
    ensures NatOf(s).Some? <==> AllDigits(s)
    ensures AllDigits(s) ==> NatOf(s) == Some(Worth(s))
    decreases |s|
  {
    if s != "" {
      var front := s[..|s| - 1];
      NatOfIff(front);
      if AllDigits(s) {
        LastPlace(s);
      } else if AllDigits(front) && '0' <= s[|s| - 1] <= '9' {
        assert forall i :: 0 <= i < |front| ==> s[i] == front[i];
      }
    }
  }

  lemma OnePlaceMore(w: nat, p: nat, f: nat, d: nat)
    ensures 10 * (w * p + f) + d == w * (10 * p) + (10 * f + d)
  {}

  lemma {:induction false} SideBySide(a: string, b: string)
    requires AllDigits(a) && AllDigits(b)
    ensures AllDigits(a + b) && Worth(a + b) == Worth(a) * TenTo(|b|) + Worth(b)
    decreases |b|
  {
    if b == "" {
      assert a + b == a;
    } else {
      var front, d := b[..|b| - 1], b[|b| - 1] as int - '0' as int;
      SideBySide(a, front);
      AppendedDigit(a + b, a + front, d);
      AppendedDigit(b, front, d);
      OnePlaceMore(Worth(a), TenTo(|front|), Worth(front), d);
    }
  }

  lemma AppendedDigit(s: string, front: string, d: nat)
    requires s != "" && s[..|s| - 1] == front && AllDigits(front) && d < 10 && s[|s| - 1] as int == '0' as int + d
    ensures AllDigits(s) && Worth(s) == 10 * Worth(front) + d
  {
    assert forall i :: 0 <= i < |front| ==> s[i] == front[i];
    LastPlace(s);
  }

  lemma {:induction false} SamePowers(n: nat)
    ensures Pow10(n) == TenTo(n) as real
  {
    if n > 0 {
      SamePowers(n - 1);
    }
  }

  lemma OverPower(w: real, f: real, p: real, x: real)
    requires p > 0.0
    ensures x == w + f / p <==> x * p == w * p + f
  {
    assert (w + f / p) * p == w * p + f;
  }

  lemma Scaled(w: nat, p: nat, f: nat)
    ensures (w * p + f) as real == w as real * p as real + f as real
  {}

  lemma PointMoved(w: nat, f: nat, p: nat, power: real, total: nat, x: real)
    requires power == p as real && power > 0.0 && total == w * p + f
    ensures x == WithFraction(w, f, power) <==> Times(x, p, total)
  {
    OverPower(w as real, f as real, power, x);
    Scaled(w, p, f);
  }

  lemma SumIsWorth(whole: string, frac: string, x: real)
    requires AllDigits(whole) && AllDigits(frac)
    ensures x == WithFraction(Worth(whole), Worth(frac), Pow10(|frac|)) <==> WorthOf(whole, frac, x)
  {
    SideBySide(whole, frac);
    SamePowers(|frac|);
    PointMoved(Worth(whole), Worth(frac), TenTo(|frac|), Pow10(|frac|), Worth(whole + frac), x);
  }

  lemma PartsIff(whole: string, frac: string, x: real)
    ensures FromParts(whole, frac) == Some(x)
      <==> AllDigits(whole) && AllDigits(frac) && whole + frac != "" && WorthOf(whole, frac, x)
  {
    NatOfIff(whole);
    NatOfIff(frac);
    if AllDigits(whole) && AllDigits(frac) {
      SumIsWorth(whole, frac, x);
    }
  }

  lemma NumeralReads(s: string, whole: string, frac: string, x: real)
    requires Numeral(s, whole, frac) && WorthOf(whole, frac, x)
    ensures Unsigned(s) == Some(x)
  {
    PartsIff(whole, frac, x);
    if s == whole + ['.'] + frac {
      UnsignedOfParts(whole, frac);
    }
  }

  lemma PointRead(s: string, x: real)
    requires '.' in s && Unsigned(s) == Some(x)
    ensures Amounts(s, x)
  {
    var i := IndexOf(s, '.');
    var whole, frac := s[..i], s[i + 1..];
    PartsIff(whole, frac, x);
    assert s == whole + ['.'] + frac;
    assert Numeral(s, whole, frac);
  }

  lemma WholeRead(s: string, x: real)
    requires '.' !in s && Unsigned(s) == Some(x)
    ensures Amounts(s, x)
  {
    PartsIff(s, "", x);
    assert s + "" == s;
    assert Numeral(s, s, "");
  }

  lemma UnsignedIff(s: string, x: real)
    ensures Unsigned(s) == Some(x) <==> Amounts(s, x)
  {
    if Unsigned(s) == Some(x) {
      if '.' in s {
        PointRead(s, x);
      } else {
        WholeRead(s, x);
      }
    } else if Amounts(s, x) {
      var whole, frac :| Numeral(s, whole, frac) && WorthOf(whole, frac, x);
      NumeralReads(s, whole, frac, x);
    }
  }

  lemma SignRead(s: string, x: real)
    requires s != ""
    ensures Unsigned(s[1..]) == Some(-x) <==> Amounts(s[1..], -x)
    ensures Unsigned(s[1..]) == Some(x) <==> Amounts(s[1..], x)
    ensures Unsigned(s) == Some(x) <==> Amounts(s, x)
  {
    UnsignedIff(s[1..], -x);
    UnsignedIff(s[1..], x);
    UnsignedIff(s, x);
  }

  /** A text reads as an amount if and only if, stripped, it is a numeral with or without a sign, and then as that
      one. */
  lemma ReadsIff(text: string, x: real)
    ensures ParseDecimal(text) == Some(x) <==> SignedAmount(Strip(text), x)
  {
    var s := Strip(text);
    if s == "" {
      assert FromParts("", "") == None;
    } else {
      SignRead(s, x);
    }
  }
}
