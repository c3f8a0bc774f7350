/** Money at the gateway boundary (app/core/sslcommerz.py): paisa rendered as a decimal string, and how an answer is
    read. */
module Money {
  import opened Base
  import opened Text
  import Rounding

  /** A gateway answer: its fields as text; a missing field is an absent key. */
  type Validation = map<string, string>

  function Get(v: Validation, key: string): string {
    if key in v then v[key] else ""
  }

  function TwoDigits(n: nat): string
    requires n < 100
  {
    [DigitChar(n / 10), DigitChar(n % 10)]
  }

  /** `f"{paisa / 100:.2f}"`, exactly. */
  function Render(paisa: nat): string {
    Digits(paisa / 100) + "." + TwoDigits(paisa % 100)
  }

  /** A run of digits, possibly empty. */
  function NatOf(s: string): Option<nat> {
    if s == "" then Some(0)
    else if !('0' <= s[|s| - 1] <= '9') then None
    else
      match NatOf(s[..|s| - 1])
      case Some(n) => Some(10 * n + (s[|s| - 1] as int - '0' as int))
      case None => None
  }

  function Pow10(n: nat): (p: real)
    ensures p > 0.0
  {
    if n == 0 then 1.0 else 10.0 * Pow10(n - 1)
  }

  function WithFraction(w: nat, f: nat, power: real): real
    requires power > 0.0
  {
    w as real + f as real / power
  }

  function FromParts(whole: string, frac: string): Option<real> {
    if whole == "" && frac == "" then None
    else
      match (NatOf(whole), NatOf(frac))
      case (Some(w), Some(f)) => Some(WithFraction(w, f, Pow10(|frac|)))
      case _ => None
  }

  function Unsigned(s: string): Option<real> {
    if '.' in s then FromParts(s[..IndexOf(s, '.')], s[IndexOf(s, '.') + 1..]) else FromParts(s, "")
  }

  /** `float(text)` on plain decimal text, over exact numbers. */
  function ParseDecimal(text: string): Option<real> {
    var s := Strip(text);
    if s != "" && (s[0] == '-' || s[0] == '+') then
      match Unsigned(s[1..])
      case Some(x) => Some(if s[0] == '-' then -x else x)
      case None => None
    else Unsigned(s)
  }

  function UpperChar(c: char): char {
    if 'a' <= c <= 'z' then (c as int - 32) as char else c
  }

  function Upper(s: string): (u: string)
    ensures |u| == |s|
  {
    if s == "" then "" else [UpperChar(s[0])] + Upper(s[1..])
  }

  predicate PaymentSucceeded(v: Validation) {
    var status := Upper(Get(v, "status"));
    status == "VALID" || status == "VALIDATED"
  }

  /** The first of two fields that is present and not empty. */
  function FirstOf(v: Validation, a: string, b: string): string {
    if Get(v, a) != "" then Get(v, a) else Get(v, b)
  }

  function SettledAmount(v: Validation): string {
    FirstOf(v, "currency_amount", "amount")
  }

  function SettledCurrency(v: Validation): string {
    FirstOf(v, "currency_type", "currency")
  }

  predicate AmountMatches(v: Validation, expectedPaisa: int, expectedCurrency: string) {
    match ParseDecimal(SettledAmount(v))
    case None => false
    case Some(x) =>
      Rounding.RoundHalfEven(x * 100.0) == expectedPaisa
      && Upper(SettledCurrency(v)) == Upper(expectedCurrency)
  }

  predicate RiskFlagged(v: Validation) {
    Get(v, "risk_level") == "1"
  }

  // ----- what was rendered reads back as that amount and no other

  lemma {:induction false} NatOfDigits(n: nat)
    ensures NatOf(Digits(n)) == Some(n)
  {
    if n >= 10 {
      NatOfDigits(n / 10);
      assert Digits(n)[..|Digits(n)| - 1] == Digits(n / 10);
    }
  }

  lemma NatOfTwoDigits(n: nat)
    requires n < 100
    ensures NatOf(TwoDigits(n)) == Some(n)
  {
    var s := TwoDigits(n);
    assert s[..1] == [DigitChar(n / 10)];
    assert s[..1][..0] == "";
    assert NatOf(s[..1]) == Some(n / 10);
  }

  lemma UnsignedOfParts(whole: string, frac: string)
    requires '.' !in whole
    ensures Unsigned(whole + ['.'] + frac) == FromParts(whole, frac)
  {
    var s := whole + ['.'] + frac;
    IndexOfSeparator(whole, frac, '.');
    assert s[..|whole|] == whole && s[|whole| + 1..] == frac;
  }

  lemma PartsOfRendered(paisa: nat)
    ensures FromParts(Digits(paisa / 100), TwoDigits(paisa % 100)) == Some(paisa as real / 100.0)
  {
    NatOfDigits(paisa / 100);
    NatOfTwoDigits(paisa % 100);
    assert Pow10(2) == 100.0;
  }

  lemma RenderedIsBare(paisa: nat)
    ensures var s := Render(paisa); s != "" && Strip(s) == s && s[0] != '-' && s[0] != '+'
  {
    var whole, frac := Digits(paisa / 100), TwoDigits(paisa % 100);
    var s := Render(paisa);
    assert s[0] == whole[0] && whole[0] in whole && s[|s| - 1] == frac[1];
  }

  lemma RenderedReadsBack(paisa: nat)
    ensures ParseDecimal(Render(paisa)) == Some(paisa as real / 100.0)
  {
    var whole, frac := Digits(paisa / 100), TwoDigits(paisa % 100);
    RenderedIsBare(paisa);
    PartsOfRendered(paisa);
    UnsignedOfParts(whole, frac);
    assert Render(paisa) == whole + ['.'] + frac;
  }

  /** An answer carrying a rendered amount, in whichever of the two field pairs, is accepted for that amount in that
      currency and refused for every other amount and every other currency. */
  lemma RenderedAmountMatchesOnlyItself(v: Validation, paisa: nat, expected: int, currency: string)
    requires Get(v, "currency_amount") == Render(paisa)
      || (Get(v, "currency_amount") == "" && Get(v, "amount") == Render(paisa))
    ensures AmountMatches(v, expected, currency)
      <==> expected == paisa && Upper(SettledCurrency(v)) == Upper(currency)
  {
    assert |Render(paisa)| > 0;
    assert SettledAmount(v) == Render(paisa);
    RenderedReadsBack(paisa);
    assert paisa as real / 100.0 * 100.0 == paisa as real;
    Rounding.RoundOfWhole(paisa);
  }

  /** The merchant's take after commission is never what is compared. */
  lemma OtherFieldsAreIgnored(v: Validation, key: string, text: string, expected: int, currency: string)
    requires key !in {"currency_amount", "amount", "currency_type", "currency"}
    ensures AmountMatches(v[key := text], expected, currency) == AmountMatches(v, expected, currency)
  {}

  lemma {:induction false} UpperOfCapitals(s: string)
    requires forall c :: c in s ==> !('a' <= c <= 'z')
    ensures Upper(s) == s
  {
    if s != "" {
      forall c | c in s[1..] ensures c in s {}
      UpperOfCapitals(s[1..]);
      assert s[0] in s && s == [s[0]] + s[1..];
    }
  }

  // ----- texts, letter by letter

  /** The text is that word of capitals, each letter in either case. */
  predicate Spells(text: string, word: string) {
    && |text| == |word|
    && forall i :: 0 <= i < |word| ==> text[i] == word[i] || text[i] as int == word[i] as int + 32
  }

  lemma {:induction false} UpperSpells(text: string, word: string)
    requires forall i :: 0 <= i < |word| ==> 'A' <= word[i] <= 'Z'
    ensures Upper(text) == word <==> Spells(text, word)
  {
    if text != "" && word != "" {
      UpperSpells(text[1..], word[1..]);
      assert Upper(text)[0] == UpperChar(text[0]) && Upper(text)[1..] == Upper(text[1..]);
      assert word == [word[0]] + word[1..];
      if Spells(text, word) {
        assert Spells(text[1..], word[1..]);
      }
      if Spells(text[1..], word[1..]) && Upper([text[0]]) == [word[0]] {
        forall i | 0 <= i < |word| ensures text[i] == word[i] || text[i] as int == word[i] as int + 32 {
          assert i > 0 ==> text[i] == text[1..][i - 1] && word[i] == word[1..][i - 1];
        }
      }
    }
  }

  /** The gateway's status says the money was taken, in whatever case. */
  predicate SaysTaken(v: Validation) {
    "status" in v && (Spells(v["status"], "VALID") || Spells(v["status"], "VALIDATED"))
  }

  lemma SucceededSaysTaken(v: Validation)
    ensures PaymentSucceeded(v) <==> SaysTaken(v)
  {
    UpperSpells(Get(v, "status"), "VALID");
    UpperSpells(Get(v, "status"), "VALIDATED");
  }

  /** Two currencies are the same word, letter by letter up to case. */
  predicate SameLetters(a: string, b: string) {
    |a| == |b| && forall i :: 0 <= i < |a| ==> UpperChar(a[i]) == UpperChar(b[i])
  }

  lemma {:induction false} UpperSameLetters(a: string, b: string)
    ensures Upper(a) == Upper(b) <==> SameLetters(a, b)
  {
    if a != "" && b != "" {
      UpperSameLetters(a[1..], b[1..]);
      assert Upper(a)[0] == UpperChar(a[0]) && Upper(a)[1..] == Upper(a[1..]);
      assert Upper(b)[0] == UpperChar(b[0]) && Upper(b)[1..] == Upper(b[1..]);
      assert Upper(a) == [Upper(a)[0]] + Upper(a)[1..] && Upper(b) == [Upper(b)[0]] + Upper(b)[1..];
      if SameLetters(a[1..], b[1..]) && UpperChar(a[0]) == UpperChar(b[0]) {
        forall i | 0 <= i < |a| ensures UpperChar(a[i]) == UpperChar(b[i]) {
          assert i > 0 ==> a[i] == a[1..][i - 1] && b[i] == b[1..][i - 1];
        }
      }
      if SameLetters(a, b) {
        assert forall i :: 0 <= i < |a| - 1 ==> a[1..][i] == a[i + 1] && b[1..][i] == b[i + 1];
      }
    }
  }

  /** The amount is the first of its two fields with anything in it, read as a number, to the nearest paisa; the
      currency the first of its two, up to case. */
  predicate Agrees(v: Validation, paisa: int, currency: string) {
    var amount := if "currency_amount" in v && v["currency_amount"] != "" then v["currency_amount"]
                  else if "amount" in v then v["amount"] else "";
    var unit := if "currency_type" in v && v["currency_type"] != "" then v["currency_type"]
                else if "currency" in v then v["currency"] else "";
    && ParseDecimal(amount).Some? && Rounding.Nearest(ParseDecimal(amount).value * 100.0, paisa)
    && SameLetters(unit, currency)
  }

  lemma MatchesAgrees(v: Validation, paisa: int, currency: string)
    ensures AmountMatches(v, paisa, currency) <==> Agrees(v, paisa, currency)
  {
    UpperSameLetters(SettledCurrency(v), currency);
    if ParseDecimal(SettledAmount(v)).Some? {
      Rounding.RoundsToNearest(ParseDecimal(SettledAmount(v)).value * 100.0, paisa);
    }
  }
}
