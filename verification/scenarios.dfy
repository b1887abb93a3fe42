/** Worked examples of the message parser on concrete chat messages. Each
    example is an instance of a general law about the scanner; small lemmas
    establish the character facts of the concrete text. */
module Scenarios {
  import opened Wrappers
  import opened Text
  import opened Schema
  import opened Parser

  /** No Saudi hint in a text without an `a` (in either case) and without
      the rial sign, so the country is India. */
  lemma NoSaudiHint(s: string)
    requires 'a' !in s && 'A' !in s && Rial !in s
    ensures !HasSaudiHint(s)
    ensures InferCountry(s) == IN
  {
    AbsentLetter(s, "sar", 1);
    AbsentLetter(s, "saudi", 1);
    AbsentLetter(s, " vat", 2);
  }

  /** No income keyword in a text without `d`, `a`, `r` and `c`. */
  lemma NoIncomeWord(s: string)
    requires 'd' !in s && 'D' !in s && 'a' !in s && 'A' !in s
    requires 'r' !in s && 'R' !in s && 'c' !in s && 'C' !in s
    ensures !IsIncomeText(s)
  {
    AbsentLetter(s, "sold", 3);
    AbsentLetter(s, "sale", 1);
    AbsentLetter(s, "received", 0);
    AbsentLetter(s, "income", 2);
    AbsentLetter(s, "paid to me", 1);
  }

  /** The value of a three-digit number. */
  lemma ThreeDigits(d: string)
    requires |d| == 3
    ensures DigitsValue(d) == 100 * DigitValue(d[0]) + 10 * DigitValue(d[1]) + DigitValue(d[2])
  {
    assert d[..2][..1] == d[..1];
    assert d[..1][..0] == [];
    assert DigitsValue(d[..1]) == DigitValue(d[0]);
    assert DigitsValue(d[..2]) == 10 * DigitValue(d[0]) + DigitValue(d[1]);
  }

  /** The primary path on a text with no surrounding white space, spelled
      out field by field. */
  lemma ParsedAs(s: string, p: Parsed)
    requires Trim(s) == s && ExtractAmount(s) == Some(p.amount) && p.amount != 0.0
    requires p.description == s && InferCountry(s) == p.country
    requires IsIncomeText(s) <==> p.kind == Income
    requires p.kind == Expense ==> IsExpenseText(s)
    requires p.category == (if p.kind == Income then "sales" else "purchases")
    requires p.taxRate == DefaultTaxRate(p.country, p.kind)
    ensures ParseTransactionMessage(s) == Some(p)
  {
  }

  /** A message whose first number is a plain run of digits followed by
      neither a thousands group nor a fraction is recorded with the value
      of at most the first three digits of that run, times 1000 when a `k`
      follows, whatever numbers come later. */
  lemma PlainParse(s: string, a: nat, n: nat, p: Parsed)
    requires Trim(s) == s && FirstDigit(s, 0) == Some(a)
    requires n == (if DigitRun(s, a) < 3 then DigitRun(s, a) else 3)
    requires !GroupAt(s, a + n) && !FractionAt(s, a + n) && a + n <= |s|
    requires p.amount == if KiloAt(s, a + n) then (1000 * DigitsValue(s[a..a + n])) as real
                         else DigitsValue(s[a..a + n]) as real
    requires p.amount != 0.0
    requires p.description == s && InferCountry(s) == p.country
    requires IsIncomeText(s) <==> p.kind == Income
    requires p.kind == Expense ==> IsExpenseText(s)
    requires p.category == (if p.kind == Income then "sales" else "purchases")
    requires p.taxRate == DefaultTaxRate(p.country, p.kind)
    ensures ParseTransactionMessage(s) == Some(p)
  {
    PlainRunAmount(s, a, n);
    ParsedAs(s, p);
  }

  /** A message whose first number is a run of four or more digits is
      recorded with the value of its first three digits. */
  lemma LongParse(s: string, a: nat, p: Parsed)
    requires Trim(s) == s && FirstDigit(s, 0) == Some(a) && DigitRun(s, a) >= 4
    requires p.amount == DigitsValue(s[a..a + 3]) as real && p.amount != 0.0
    requires p.description == s && InferCountry(s) == p.country
    requires IsIncomeText(s) <==> p.kind == Income
    requires p.kind == Expense ==> IsExpenseText(s)
    requires p.category == (if p.kind == Income then "sales" else "purchases")
    requires p.taxRate == DefaultTaxRate(p.country, p.kind)
    ensures ParseTransactionMessage(s) == Some(p)
  {
    LongRunReadsThreeDigits(s, a);
    ParsedAs(s, p);
  }

  // ---------------------------------------------------------------------
  // "Sold 5 items for ₹500"

  const SoldFive := "Sold 5 items for ₹500"

  lemma SoldFiveTrimmed(s: string)
    requires s == SoldFive
    ensures Trim(s) == s
  {
    assert LeadingSpaces(s) == 0 && TrailingSpaces(s) == 0;
  }

  lemma SoldFiveDigits(s: string)
    requires s == SoldFive
    ensures FirstDigit(s, 0) == Some(5) && DigitRun(s, 5) == 1
  {
    assert forall k | 0 <= k < 5 :: !IsDigit(s[k]);
    assert IsDigit(s[5]) && !IsDigit(s[6]);
  }

  lemma SoldFiveNumber(s: string)
    requires s == SoldFive
    ensures s[5..6] == ['5']
  {
  }

  lemma SoldFiveAfter(s: string)
    requires s == SoldFive
    ensures !GroupAt(s, 6) && !FractionAt(s, 6) && !KiloAt(s, 6)
  {
    assert IsSpace(s[6]) && !IsSpace(s[7]);
    assert SpaceRun(s, 6) == 1;
  }

  lemma SoldFiveKind(s: string)
    requires s == SoldFive
    ensures IsIncomeText(s)
  {
    assert MatchesAt(s, 0, "sold");
  }

  lemma SoldFiveCountry(s: string)
    requires s == SoldFive
    ensures InferCountry(s) == IN
  {
    NoSaudiHint(s);
  }

  /** The amount is the first number of the text, not the one after the
      currency sign: "Sold 5 items for ₹500" is an income of 5. */
  lemma SoldFiveItems()
    ensures ParseTransactionMessage(SoldFive) == Some(Parsed(5.0, SoldFive, Income, "sales", IN, 18.0))
  {
    SoldFiveTrimmed(SoldFive);
    SoldFiveDigits(SoldFive);
    SoldFiveNumber(SoldFive);
    SoldFiveAfter(SoldFive);
    SoldFiveKind(SoldFive);
    SoldFiveCountry(SoldFive);
    assert DigitsValue(['5']) == 5;
    PlainParse(SoldFive, 5, 1, Parsed(5.0, SoldFive, Income, "sales", IN, 18.0));
  }

  // ---------------------------------------------------------------------
  // "Spent 200 on oil"

  const SpentOnOil := "Spent 200 on oil"

  lemma SpentOnOilTrimmed(s: string)
    requires s == SpentOnOil
    ensures Trim(s) == s
  {
    assert LeadingSpaces(s) == 0 && TrailingSpaces(s) == 0;
  }

  lemma SpentOnOilDigits(s: string)
    requires s == SpentOnOil
    ensures FirstDigit(s, 0) == Some(6) && DigitRun(s, 6) == 3
  {
    assert forall k | 0 <= k < 6 :: !IsDigit(s[k]);
    assert forall k | 6 <= k < 9 :: IsDigit(s[k]);
    assert !IsDigit(s[9]);
  }

  lemma SpentOnOilNumber(s: string)
    requires s == SpentOnOil
    ensures s[6..9] == ['2', '0', '0']
  {
  }

  lemma SpentOnOilAfter(s: string)
    requires s == SpentOnOil
    ensures !GroupAt(s, 9) && !FractionAt(s, 9) && !KiloAt(s, 9)
  {
    assert IsSpace(s[9]) && !IsSpace(s[10]);
    assert SpaceRun(s, 9) == 1;
  }

  lemma SpentOnOilLower(s: string)
    requires s == SpentOnOil
    ensures 'd' !in s && 'a' !in s && 'r' !in s && 'c' !in s
  {
  }

  lemma SpentOnOilUpper(s: string)
    requires s == SpentOnOil
    ensures 'D' !in s && 'A' !in s && 'R' !in s && 'C' !in s
  {
  }

  lemma SpentOnOilKind(s: string)
    requires s == SpentOnOil
    ensures !IsIncomeText(s) && IsExpenseText(s)
  {
    assert MatchesAt(s, 0, "spent");
    SpentOnOilLower(s);
    SpentOnOilUpper(s);
    NoIncomeWord(s);
  }

  lemma SpentOnOilCountry(s: string)
    requires s == SpentOnOil
    ensures InferCountry(s) == IN
  {
    NoSaudiHint(s);
  }

  /** An expense keyword alone gives a purchase with no tax: "Spent 200 on
      oil" is an expense of 200. */
  lemma SpentTwoHundred()
    ensures ParseTransactionMessage(SpentOnOil) == Some(Parsed(200.0, SpentOnOil, Expense, "purchases", IN, 0.0))
  {
    SpentOnOilTrimmed(SpentOnOil);
    SpentOnOilDigits(SpentOnOil);
    SpentOnOilNumber(SpentOnOil);
    SpentOnOilAfter(SpentOnOil);
    SpentOnOilKind(SpentOnOil);
    SpentOnOilCountry(SpentOnOil);
    ThreeDigits(['2', '0', '0']);
    PlainParse(SpentOnOil, 6, 3, Parsed(200.0, SpentOnOil, Expense, "purchases", IN, 0.0));
  }

  // ---------------------------------------------------------------------
  // "Sold for 2500"

  const SoldFor := "Sold for 2500"

  lemma SoldForTrimmed(s: string)
    requires s == SoldFor
    ensures Trim(s) == s
  {
    assert LeadingSpaces(s) == 0 && TrailingSpaces(s) == 0;
  }

  lemma SoldForDigits(s: string)
    requires s == SoldFor
    ensures FirstDigit(s, 0) == Some(9) && DigitRun(s, 9) == 4
  {
    assert forall k | 0 <= k < 9 :: !IsDigit(s[k]);
    assert forall k | 9 <= k < 13 :: IsDigit(s[k]);
  }

  lemma SoldForNumber(s: string)
    requires s == SoldFor
    ensures s[9..12] == ['2', '5', '0']
  {
  }

  lemma SoldForKind(s: string)
    requires s == SoldFor
    ensures IsIncomeText(s)
  {
    assert MatchesAt(s, 0, "sold");
  }

  lemma SoldForCountry(s: string)
    requires s == SoldFor
    ensures InferCountry(s) == IN
  {
    NoSaudiHint(s);
  }

  /** Without thousands separators only three digits are read: "Sold for
      2500" is an income of 250. */
  lemma SoldForTwentyFiveHundred()
    ensures ParseTransactionMessage(SoldFor) == Some(Parsed(250.0, SoldFor, Income, "sales", IN, 18.0))
  {
    SoldForTrimmed(SoldFor);
    SoldForDigits(SoldFor);
    SoldForNumber(SoldFor);
    SoldForKind(SoldFor);
    SoldForCountry(SoldFor);
    ThreeDigits(['2', '5', '0']);
    LongParse(SoldFor, 9, Parsed(250.0, SoldFor, Income, "sales", IN, 18.0));
  }

  // ---------------------------------------------------------------------
  // "Bought 2 kg oil"

  const TwoKilos := "Bought 2 kg oil"

  lemma TwoKilosTrimmed(s: string)
    requires s == TwoKilos
    ensures Trim(s) == s
  {
    assert LeadingSpaces(s) == 0 && TrailingSpaces(s) == 0;
  }

  lemma TwoKilosDigits(s: string)
    requires s == TwoKilos
    ensures FirstDigit(s, 0) == Some(7) && DigitRun(s, 7) == 1
  {
    assert forall k | 0 <= k < 7 :: !IsDigit(s[k]);
    assert forall k | 7 <= k < 8 :: IsDigit(s[k]);
    assert !IsDigit(s[8]);
  }

  lemma TwoKilosNumber(s: string)
    requires s == TwoKilos
    ensures s[7..8] == ['2']
  {
  }

  lemma TwoKilosAfter(s: string)
    requires s == TwoKilos
    ensures !GroupAt(s, 8) && !FractionAt(s, 8) && KiloAt(s, 8)
  {
    assert IsSpace(s[8]) && !IsSpace(s[9]);
    assert SpaceRun(s, 8) == 1;
  }

  lemma TwoKilosLower(s: string)
    requires s == TwoKilos
    ensures 'd' !in s && 'a' !in s && 'r' !in s && 'c' !in s
  {
  }

  lemma TwoKilosUpper(s: string)
    requires s == TwoKilos
    ensures 'D' !in s && 'A' !in s && 'R' !in s && 'C' !in s
  {
  }

  lemma TwoKilosKind(s: string)
    requires s == TwoKilos
    ensures !IsIncomeText(s) && IsExpenseText(s)
  {
    assert MatchesAt(s, 0, "bought");
    TwoKilosLower(s);
    TwoKilosUpper(s);
    NoIncomeWord(s);
  }

  lemma TwoKilosCountry(s: string)
    requires s == TwoKilos
    ensures InferCountry(s) == IN
  {
    NoSaudiHint(s);
  }

  /** The `k` suffix also fires on " kg": "Bought 2 kg oil" is an expense
      of 2000. */
  lemma BoughtTwoKilos()
    ensures ParseTransactionMessage(TwoKilos) == Some(Parsed(2000.0, TwoKilos, Expense, "purchases", IN, 0.0))
  {
    TwoKilosTrimmed(TwoKilos);
    TwoKilosDigits(TwoKilos);
    TwoKilosNumber(TwoKilos);
    TwoKilosAfter(TwoKilos);
    TwoKilosKind(TwoKilos);
    TwoKilosCountry(TwoKilos);
    assert DigitsValue(['2']) == 2;
    PlainParse(TwoKilos, 7, 1, Parsed(2000.0, TwoKilos, Expense, "purchases", IN, 0.0));
  }

  // ---------------------------------------------------------------------
  // "Sold 100 necessary items"

  const Necessary := "Sold 100 necessary items"

  lemma NecessaryTrimmed(s: string)
    requires s == Necessary
    ensures Trim(s) == s
  {
    assert LeadingSpaces(s) == 0 && TrailingSpaces(s) == 0;
  }

  lemma NecessaryDigits(s: string)
    requires s == Necessary
    ensures FirstDigit(s, 0) == Some(5) && DigitRun(s, 5) == 3
  {
    assert forall k | 0 <= k < 5 :: !IsDigit(s[k]);
    assert forall k | 5 <= k < 8 :: IsDigit(s[k]);
    assert !IsDigit(s[8]);
  }

  lemma NecessaryNumber(s: string)
    requires s == Necessary
    ensures s[5..8] == ['1', '0', '0']
  {
  }

  lemma NecessaryAfter(s: string)
    requires s == Necessary
    ensures !GroupAt(s, 8) && !FractionAt(s, 8) && !KiloAt(s, 8)
  {
    assert IsSpace(s[8]) && !IsSpace(s[9]);
    assert SpaceRun(s, 8) == 1;
  }

  lemma NecessaryKind(s: string)
    requires s == Necessary
    ensures IsIncomeText(s)
  {
    assert MatchesAt(s, 0, "sold");
  }

  lemma NecessaryCountry(s: string)
    requires s == Necessary
    ensures InferCountry(s) == SA
  {
    assert MatchesAt(s, 14, "sar");
  }

  /** "sar" inside an ordinary word selects Saudi Arabia and its 15% VAT:
      "Sold 100 necessary items" is an income of 100 in SA. */
  lemma NecessaryIsSaudi()
    ensures ParseTransactionMessage(Necessary) == Some(Parsed(100.0, Necessary, Income, "sales", SA, 15.0))
  {
    NecessaryTrimmed(Necessary);
    NecessaryDigits(Necessary);
    NecessaryNumber(Necessary);
    NecessaryAfter(Necessary);
    NecessaryKind(Necessary);
    NecessaryCountry(Necessary);
    ThreeDigits(['1', '0', '0']);
    PlainParse(Necessary, 5, 3, Parsed(100.0, Necessary, Income, "sales", SA, 15.0));
  }

  // ---------------------------------------------------------------------
  // "Received 2,500"

  const Received := "Received 2,500"

  lemma ReceivedTrimmed(s: string)
    requires s == Received
    ensures Trim(s) == s
  {
    assert LeadingSpaces(s) == 0 && TrailingSpaces(s) == 0;
  }

  lemma ReceivedDigits(s: string)
    requires s == Received
    ensures FirstDigit(s, 0) == Some(9) && DigitRun(s, 9) == 1
  {
    assert forall k | 0 <= k < 9 :: !IsDigit(s[k]);
    assert IsDigit(s[9]) && !IsDigit(s[10]);
  }

  lemma ReceivedNumber(s: string)
    requires s == Received
    ensures s[9..10] == ['2'] && s[11..14] == ['5', '0', '0']
  {
  }

  lemma ReceivedGroup(s: string)
    requires s == Received
    ensures GroupAt(s, 10) && !GroupAt(s, 14) && !FractionAt(s, 14) && !KiloAt(s, 14)
  {
    assert |s| == 14;
  }

  lemma ReceivedKind(s: string)
    requires s == Received
    ensures IsIncomeText(s)
  {
    assert MatchesAt(s, 0, "received");
  }

  lemma ReceivedCountry(s: string)
    requires s == Received
    ensures InferCountry(s) == IN
  {
    NoSaudiHint(s);
  }

  /** A thousands separator is dropped before the number is read:
      "Received 2,500" is an income of 2500. */
  lemma ReceivedTwoThousandFiveHundred()
    ensures ParseTransactionMessage(Received) == Some(Parsed(2500.0, Received, Income, "sales", IN, 18.0))
  {
    ReceivedTrimmed(Received);
    ReceivedDigits(Received);
    ReceivedNumber(Received);
    ReceivedGroup(Received);
    ReceivedKind(Received);
    ReceivedCountry(Received);
    ThreeDigits(['5', '0', '0']);
    assert DigitsValue(['2']) == 2;
    GroupedAmount(Received, 9, 1, 2500);
    ParsedAs(Received, Parsed(2500.0, Received, Income, "sales", IN, 18.0));
  }
}
