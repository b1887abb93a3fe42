/** `parseTransactionMessage` (src/convex/whatsapp.ts): a deterministic
    scanner that turns the text of a chat message into an income or expense
    entry. Each regular expression of the source is modelled by the match
    its backtracking engine actually returns, which is not always the match
    its author had in mind: the amount is read from the FIRST digit of the
    text, at most three digits are read before a thousands separator, and
    the `k` suffix also fires on " kg". */
module Parser {
  import opened Wrappers
  import opened Text
  import opened Schema

  const Rupee: char := '₹'
  const Rial: char := '﷼'

  /** A `\b` right after a word character at `e - 1`. */
  predicate WordEndsAt(s: string, e: int) {
    0 <= e <= |s| && (e == |s| || !IsWordChar(s[e]))
  }

  /** `/₹|inr|india| gst\b/i` */
  predicate HasIndiaHint(s: string) {
    || Rupee in s || ContainsCI(s, "inr") || ContainsCI(s, "india")
    || exists i | 0 <= i < |s| :: MatchesAt(s, i, " gst") && WordEndsAt(s, i + 4)
  }

  /** `/﷼|sar|saudi| vat\b/i`; "sar" also occurs inside ordinary words
      such as "necessary". */
  predicate HasSaudiHint(s: string) {
    || Rial in s || ContainsCI(s, "sar") || ContainsCI(s, "saudi")
    || exists i | 0 <= i < |s| :: MatchesAt(s, i, " vat") && WordEndsAt(s, i + 4)
  }

  /** A Saudi hint decides for SA; anything else, an Indian hint or none, is IN. */
  function InferCountry(s: string): (c: Country)
    ensures c == SA <==> HasSaudiHint(s)
  {
    if HasSaudiHint(s) then SA else if HasIndiaHint(s) then IN else IN
  }

  /** `/(sold|sale|received|income|paid to me)/i` */
  predicate IsIncomeText(s: string) {
    || ContainsCI(s, "sold") || ContainsCI(s, "sale") || ContainsCI(s, "received")
    || ContainsCI(s, "income") || ContainsCI(s, "paid to me")
  }

  /** `/paid\b(?! to me)/i` */
  predicate PaidNotToMe(s: string) {
    exists i | 0 <= i < |s| :: MatchesAt(s, i, "paid") && WordEndsAt(s, i + 4) && !MatchesAt(s, i + 4, " to me")
  }

  /** `/(bought|purchase|spent|expense|paid\b(?! to me))/i` */
  predicate IsExpenseText(s: string) {
    || ContainsCI(s, "bought") || ContainsCI(s, "purchase") || ContainsCI(s, "spent")
    || ContainsCI(s, "expense") || PaidNotToMe(s)
  }

  /** The `i` flag: the country hints and both classifiers decide the same
      for a text and for its lower-cased form. */
  lemma IgnoresCase(s: string)
    ensures HasIndiaHint(LowerAll(s)) == HasIndiaHint(s)
    ensures HasSaudiHint(LowerAll(s)) == HasSaudiHint(s)
    ensures IsIncomeText(LowerAll(s)) == IsIncomeText(s)
    ensures PaidNotToMe(LowerAll(s)) == PaidNotToMe(s)
    ensures IsExpenseText(LowerAll(s)) == IsExpenseText(s)
  {
    var l := LowerAll(s);
    assert Rupee in l <==> Rupee in s by {
      if Rupee in l {
        var k :| 0 <= k < |l| && l[k] == Rupee;
      }
      if Rupee in s {
        var k :| 0 <= k < |s| && s[k] == Rupee;
        assert l[k] == Rupee;
      }
    }
    assert Rial in l <==> Rial in s by {
      if Rial in l {
        var k :| 0 <= k < |l| && l[k] == Rial;
      }
      if Rial in s {
        var k :| 0 <= k < |s| && s[k] == Rial;
        assert l[k] == Rial;
      }
    }
    forall e ensures WordEndsAt(l, e) <==> WordEndsAt(s, e) {
    }
    forall i, w: string ensures MatchesAt(l, i, w) <==> MatchesAt(s, i, w) {
      MatchesLower(s, i, w);
    }
    forall w: string ensures ContainsCI(l, w) <==> ContainsCI(s, w) {
      ContainsLower(s, w);
    }
  }

  /** The suggested tax rate: 18% GST on Indian income, 15% VAT on Saudi
      income, none on expenses. */
  function DefaultTaxRate(c: Country, k: Kind): (rate: real)
    ensures k == Expense ==> rate == 0.0
    ensures k == Income && c == IN ==> rate == 18.0
    ensures k == Income && c == SA ==> rate == 15.0
  {
    match (c, k)
    case (_, Expense) => 0.0
    case (IN, Income) => 18.0
    case (SA, Income) => 15.0
  }

  // ---------------------------------------------------------------------
  // Character runs and number shapes

  /** The length of the run of digits starting at `i`. */
  function DigitRun(s: string, i: nat): (n: nat)
    requires i <= |s|
    ensures i + n <= |s|
    ensures forall k | i <= k < i + n :: IsDigit(s[k])
    ensures i + n < |s| ==> !IsDigit(s[i + n])
    decreases |s| - i
  {
    if i < |s| && IsDigit(s[i]) then 1 + DigitRun(s, i + 1) else 0
  }

  /** The length of the run of white space starting at `i`. */
  function SpaceRun(s: string, i: nat): (n: nat)
    requires i <= |s|
    ensures i + n <= |s|
    ensures forall k | i <= k < i + n :: IsSpace(s[k])
    ensures i + n < |s| ==> !IsSpace(s[i + n])
    decreases |s| - i
  {
    if i < |s| && IsSpace(s[i]) then 1 + SpaceRun(s, i + 1) else 0
  }

  /** The position of the first digit at or after `from`. */
  function FirstDigit(s: string, from: nat): (r: Option<nat>)
    requires from <= |s|
    ensures r.None? <==> forall k | from <= k < |s| :: !IsDigit(s[k])
    ensures r.Some? ==> from <= r.value < |s| && IsDigit(s[r.value])
    ensures r.Some? ==> forall k | from <= k < r.value :: !IsDigit(s[k])
    decreases |s| - from
  {
    if from == |s| then None
    else if IsDigit(s[from]) then Some(from)
    else FirstDigit(s, from + 1)
  }

  /** `,[0-9]{3}` at `p`. */
  predicate GroupAt(s: string, p: int) {
    0 <= p && p + 4 <= |s| && s[p] == ',' && IsDigit(s[p + 1]) && IsDigit(s[p + 2]) && IsDigit(s[p + 3])
  }

  /** `s[p..e]` is a (possibly empty) repetition of `,[0-9]{3}`. */
  predicate GroupsBetween(s: string, p: int, e: int)
    decreases |s| - p
  {
    0 <= p <= e <= |s| && (p == e || (GroupAt(s, p) && GroupsBetween(s, p + 4, e)))
  }

  /** The end of the greedy `(?:,[0-9]{3})*` starting at `p`. */
  function GroupsEnd(s: string, p: nat): (e: nat)
    requires p <= |s|
    ensures GroupsBetween(s, p, e)
    ensures !GroupAt(s, e)
    decreases |s| - p
  {
    if GroupAt(s, p) then GroupsEnd(s, p + 4) else p
  }

  /** `\.[0-9]` at `p`: a fraction can start here. */
  predicate FractionAt(s: string, p: int) {
    0 <= p && p + 1 < |s| && s[p] == '.' && IsDigit(s[p + 1])
  }

  /** The end of the greedy `(?:\.[0-9]+)?` starting at `p`. */
  function FractionEnd(s: string, p: nat): (e: nat)
    requires p <= |s|
    ensures p <= e <= |s|
    ensures !FractionAt(s, p) ==> e == p
    ensures FractionAt(s, p) ==> p + 2 <= e && forall k | p + 1 <= k < e :: IsDigit(s[k])
    ensures FractionAt(s, p) ==> e == |s| || !IsDigit(s[e])
  {
    if FractionAt(s, p) then p + 1 + DigitRun(s, p + 1) else p
  }

  /** `(\s*[kK])` at `p`. */
  predicate KiloAt(s: string, p: nat)
    requires p <= |s|
  {
    var q := p + SpaceRun(s, p);
    q < |s| && (s[q] == 'k' || s[q] == 'K')
  }

  // ---------------------------------------------------------------------
  // Numeric value of a matched number

  function DigitValue(c: char): nat {
    if IsDigit(c) then c as int - '0' as int else 0
  }

  /** The value of a string of decimal digits. */
  function DigitsValue(d: string): nat {
    if |d| == 0 then 0 else 10 * DigitsValue(d[..|d| - 1]) + DigitValue(d[|d| - 1])
  }

  function Pow10(n: nat): (p: nat)
    ensures p >= 1
  {
    if n == 0 then 1 else 10 * Pow10(n - 1)
  }

  /** `t.replace(/,/g, "")`. */
  function StripCommas(t: string): (r: string)
    ensures |r| <= |t|
    ensures ',' !in r
    ensures ',' !in t ==> r == t
  {
    if |t| == 0 then ""
    else StripCommas(t[..|t| - 1]) + (if t[|t| - 1] == ',' then "" else [t[|t| - 1]])
  }

  /** Removing commas keeps only characters of the input. */
  lemma {:induction false} StripCommasKeeps(t: string)
    ensures forall k | 0 <= k < |StripCommas(t)| :: StripCommas(t)[k] in t
    decreases |t|
  {
    if |t| > 0 {
      var init := t[..|t| - 1];
      var r := StripCommas(t);
      StripCommasKeeps(init);
      forall k | 0 <= k < |r| ensures r[k] in t {
        if k < |StripCommas(init)| {
          var c := StripCommas(init)[k];
          assert c in init;
          var i :| 0 <= i < |init| && init[i] == c;
          assert t[i] == c;
        } else {
          assert r[k] == t[|t| - 1];
        }
      }
    }
  }

  /** Dropping the commas of a concatenation drops them from each part. */
  lemma {:induction false} StripCommasAppend(a: string, b: string)
    ensures StripCommas(a + b) == StripCommas(a) + StripCommas(b)
    decreases |b|
  {
    if |b| == 0 {
      assert a + b == a;
    } else {
      assert (a + b)[..|a + b| - 1] == a + b[..|b| - 1];
      StripCommasAppend(a, b[..|b| - 1]);
    }
  }

  lemma ShiftTen(x: nat, p: nat)
    ensures x * (10 * p) == 10 * (x * p)
  {
  }

  /** Reading digits one after another: the value of `a + b` shifts `a`
      left by the length of `b`. */
  lemma {:induction false} DigitsAppend(a: string, b: string)
    ensures DigitsValue(a + b) == DigitsValue(a) * Pow10(|b|) + DigitsValue(b)
    decreases |b|
  {
    if |b| == 0 {
      assert a + b == a;
    } else {
      var init := b[..|b| - 1];
      var last := DigitValue(b[|b| - 1]);
      assert (a + b)[..|a + b| - 1] == a + init;
      assert (a + b)[|a + b| - 1] == b[|b| - 1];
      assert DigitsValue(a + b) == 10 * DigitsValue(a + init) + last;
      assert DigitsValue(b) == 10 * DigitsValue(init) + last;
      assert Pow10(|b|) == 10 * Pow10(|init|);
      DigitsAppend(a, init);
      ShiftTen(DigitsValue(a), Pow10(|init|));
    }
  }

  /** A matched number: `s[start..wholeEnd]` holds the integer digits and
      their thousands separators, `s[wholeEnd..end]` is empty or a `.`
      followed by the fraction digits. */
  datatype Span = Span(start: nat, wholeEnd: nat, end: nat)

  predicate SpanIn(s: string, sp: Span) {
    sp.start <= sp.wholeEnd <= sp.end <= |s|
  }

  /** `parseFloat` of the decimal `whole.frac`. */
  function DecimalValue(whole: string, frac: string): (v: real)
    ensures v >= 0.0
  {
    DigitsValue(whole) as real + DigitsValue(frac) as real / Pow10(|frac|) as real
  }

  /** The value of a matched number once its commas are dropped. */
  function SpanValue(s: string, sp: Span): (v: real)
    requires SpanIn(s, sp)
    ensures v >= 0.0
  {
    DecimalValue(StripCommas(s[sp.start..sp.wholeEnd]),
                 if sp.end > sp.wholeEnd then s[sp.wholeEnd + 1..sp.end] else "")
  }

  /** `x` is a whole number of cents. */
  predicate IsWholeCents(x: real) {
    (x * 100.0).Floor as real == x * 100.0
  }

  /** `Math.round(x * 100) / 100`: round half up to whole cents. */
  function RoundCents(x: real): (r: real)
    ensures IsWholeCents(r)
    ensures x * 100.0 - 0.5 < r * 100.0 <= x * 100.0 + 0.5
    ensures x >= 0.0 ==> r >= 0.0
  {
    ((x * 100.0 + 0.5).Floor as real) / 100.0
  }

  // ---------------------------------------------------------------------
  // The amount regular expression
  // /(?:₹|﷼|\bINR\b|\bSAR\b)?\s*([0-9]{1,3}(?:,[0-9]{3})*(?:\.[0-9]+)?|[0-9]+(?:\.[0-9]+)?)(\s*[kK])?/

  /** Group 1 of the amount match and whether group 2 (the `k`) took part. */
  datatype AmountMatch = AmountMatch(number: Span, lead: nat, kilo: bool)

  /** What the engine's first match is: the currency prefix and `\s*` only
      consume non-digits, so group 1 starts at the first digit of the text;
      everything after `[0-9]{1,3}` is optional, so the first alternative
      always succeeds and each quantifier keeps its greedy choice. */
  ghost predicate IsAmountMatch(s: string, m: AmountMatch) {
    && SpanIn(s, m.number) && m.number.start < m.lead <= m.number.wholeEnd
    && AtFirstDigit(s, m) && LeadDigits(s, m) && GreedyGroups(s, m) && GreedyFraction(s, m)
    && (m.kilo <==> KiloAt(s, m.number.end))
  }

  /** Group 1 begins at the first digit of the text. */
  ghost predicate AtFirstDigit(s: string, m: AmountMatch)
    requires SpanIn(s, m.number) && m.number.start < m.lead <= m.number.wholeEnd
  {
    IsDigit(s[m.number.start]) && forall k | 0 <= k < m.number.start :: !IsDigit(s[k])
  }

  /** `[0-9]{1,3}`: as many digits as there are, but at most three. */
  ghost predicate LeadDigits(s: string, m: AmountMatch)
    requires SpanIn(s, m.number) && m.number.start < m.lead <= m.number.wholeEnd
  {
    && m.lead - m.number.start <= 3 && (forall k | m.number.start <= k < m.lead :: IsDigit(s[k]))
    && (m.lead - m.number.start < 3 ==> m.lead == |s| || !IsDigit(s[m.lead]))
  }

  /** `(?:,[0-9]{3})*`: every complete group that follows. */
  ghost predicate GreedyGroups(s: string, m: AmountMatch)
    requires SpanIn(s, m.number)
  {
    GroupsBetween(s, m.lead, m.number.wholeEnd) && !GroupAt(s, m.number.wholeEnd)
  }

  /** `(?:\.[0-9]+)?`: the whole fraction if one follows. */
  ghost predicate GreedyFraction(s: string, m: AmountMatch)
    requires SpanIn(s, m.number)
  {
    var sp := m.number;
    && (sp.end == sp.wholeEnd <==> !FractionAt(s, sp.wholeEnd))
    && (sp.end > sp.wholeEnd ==> forall k | sp.wholeEnd + 1 <= k < sp.end :: IsDigit(s[k]))
    && (sp.end > sp.wholeEnd ==> sp.end == |s| || !IsDigit(s[sp.end]))
  }

  function MatchAmount(s: string): (r: Option<AmountMatch>)
    ensures r.None? <==> forall k | 0 <= k < |s| :: !IsDigit(s[k])
    ensures r.Some? ==> SpanIn(s, r.value.number)
    ensures r.Some? ==> IsAmountMatch(s, r.value)
  {
    match FirstDigit(s, 0)
    case None => None
    case Some(a) =>
      MatchFromSound(s, a);
      Some(MatchFrom(s, a))
  }

  /** The match from the first digit is the engine's match. */
  lemma MatchFromSound(s: string, a: nat)
    requires a < |s| && IsDigit(s[a]) && forall k | 0 <= k < a :: !IsDigit(s[k])
    ensures SpanIn(s, MatchFrom(s, a).number)
    ensures IsAmountMatch(s, MatchFrom(s, a))
  {
    var m := MatchFrom(s, a);
    MatchFromLead(s, a);
    assert AtFirstDigit(s, m);
    assert GreedyGroups(s, m);
    assert GreedyFraction(s, m);
  }

  lemma MatchFromLead(s: string, a: nat)
    requires a < |s| && IsDigit(s[a])
    ensures var m := MatchFrom(s, a);
            && SpanIn(s, m.number) && m.number.start < m.lead <= m.number.wholeEnd
            && LeadDigits(s, m)
  {
    var run := DigitRun(s, a);
    assert run >= 1;
  }

  /** The greedy match of group 1 and the `k` from the digit at `a`. */
  function MatchFrom(s: string, a: nat): (m: AmountMatch)
    requires a < |s|
    ensures m.number.start == a
    ensures m.lead == a + (if DigitRun(s, a) < 3 then DigitRun(s, a) else 3)
    ensures m.number.wholeEnd == GroupsEnd(s, m.lead)
    ensures m.number.end == FractionEnd(s, m.number.wholeEnd)
    ensures m.kilo == KiloAt(s, m.number.end)
  {
    var run := DigitRun(s, a);
    var lead := a + (if run < 3 then run else 3);
    var whole := GroupsEnd(s, lead);
    var end := FractionEnd(s, whole);
    AmountMatch(Span(a, whole, end), lead, KiloAt(s, end))
  }

  /** The unrounded amount: the number of group 1, times 1000 with a `k`. */
  function RawAmount(s: string, m: AmountMatch): (v: real)
    requires SpanIn(s, m.number)
    ensures m.kilo ==> v == 1000.0 * SpanValue(s, m.number)
    ensures !m.kilo ==> v == SpanValue(s, m.number)
    ensures v >= 0.0
  {
    (if m.kilo then 1000.0 else 1.0) * SpanValue(s, m.number)
  }

  /** `getAmount()`: null exactly when the text holds no ASCII digit;
      otherwise the matched amount rounded to whole cents. */
  function ExtractAmount(s: string): (r: Option<real>)
    ensures r.None? <==> forall k | 0 <= k < |s| :: !IsDigit(s[k])
    ensures r.Some? ==> MatchAmount(s).Some? && r.value >= 0.0
    ensures r.Some? ==> IsWholeCents(r.value)
    ensures r.Some? ==> var raw := RawAmount(s, MatchAmount(s).value);
                        raw * 100.0 - 0.5 < r.value * 100.0 <= raw * 100.0 + 0.5
  {
    var m := MatchAmount(s);
    if m.None? then None
    else
      var raw := RawAmount(s, m.value);
      var r := RoundCents(raw);
      assert raw >= 0.0 && r >= 0.0;
      Some(r)
  }

  // ---------------------------------------------------------------------
  // The fallback regular expressions
  // /sold.*?\b(\d+(?:,\d{3})*(?:\.\d+)?)\b/i and the same with "bought"

  /** A way for `\d+(?:,\d{3})*(?:\.\d+)?\b` to match at `q`: `d` digits,
      then complete `,ddd` groups up to `sp.wholeEnd`, then nothing or a
      dot and at least one digit up to `sp.end`, then a word boundary
      (the character before `sp.end` is always a digit). */
  ghost predicate NumberShape(s: string, q: nat, d: nat, sp: Span) {
    && sp.start == q && SpanIn(s, sp) && 1 <= d && q + d <= sp.wholeEnd
    && (forall k | q <= k < q + d :: IsDigit(s[k]))
    && GroupsBetween(s, q + d, sp.wholeEnd)
    && (sp.end > sp.wholeEnd ==>
          && sp.wholeEnd + 2 <= sp.end && s[sp.wholeEnd] == '.'
          && forall k | sp.wholeEnd + 1 <= k < sp.end :: IsDigit(s[k]))
    && WordEndsAt(s, sp.end)
  }

  /** `sp` comes no later than `best` in the order the backtracking engine
      tries the greedy choices: fewer groups first, then a shorter tail. */
  predicate NotAfter(sp: Span, best: Span) {
    sp.wholeEnd < best.wholeEnd || (sp.wholeEnd == best.wholeEnd && sp.end <= best.end)
  }

  /** Group 1 of a fallback pattern when it starts at the digit `q`. The
      engine tries `\d+`, the groups and the fraction greedily and
      backtracks until the closing `\b` holds, so the match is the shape
      it meets first: the one with the most digits, then the most groups,
      then the longest tail. `\d+` must take the whole digit run, and the
      first shape that ends at a word boundary is all complete groups with
      the fraction, then without it, then one group fewer (which ends
      before a `,`). */
  function FallbackNumber(s: string, q: nat): (r: Option<Span>)
    requires q < |s| && IsDigit(s[q])
    ensures r.Some? ==> r.value.start == q && SpanIn(s, r.value) && q < r.value.end
  {
    var run := q + DigitRun(s, q);
    var whole := GroupsEnd(s, run);
    var end := FractionEnd(s, whole);
    if end > whole && WordEndsAt(s, end) then Some(Span(q, whole, end))
    else if WordEndsAt(s, whole) then Some(Span(q, whole, whole))
    else if whole > run then Some(Span(q, whole - 4, whole - 4))
    else None
  }

  /** What FallbackNumber finds is a way the pattern can match at `q`,
      with `\d+` taking the whole digit run. */
  lemma FallbackNumberShape(s: string, q: nat)
    requires q < |s| && IsDigit(s[q])
    ensures var r := FallbackNumber(s, q);
            r.Some? ==> NumberShape(s, q, DigitRun(s, q), r.value)
  {
    var run := q + DigitRun(s, q);
    var whole := GroupsEnd(s, run);
    var end := FractionEnd(s, whole);
    var r := FallbackNumber(s, q);
    if end > whole && WordEndsAt(s, end) {
      assert r == Some(Span(q, whole, end));
    } else if WordEndsAt(s, whole) {
      assert r == Some(Span(q, whole, whole));
    } else if whole > run {
      GroupsTail(s, run, whole);
      assert r == Some(Span(q, whole - 4, whole - 4));
      assert s[whole - 4] == ',';
    }
  }

  /** FallbackNumber is the shape the engine meets first: every way the
      pattern can match at `q` takes the whole digit run and comes no later
      than it. */
  lemma FallbackNumberFirst(s: string, q: nat, d: nat, sp: Span)
    requires q < |s| && IsDigit(s[q]) && NumberShape(s, q, d, sp)
    ensures d == DigitRun(s, q)
    ensures FallbackNumber(s, q).Some? && NotAfter(sp, FallbackNumber(s, q).value)
  {
    ShapeBound(s, q, d, sp);
    var whole := GroupsEnd(s, q + d);
    GreedyNotAfter(s, q, sp, whole, FractionEnd(s, whole));
  }

  /** The case analysis behind FallbackNumberFirst, once the shape has been
      compared with the greedy groups and fraction. */
  lemma GreedyNotAfter(s: string, q: nat, sp: Span, whole: nat, end: nat)
    requires q < |s| && IsDigit(s[q])
    requires whole == GroupsEnd(s, q + DigitRun(s, q)) && end == FractionEnd(s, whole)
    requires q + DigitRun(s, q) <= sp.wholeEnd <= sp.end && WordEndsAt(s, sp.end)
    requires sp.wholeEnd <= whole
    requires sp.wholeEnd < whole ==> sp.wholeEnd + 4 <= whole && sp.end == sp.wholeEnd
    requires sp.wholeEnd == whole && sp.end > whole ==> sp.end == end
    ensures FallbackNumber(s, q).Some? && NotAfter(sp, FallbackNumber(s, q).value)
  {
    if !(end > whole && WordEndsAt(s, end)) && !WordEndsAt(s, whole) {
      assert sp.wholeEnd < whole;
    }
  }

  /** FallbackNumber finds nothing exactly when the pattern cannot match at
      `q` in any way. */
  lemma FallbackNumberNone(s: string, q: nat)
    requires q < |s| && IsDigit(s[q])
    ensures FallbackNumber(s, q).None? <==> forall d: nat, sp: Span :: !NumberShape(s, q, d, sp)
  {
    if FallbackNumber(s, q).Some? {
      FallbackNumberShape(s, q);
    } else {
      forall d: nat, sp: Span ensures !NumberShape(s, q, d, sp) {
        if NumberShape(s, q, d, sp) {
          FallbackNumberFirst(s, q, d, sp);
        }
      }
    }
  }

  /** Every shape at a digit takes the whole digit run; its groups end no
      later than the greedy groups, and a shorter set of groups ends before
      a `,` with no fraction; with all groups, its fraction is all of the
      digits after the dot. */
  lemma ShapeBound(s: string, q: nat, d: nat, sp: Span)
    requires q < |s| && IsDigit(s[q]) && NumberShape(s, q, d, sp)
    ensures d == DigitRun(s, q)
    ensures var whole := GroupsEnd(s, q + d);
            && sp.wholeEnd <= whole
            && (sp.wholeEnd < whole ==> sp.wholeEnd + 4 <= whole && sp.end == sp.wholeEnd)
            && (sp.wholeEnd == whole && sp.end > whole ==>
                  FractionAt(s, whole) && sp.end == FractionEnd(s, whole))
  {
    var whole := GroupsEnd(s, q + d);
    GroupsMax(s, q + d, sp.wholeEnd);
    if sp.wholeEnd < whole {
      GroupsCompare(s, q + d, sp.wholeEnd, whole);
    }
    if sp.wholeEnd == whole && sp.end > whole {
      var fe := FractionEnd(s, whole);
      assert FractionAt(s, whole);
    }
  }

  /** Of two runs of complete groups from the same place, the shorter one
      stops at a group of the longer one. */
  lemma {:induction false} GroupsCompare(s: string, p: nat, a: nat, b: nat)
    requires GroupsBetween(s, p, a) && GroupsBetween(s, p, b) && a < b
    ensures GroupAt(s, a) && a + 4 <= b
    decreases b - p
  {
    if p < a {
      GroupsCompare(s, p + 4, a, b);
    }
  }

  /** Complete groups never reach past the greedy groups. */
  lemma GroupsMax(s: string, p: nat, e: nat)
    requires GroupsBetween(s, p, e)
    ensures e <= GroupsEnd(s, p)
  {
    if e > GroupsEnd(s, p) {
      GroupsCompare(s, p, GroupsEnd(s, p), e);
    }
  }

  /** The last complete group ends in a digit, and so does the text before
      it when the groups follow a run of digits. */
  lemma {:induction false} GroupsTail(s: string, p: nat, e: nat)
    requires 0 < p <= |s| && IsDigit(s[p - 1]) && GroupsBetween(s, p, e)
    ensures IsDigit(s[e - 1])
    ensures e > p ==> GroupAt(s, e - 4) && GroupsBetween(s, p, e - 4) && IsDigit(s[e - 5])
    decreases e - p
  {
    if e > p + 4 {
      GroupsTail(s, p + 4, e);
    }
  }

  /** Where the line holding position `q` ends: `.` matches anything but
      a line terminator. */
  function LineEnd(s: string, q: nat): (e: nat)
    requires q <= |s|
    ensures q <= e <= |s|
    ensures forall k | q <= k < e :: !IsLineTerminator(s[k])
    ensures e < |s| ==> IsLineTerminator(s[e])
    decreases |s| - q
  {
    if q == |s| || IsLineTerminator(s[q]) then q else LineEnd(s, q + 1)
  }

  /** The first position from `q` to the end of its line where `starts`
      holds: how a lazy `.*?` followed by the rest of a pattern advances. */
  function FirstOnLine(s: string, q: nat, starts: int -> bool): (r: Option<nat>)
    requires q <= |s|
    ensures r.Some? ==> q <= r.value < LineEnd(s, q) && starts(r.value)
    ensures r.Some? ==> forall p | q <= p < r.value :: !starts(p)
    ensures r.None? <==> forall p | q <= p < LineEnd(s, q) :: !starts(p)
    decreases |s| - q
  {
    if q == |s| || IsLineTerminator(s[q]) then None
    else if starts(q) then Some(q)
    else
      FirstOnLine(s, q + 1, starts)
  }

  /** The first of the `count` positions from `from` on where `P` holds:
      how the engine tries successive start positions. */
  function FirstFrom(from: nat, count: nat, P: int -> bool): (r: Option<nat>)
    ensures r.Some? ==> from <= r.value < from + count && P(r.value)
    ensures r.Some? ==> forall j | from <= j < r.value :: !P(j)
    ensures r.None? <==> forall j | from <= j < from + count :: !P(j)
    decreases count
  {
    if count == 0 then None
    else if P(from) then Some(from)
    else
      FirstFrom(from + 1, count - 1, P)
  }

  /** A position where `P` holds, with none before it, is the one the
      search returns. */
  lemma FirstFromAt(from: nat, count: nat, P: int -> bool, i: nat)
    requires from <= i < from + count && P(i)
    requires forall j | from <= j < i :: !P(j)
    ensures FirstFrom(from, count, P) == Some(i)
  {
    var r := FirstFrom(from, count, P);
    assert r.Some? && r.value <= i;
  }

  /** `\b(\d+(?:,\d{3})*(?:\.\d+)?)\b` can match at `p`: a digit after a
      non-word character where the number completes. */
  predicate NumberStartsAt(s: string, p: int) {
    1 <= p < |s| && IsDigit(s[p]) && !IsWordChar(s[p - 1]) && FallbackNumber(s, p).Some?
  }

  function NumberStarts(s: string): int -> bool {
    p => NumberStartsAt(s, p)
  }

  /** The lazy `.*?\b` after a keyword ending at `q`: `.` cannot cross a
      line terminator, so the candidates are the positions up to the end of
      the line, and the engine takes the first where the number matches. */
  function FallbackNumberFrom(s: string, q: nat): (r: Option<Span>)
    requires 1 <= q <= |s|
    ensures r.Some? ==> q <= r.value.start < |s| && IsDigit(s[r.value.start])
    ensures r.Some? ==> SpanIn(s, r.value) && r.value.start < r.value.end
  {
    match FirstOnLine(s, q, NumberStarts(s))
    case None => None
    case Some(p) =>
      assert NumberStartsAt(s, p);
      FallbackNumber(s, p)
  }

  /** The number the lazy scan settles on starts at the first position of
      the line where the number can match, and there is none exactly when
      no position of the line is such a start. */
  lemma FirstNumberOnLine(s: string, q: nat)
    requires 1 <= q <= |s|
    ensures var r := FallbackNumberFrom(s, q);
      r.Some? ==> var p := r.value.start;
        && p < LineEnd(s, q) && NumberStartsAt(s, p) && FallbackNumber(s, p) == Some(r.value)
        && forall p' | q <= p' < p :: !NumberStartsAt(s, p')
    ensures FallbackNumberFrom(s, q).None? <==> forall p | q <= p < LineEnd(s, q) :: !NumberStartsAt(s, p)
  {
    var starts := NumberStarts(s);
    var o := FirstOnLine(s, q, starts);
    forall p ensures starts(p) == NumberStartsAt(s, p) { }
    if o.Some? {
      assert NumberStartsAt(s, o.value);
      assert FallbackNumberFrom(s, q) == FallbackNumber(s, o.value);
    }
  }

  /** `w.*?\b(…)\b` can match with the keyword at `i`. */
  predicate KeywordThenNumber(s: string, w: string, i: int) {
    |w| > 0 && MatchesAt(s, i, w) && FallbackNumberFrom(s, i + |w|).Some?
  }

  function KeywordFollowed(s: string, w: string): int -> bool {
    i => KeywordThenNumber(s, w, i)
  }

  /** The number after the first occurrence of the keyword `w` (at or after
      `from`) from which the rest of the fallback pattern matches; there is
      none exactly when no occurrence is followed by a number on its line. */
  function FallbackMatch(s: string, w: string, from: nat): (r: Option<Span>)
    requires |w| > 0
    ensures r.Some? ==> SpanIn(s, r.value) && r.value.start < r.value.end && IsDigit(s[r.value.start])
    ensures r.Some? ==> exists i | from <= i :: MatchesAt(s, i, w) && i + |w| <= r.value.start
    ensures r.None? <==> forall i | from <= i :: !KeywordThenNumber(s, w, i)
  {
    var found := KeywordFollowed(s, w);
    var room := KeywordRoom(s, w, from);
    assert forall i :: found(i) == KeywordThenNumber(s, w, i);
    match FirstFrom(from, room, found)
    case None => None
    case Some(i) =>
      assert KeywordThenNumber(s, w, i);
      FallbackNumberFrom(s, i + |w|)
  }

  /** How many start positions from `from` on leave room for `w`. */
  function KeywordRoom(s: string, w: string, from: nat): (n: nat)
    ensures forall i | from + n <= i :: !MatchesAt(s, i, w)
  {
    if from + |w| <= |s| then |s| - |w| + 1 - from else 0
  }

  /** When the occurrence of the keyword at `i` is the first one (at or
      after `from`) that a number follows on its line, the fallback settles
      on that number. */
  lemma FirstKeywordMatch(s: string, w: string, from: nat, i: nat)
    requires |w| > 0 && from <= i && KeywordThenNumber(s, w, i)
    requires forall j | from <= j < i :: !KeywordThenNumber(s, w, j)
    ensures i + |w| <= |s| && FallbackMatch(s, w, from) == FallbackNumberFrom(s, i + |w|)
  {
    var found := KeywordFollowed(s, w);
    var room := KeywordRoom(s, w, from);
    assert found(i) && i < from + room;
    forall j | from <= j < i ensures !found(j) { }
    FirstFromAt(from, room, found, i);
  }

  // ---------------------------------------------------------------------
  // The parse

  datatype Parsed = Parsed(
    amount: real,
    description: string,
    kind: Kind,
    category: string,
    country: Country,
    taxRate: real)

  /** The entry built once an amount and a classification are known. */
  function Classified(t: string, amount: real, income: bool): (p: Parsed)
    ensures p.amount == amount && p.description == t
    ensures p.kind == Income <==> income
    ensures p.category == (if income then "sales" else "purchases")
    ensures p.country == InferCountry(t)
    ensures p.taxRate == DefaultTaxRate(p.country, p.kind)
  {
    var kind := if income then Income else Expense;
    var country := InferCountry(t);
    Parsed(amount, t, kind, if income then "sales" else "purchases", country, DefaultTaxRate(country, kind))
  }

  /** The primary path: a non-zero amount and at least one keyword. */
  predicate PrimaryApplies(t: string) {
    ExtractAmount(t).Some? && ExtractAmount(t).value != 0.0 && (IsIncomeText(t) || IsExpenseText(t))
  }

  /** `parseTransactionMessage(message)`. */
  function ParseTransactionMessage(message: string): (r: Option<Parsed>)
    ensures r.Some? ==> r.value.description == Trim(message)
    ensures r.Some? ==> r.value.amount >= 0.0
    ensures r.Some? ==> r.value.category == (if r.value.kind == Income then "sales" else "purchases")
    ensures r.Some? ==> (r.value.country == SA <==> HasSaudiHint(Trim(message)))
    ensures r.Some? ==> r.value.taxRate == DefaultTaxRate(r.value.country, r.value.kind)
    ensures r.Some? ==> IsIncomeText(Trim(message)) || IsExpenseText(Trim(message))
    ensures (forall k | 0 <= k < |Trim(message)| :: !IsDigit(Trim(message)[k])) ==> r.None?
  {
    var t := Trim(message);
    if PrimaryApplies(t) then
      Some(Classified(t, ExtractAmount(t).value, IsIncomeText(t)))
    else match FallbackMatch(t, "sold", 0)
      case Some(sp) =>
        Some(Classified(t, SpanValue(t, sp), ContainsCI(t, "sold")))
      case None =>
        match FallbackMatch(t, "bought", 0)
        case Some(sp) => Some(Classified(t, SpanValue(t, sp), ContainsCI(t, "sold")))
        case None => None
  }

  // ---------------------------------------------------------------------
  // Properties of the parse

  /** A whole number is already a whole number of cents. */
  lemma RoundWhole(n: nat)
    ensures RoundCents(n as real) == n as real
  {
    assert (n as real * 100.0 + 0.5).Floor == n * 100;
  }

  /** Removing separators from a string without any leaves it unchanged, so
      a number without groups is read digit for digit. */
  lemma DigitsSpanValue(s: string, a: nat, e: nat)
    requires a <= e <= |s|
    requires forall k | a <= k < e :: IsDigit(s[k])
    ensures SpanValue(s, Span(a, e, e)) == DigitsValue(s[a..e]) as real
  {
    var t := s[a..e];
    NoCommaInDigits(s, a, e);
    assert StripCommas(t) == t;
    DecimalWhole(t);
  }

  lemma NoCommaInDigits(s: string, a: nat, e: nat)
    requires a <= e <= |s|
    requires forall k | a <= k < e :: IsDigit(s[k])
    ensures ',' !in s[a..e]
  {
    forall k | 0 <= k < e - a ensures s[a..e][k] != ',' {
      assert IsDigit(s[a + k]);
    }
  }

  /** A number with one thousands group, such as "2,500", reads as a
      thousand times its leading digits plus the group. */
  lemma GroupedSpanValue(s: string, a: nat, m: nat, v: nat)
    requires a < m && m + 4 <= |s| && GroupAt(s, m)
    requires forall k | a <= k < m :: IsDigit(s[k])
    requires v == 1000 * DigitsValue(s[a..m]) + DigitsValue(s[m + 1..m + 4])
    ensures SpanValue(s, Span(a, m + 4, m + 4)) == v as real
  {
    GroupedDigits(s, a, m);
    WholeSpanValue(s, Span(a, m + 4, m + 4));
    ThousandsValue(s[a..m], s[m + 1..m + 4]);
  }

  /** Three digits appended to a number add a thousand times it. */
  lemma ThousandsValue(lead: string, group: string)
    requires |group| == 3
    ensures DigitsValue(lead + group) == 1000 * DigitsValue(lead) + DigitsValue(group)
  {
    assert Pow10(1) == 10 && Pow10(2) == 100 && Pow10(3) == 1000;
    DigitsAppend(lead, group);
  }

  /** A matched number without a fraction is the value of its digits. */
  lemma WholeSpanValue(s: string, sp: Span)
    requires SpanIn(s, sp) && sp.end == sp.wholeEnd
    ensures SpanValue(s, sp) == DigitsValue(StripCommas(s[sp.start..sp.wholeEnd])) as real
  {
    DecimalWhole(StripCommas(s[sp.start..sp.wholeEnd]));
  }

  /** The digits of a number with one thousands group, once its comma is
      dropped. */
  lemma GroupedDigits(s: string, a: nat, m: nat)
    requires a < m && m + 4 <= |s| && GroupAt(s, m)
    requires forall k | a <= k < m :: IsDigit(s[k])
    ensures StripCommas(s[a..m + 4]) == s[a..m] + s[m + 1..m + 4]
  {
    var lead := s[a..m];
    var group := s[m + 1..m + 4];
    assert s[a..m + 4] == lead + ([','] + group);
    NoCommaInDigits(s, a, m);
    NoCommaInDigits(s, m + 1, m + 4);
    calc {
      StripCommas(lead + ([','] + group));
      { StripCommasAppend(lead, [','] + group); }
      StripCommas(lead) + StripCommas([','] + group);
      { StripCommasAppend([','], group); }
      StripCommas(lead) + (StripCommas([',']) + StripCommas(group));
      lead + ("" + group);
    }
  }

  /** A decimal without a fraction is its integer part. */
  lemma DecimalWhole(t: string)
    ensures DecimalValue(t, "") == DigitsValue(t) as real
  {
    assert DigitsValue("") == 0 && Pow10(0) == 1;
  }

  /** The match of a run that is followed by neither a thousands group nor
      a fraction. */
  lemma PlainRunMatch(s: string, a: nat, n: nat)
    requires FirstDigit(s, 0) == Some(a)
    requires n == (if DigitRun(s, a) < 3 then DigitRun(s, a) else 3)
    requires !GroupAt(s, a + n) && !FractionAt(s, a + n)
    ensures a + n <= |s|
    ensures MatchAmount(s) == Some(AmountMatch(Span(a, a + n, a + n), a + n, KiloAt(s, a + n)))
  {
    MatchFromPlain(s, a, n);
    MatchAmountAt(s, a);
  }

  lemma MatchFromPlain(s: string, a: nat, n: nat)
    requires a < |s| && n == (if DigitRun(s, a) < 3 then DigitRun(s, a) else 3)
    requires !GroupAt(s, a + n) && !FractionAt(s, a + n)
    ensures MatchFrom(s, a) == AmountMatch(Span(a, a + n, a + n), a + n, KiloAt(s, a + n))
  {
    var m := MatchFrom(s, a);
    NoGroups(s, m.lead);
    NoFraction(s, m.lead);
  }

  lemma MatchAmountAt(s: string, a: nat)
    requires FirstDigit(s, 0) == Some(a)
    ensures a < |s| && MatchAmount(s) == Some(MatchFrom(s, a))
  {
  }

  /** Without a group at `p` the groups end where they start. */
  lemma NoGroups(s: string, p: nat)
    requires p <= |s| && !GroupAt(s, p)
    ensures GroupsEnd(s, p) == p
  {
  }

  /** When the digits read by `[0-9]{1,3}` are followed by neither a
      thousands group nor a fraction, the amount is those (at most three)
      digits, times 1000 when a `k` follows after optional white space. */
  lemma PlainRunAmount(s: string, a: nat, n: nat)
    requires FirstDigit(s, 0) == Some(a)
    requires n == (if DigitRun(s, a) < 3 then DigitRun(s, a) else 3)
    requires !GroupAt(s, a + n) && !FractionAt(s, a + n)
    ensures a + n <= |s|
    ensures !KiloAt(s, a + n) ==> ExtractAmount(s) == Some(DigitsValue(s[a..a + n]) as real)
    ensures KiloAt(s, a + n) ==> ExtractAmount(s) == Some((1000 * DigitsValue(s[a..a + n])) as real)
  {
    PlainRunMatch(s, a, n);
    var d := DigitsValue(s[a..a + n]);
    PlainRunScaled(s, a, n, d, if KiloAt(s, a + n) then 1000 * d else d);
  }

  /** The plain run read as `d`, scaled by the suffix into `w`. */
  lemma PlainRunScaled(s: string, a: nat, n: nat, d: nat, w: nat)
    requires a + n <= |s| && d == DigitsValue(s[a..a + n])
    requires forall k | a <= k < a + n :: IsDigit(s[k])
    requires MatchAmount(s) == Some(AmountMatch(Span(a, a + n, a + n), a + n, KiloAt(s, a + n)))
    requires w == (if KiloAt(s, a + n) then 1000 else 1) * d
    ensures ExtractAmount(s) == Some(w as real)
  {
    DigitsSpanValue(s, a, a + n);
    ScaledAmount(s, AmountMatch(Span(a, a + n, a + n), a + n, KiloAt(s, a + n)), d, w);
  }

  /** The unrounded amount of a whole-number match. */
  lemma RawOfWhole(s: string, m: AmountMatch, d: nat)
    requires SpanIn(s, m.number) && SpanValue(s, m.number) == d as real
    ensures RawAmount(s, m) == ((if m.kilo then 1000 else 1) * d) as real
  {
  }

  /** A match whose value is a whole number yields that number unchanged. */
  lemma WholeAmount(s: string, m: AmountMatch, w: nat)
    requires MatchAmount(s) == Some(m) && SpanIn(s, m.number)
    requires RawAmount(s, m) == w as real
    ensures ExtractAmount(s) == Some(w as real)
  {
    RoundWhole(w);
  }

  /** A first number of one to three digits followed by exactly one
      thousands group, such as "2,500", is read with its separator dropped:
      a thousand times the leading digits plus the group. */
  lemma GroupedAmount(s: string, a: nat, n: nat, v: nat)
    requires FirstDigit(s, 0) == Some(a)
    requires n == DigitRun(s, a) && n <= 3
    requires GroupAt(s, a + n) && !GroupAt(s, a + n + 4)
    requires !FractionAt(s, a + n + 4) && !KiloAt(s, a + n + 4)
    requires v == 1000 * DigitsValue(s[a..a + n]) + DigitsValue(s[a + n + 1..a + n + 4])
    ensures ExtractAmount(s) == Some(v as real)
  {
    var m := AmountMatch(Span(a, a + n + 4, a + n + 4), a + n, false);
    GroupedMatch(s, a, n);
    GroupedSpanValue(s, a, a + n, v);
    ScaledAmount(s, m, v, v);
  }

  lemma GroupedMatch(s: string, a: nat, n: nat)
    requires FirstDigit(s, 0) == Some(a)
    requires n == DigitRun(s, a) && n <= 3
    requires GroupAt(s, a + n) && !GroupAt(s, a + n + 4)
    requires !FractionAt(s, a + n + 4) && !KiloAt(s, a + n + 4)
    ensures MatchAmount(s) == Some(AmountMatch(Span(a, a + n + 4, a + n + 4), a + n, false))
  {
    MatchAmountAt(s, a);
    MatchFromGrouped(s, a, n);
  }

  /** A match whose number is a whole number yields it, times 1000 with
      the `k` suffix. */
  lemma ScaledAmount(s: string, m: AmountMatch, d: nat, w: nat)
    requires MatchAmount(s) == Some(m) && SpanIn(s, m.number)
    requires SpanValue(s, m.number) == d as real
    requires w == (if m.kilo then 1000 else 1) * d
    ensures ExtractAmount(s) == Some(w as real)
  {
    RawOfWhole(s, m, d);
    WholeAmount(s, m, w);
  }

  lemma MatchFromGrouped(s: string, a: nat, n: nat)
    requires a < |s| && n == DigitRun(s, a) && n <= 3
    requires GroupAt(s, a + n) && !GroupAt(s, a + n + 4)
    requires !FractionAt(s, a + n + 4) && !KiloAt(s, a + n + 4)
    ensures MatchFrom(s, a) == AmountMatch(Span(a, a + n + 4, a + n + 4), a + n, false)
  {
    OneGroup(s, a + n);
    NoFraction(s, a + n + 4);
  }

  /** Without a fraction at `p` the fraction ends where it starts. */
  lemma NoFraction(s: string, p: nat)
    requires p <= |s| && !FractionAt(s, p)
    ensures FractionEnd(s, p) == p
  {
  }

  /** A single thousands group ends four characters on. */
  lemma OneGroup(s: string, p: nat)
    requires GroupAt(s, p) && !GroupAt(s, p + 4)
    ensures GroupsEnd(s, p) == p + 4
  {
    NoGroups(s, p + 4);
  }

  /** A run of four or more digits without separators contributes only its
      first three: "2500" is read as 250. */
  lemma LongRunReadsThreeDigits(s: string, a: nat)
    requires FirstDigit(s, 0) == Some(a)
    requires DigitRun(s, a) >= 4
    ensures ExtractAmount(s) == Some(DigitsValue(s[a..a + 3]) as real)
  {
    DigitEndsNothing(s, a + 3);
    PlainRunAmount(s, a, 3);
  }

  /** A digit at `p` starts no group, fraction or `k`. */
  lemma DigitEndsNothing(s: string, p: nat)
    requires p < |s| && IsDigit(s[p])
    ensures !GroupAt(s, p) && !FractionAt(s, p) && !KiloAt(s, p)
  {
    assert SpaceRun(s, p) == 0;
  }

  /** The primary path: the rounded amount, income whenever an income
      keyword occurs (even if an expense keyword occurs too), the trimmed
      text as description. */
  lemma PrimaryParse(message: string)
    requires PrimaryApplies(Trim(message))
    ensures var t := Trim(message);
            var r := ParseTransactionMessage(message);
            && r.Some? && r.value.amount == ExtractAmount(t).value && r.value.amount > 0.0
            && r.value.description == t
            && (r.value.kind == Income <==> IsIncomeText(t))
            && (r.value.category == "sales" <==> IsIncomeText(t))
  {
  }

  /** The fallback path: it is tried only when the primary path fails, it
      can succeed only when the first number of the text rounds to 0 (any
      text containing "sold" or "bought" already has a keyword), it yields
      the unrounded number after the first usable keyword, and the entry is
      income exactly when "sold" occurs. */
  lemma FallbackParse(message: string)
    requires !PrimaryApplies(Trim(message))
    ensures var t := Trim(message);
            var r := ParseTransactionMessage(message);
            && (r.Some? <==> FallbackMatch(t, "sold", 0).Some? || FallbackMatch(t, "bought", 0).Some?)
            && (r.Some? ==> ExtractAmount(t) == Some(0.0))
            && (r.Some? ==> (r.value.kind == Income <==> ContainsCI(t, "sold")))
            && (FallbackMatch(t, "sold", 0).Some? ==>
                  r == Some(Classified(t, SpanValue(t, FallbackMatch(t, "sold", 0).value), true)))
            && (FallbackMatch(t, "sold", 0).None? && FallbackMatch(t, "bought", 0).Some? ==>
                  r == Some(Classified(t, SpanValue(t, FallbackMatch(t, "bought", 0).value), ContainsCI(t, "sold"))))
  {
    var t := Trim(message);
    var r := ParseTransactionMessage(message);
    if FallbackMatch(t, "sold", 0).Some? {
      var sp := FallbackMatch(t, "sold", 0).value;
      var i :| 0 <= i && MatchesAt(t, i, "sold") && i + 4 <= sp.start;
      assert ContainsCI(t, "sold");
      assert IsIncomeText(t);
    } else if FallbackMatch(t, "bought", 0).Some? {
      var sp := FallbackMatch(t, "bought", 0).value;
      var i :| 0 <= i && MatchesAt(t, i, "bought") && i + 6 <= sp.start;
      assert ContainsCI(t, "bought");
      assert IsExpenseText(t);
    }
  }
}
