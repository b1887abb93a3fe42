/** Ledger arithmetic shared by the WhatsApp and dashboard paths: the tax and
    net amounts every inserted entry carries, filtering of the
    transactions table, and the sums the balance and tax summaries report. */
module Ledger {
  import opened Wrappers
  import opened Schema

  /** The fields a caller supplies for a new entry. */
  datatype Entry = Entry(
    amount: real,
    description: string,
    kind: Kind,
    category: string,
    country: Country,
    taxRate: Option<real>)

  /** Tax due on `amount`: a rate that is absent or zero (falsy) means none. */
  function TaxAmount(amount: real, taxRate: Option<real>): (t: real)
    ensures taxRate.None? || taxRate.value == 0.0 ==> t == 0.0
    ensures taxRate.Some? && taxRate.value != 0.0 ==> t * 100.0 == amount * taxRate.value
    ensures amount >= 0.0 && (taxRate.None? || 0.0 <= taxRate.value <= 100.0) ==> 0.0 <= t <= amount
  {
    if taxRate.Some? && taxRate.value != 0.0 then
      var rate := taxRate.value;
      assert amount >= 0.0 && 0.0 <= rate <= 100.0 ==> amount * rate <= amount * 100.0;
      amount * rate / 100.0
    else 0.0
  }

  /** Income is stored net of tax; an expense keeps its full amount. */
  function NetAmount(kind: Kind, amount: real, tax: real): (n: real)
    ensures kind == Income ==> n + tax == amount
    ensures kind == Expense ==> n == amount
    ensures 0.0 <= tax <= amount ==> 0.0 <= n <= amount
  {
    if kind == Income then amount - tax else amount
  }

  /** The invariant every entry the application inserts satisfies. */
  predicate TaxConsistent(r: Row) {
    && r.taxAmount == Some(TaxAmount(r.amount, r.taxRate))
    && r.netAmount == NetAmount(r.kind, r.amount, TaxAmount(r.amount, r.taxRate))
  }

  predicate AllTaxConsistent(rows: seq<Row>) {
    forall k | 0 <= k < |rows| :: TaxConsistent(rows[k])
  }

  /** The document an insert stores: the caller's fields, the owner, and the
      computed tax and net amounts. */
  function NewRow(id: RowId, now: real, owner: Option<UserId>, e: Entry,
                  receiptUrl: Option<string>, messageId: Option<string>,
                  phone: Option<string>): (r: Row)
    ensures TaxConsistent(r)
    ensures r.id == id && r.creationTime == now && r.userId == owner
    ensures r.amount == e.amount && r.description == e.description && r.kind == e.kind
    ensures r.category == e.category && r.country == e.country && r.taxRate == e.taxRate
    ensures r.receiptUrl == receiptUrl && r.whatsappMessageId == messageId && r.phoneNumber == phone
    ensures r.taxAmount.Some?
    ensures e.taxRate.Some? && e.taxRate.value != 0.0 ==> r.taxAmount.value * 100.0 == e.amount * e.taxRate.value
    ensures e.taxRate.None? || e.taxRate.value == 0.0 ==> r.taxAmount.value == 0.0
    ensures e.kind == Income ==> r.netAmount + r.taxAmount.value == e.amount
    ensures e.kind == Expense ==> r.netAmount == e.amount
  {
    var tax := TaxAmount(e.amount, e.taxRate);
    Row(id, now, owner, e.amount, e.description, e.kind, e.category, e.taxRate,
        Some(tax), NetAmount(e.kind, e.amount, tax), e.country, receiptUrl, messageId, phone)
  }

  /** Appending an entry that satisfies the invariant preserves it. */
  lemma AppendPreservesTaxConsistency(rows: seq<Row>, r: Row)
    requires AllTaxConsistent(rows) && TaxConsistent(r)
    ensures AllTaxConsistent(rows + [r])
  {
    forall k | 0 <= k < |rows + [r]|
      ensures TaxConsistent((rows + [r])[k])
    {
      if k < |rows| { assert (rows + [r])[k] == rows[k]; }
    }
  }

  /** The rows of `s` that `keep` accepts, in their original order. */
  function Filter<T>(s: seq<T>, keep: T -> bool): (r: seq<T>)
    ensures |r| <= |s|
    ensures forall k | 0 <= k < |r| :: keep(r[k]) && r[k] in s
    ensures forall k | 0 <= k < |s| && keep(s[k]) :: s[k] in r
  {
    if |s| == 0 then []
    else Filter(s[..|s| - 1], keep) + (if keep(s[|s| - 1]) then [s[|s| - 1]] else [])
  }

  /** Filtering distributes over concatenation. */
  lemma {:induction false} FilterAppend<T>(a: seq<T>, b: seq<T>, keep: T -> bool)
    ensures Filter(a + b, keep) == Filter(a, keep) + Filter(b, keep)
    decreases |b|
  {
    if |b| == 0 {
      assert a + b == a;
    } else {
      var b' := b[..|b| - 1];
      assert (a + b)[..|a + b| - 1] == a + b';
      FilterAppend(a, b', keep);
    }
  }

  /** A filter that accepts every element keeps the sequence unchanged. */
  lemma {:induction false} FilterAll<T>(s: seq<T>, keep: T -> bool)
    requires forall k | 0 <= k < |s| :: keep(s[k])
    ensures Filter(s, keep) == s
    decreases |s|
  {
    if |s| > 0 {
      FilterAll(s[..|s| - 1], keep);
    }
  }

  /** A filter that accepts no element yields nothing. */
  lemma {:induction false} FilterNone<T>(s: seq<T>, keep: T -> bool)
    requires forall k | 0 <= k < |s| :: !keep(s[k])
    ensures Filter(s, keep) == []
    decreases |s|
  {
    if |s| > 0 {
      FilterNone(s[..|s| - 1], keep);
    }
  }

  predicate HasPhone(r: Row, phone: string) {
    r.phoneNumber == Some(phone)
  }

  /** The rows the `by_phone` index yields for `phone`. */
  function ByPhone(rows: seq<Row>, phone: string): seq<Row> {
    Filter(rows, (r: Row) => HasPhone(r, phone))
  }

  predicate IsIncome(r: Row) {
    r.kind == Income
  }

  predicate IsExpense(r: Row) {
    r.kind == Expense
  }

  /** The sum of the amounts, folded from the left. */
  function SumAmounts(rows: seq<Row>): real {
    if |rows| == 0 then 0.0 else SumAmounts(rows[..|rows| - 1]) + rows[|rows| - 1].amount
  }

  /** The sum of the tax amounts, an absent one counting as 0. */
  function SumTax(rows: seq<Row>): real {
    if |rows| == 0 then 0.0 else SumTax(rows[..|rows| - 1]) + rows[|rows| - 1].taxAmount.GetOr(0.0)
  }

  lemma {:induction false} SumAmountsAppend(a: seq<Row>, b: seq<Row>)
    ensures SumAmounts(a + b) == SumAmounts(a) + SumAmounts(b)
    decreases |b|
  {
    if |b| == 0 {
      assert a + b == a;
    } else {
      assert (a + b)[..|a + b| - 1] == a + b[..|b| - 1];
      SumAmountsAppend(a, b[..|b| - 1]);
    }
  }

  lemma {:induction false} SumTaxAppend(a: seq<Row>, b: seq<Row>)
    ensures SumTax(a + b) == SumTax(a) + SumTax(b)
    decreases |b|
  {
    if |b| == 0 {
      assert a + b == a;
    } else {
      assert (a + b)[..|a + b| - 1] == a + b[..|b| - 1];
      SumTaxAppend(a, b[..|b| - 1]);
    }
  }

  /** The aggregates both summaries report. */
  datatype Totals = Totals(income: real, expenses: real, tax: real, count: nat) {
    function Plus(other: Totals): Totals {
      Totals(income + other.income, expenses + other.expenses, tax + other.tax, count + other.count)
    }
  }

  /** Income amounts, expense amounts, tax (absent counted as 0) and the
      number of rows. */
  function Tally(rows: seq<Row>): Totals {
    Totals(SumAmounts(Filter(rows, IsIncome)), SumAmounts(Filter(rows, IsExpense)), SumTax(rows), |rows|)
  }

  /** What a single row adds to the totals. */
  function Contribution(r: Row): Totals {
    Totals(if r.kind == Income then r.amount else 0.0,
           if r.kind == Expense then r.amount else 0.0,
           r.taxAmount.GetOr(0.0), 1)
  }

  /** The totals of a concatenation are the sum of the totals. */
  lemma TallyAppend(a: seq<Row>, b: seq<Row>)
    ensures Tally(a + b) == Tally(a).Plus(Tally(b))
  {
    TallyAppendFields(a, b);
    TotalsSum(Tally(a + b), Tally(a), Tally(b));
  }

  lemma TallyAppendFields(a: seq<Row>, b: seq<Row>)
    ensures Tally(a + b).count == Tally(a).count + Tally(b).count
    ensures Tally(a + b).income == Tally(a).income + Tally(b).income
    ensures Tally(a + b).expenses == Tally(a).expenses + Tally(b).expenses
    ensures Tally(a + b).tax == Tally(a).tax + Tally(b).tax
  {
    SumFilterAppend(a, b, IsIncome);
    SumFilterAppend(a, b, IsExpense);
    SumTaxAppend(a, b);
  }

  lemma TotalsSum(x: Totals, y: Totals, z: Totals)
    requires x.income == y.income + z.income && x.expenses == y.expenses + z.expenses
    requires x.tax == y.tax + z.tax && x.count == y.count + z.count
    ensures x == y.Plus(z)
  {
  }

  lemma SumFilterAppend(a: seq<Row>, b: seq<Row>, keep: Row -> bool)
    ensures SumAmounts(Filter(a + b, keep)) == SumAmounts(Filter(a, keep)) + SumAmounts(Filter(b, keep))
  {
    FilterAppend(a, b, keep);
    SumAmountsAppend(Filter(a, keep), Filter(b, keep));
  }

  /** Appending one row adds exactly its contribution. */
  lemma TallySnoc(rows: seq<Row>, r: Row)
    ensures Tally(rows + [r]) == Tally(rows).Plus(Contribution(r))
  {
    TallyAppend(rows, [r]);
    TallySingle(r);
  }

  lemma TallySingle(r: Row)
    ensures Tally([r]) == Contribution(r)
  {
    assert [r][..0] == [];
    assert Filter([r], IsIncome) == if r.kind == Income then [r] else [];
    assert Filter([r], IsExpense) == if r.kind == Expense then [r] else [];
    assert SumAmounts([r]) == r.amount;
    assert SumTax([r]) == r.taxAmount.GetOr(0.0);
  }

  /** Every row is income or expense, so the two sums together are the sum
      of all amounts. */
  lemma {:induction false} IncomeAndExpensesPartition(rows: seq<Row>)
    ensures Tally(rows).income + Tally(rows).expenses == SumAmounts(rows)
    decreases |rows|
  {
    if |rows| > 0 {
      var init := rows[..|rows| - 1];
      var last := rows[|rows| - 1];
      assert rows == init + [last];
      IncomeAndExpensesPartition(init);
      TallySnoc(init, last);
      SumAmountsAppend(init, [last]);
      assert [last][..0] == [];
    }
  }
}
