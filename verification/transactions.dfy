/** The signed-in user's ledger (src/convex/transactions.ts): creating an
    entry, listing the newest entries, and the tax summary over a date
    window. */
module Transactions {
  import opened Wrappers
  import opened Text
  import opened Schema
  import opened Ledger
  import opened Users

  // ---------------------------------------------------------------------
  // create

  /** The arguments of `create` besides the ledger fields. */
  datatype CreateArgs = CreateArgs(entry: Entry, receiptUrl: Option<string>, messageId: Option<string>)

  /** `create`: refuses when signed out; otherwise inserts the entry owned
      by the signed-in user, with its tax and net amounts. */
  function Create(db: Db, auth: Option<UserId>, args: CreateArgs, id: RowId, now: real): (r: Result<Db>)
    ensures GetCurrentUser(db, auth).None? <==> r == Failure("User not authenticated")
    ensures GetCurrentUser(db, auth).Some? ==> r.Success?
    ensures r.Success? ==>
              var rows := r.value.rows;
              var e := args.entry;
              && r.value.users == db.users
              && |rows| == |db.rows| + 1 && rows[..|db.rows|] == db.rows
              && rows[|db.rows|].userId == auth && auth.Some? && auth.value in db.users
              && rows[|db.rows|].id == id && rows[|db.rows|].creationTime == now
              && rows[|db.rows|].phoneNumber.None?
              && rows[|db.rows|].description == e.description && rows[|db.rows|].category == e.category
              && rows[|db.rows|].receiptUrl == args.receiptUrl
              && rows[|db.rows|].whatsappMessageId == args.messageId
              && rows[|db.rows|].amount == e.amount && rows[|db.rows|].kind == e.kind
              && rows[|db.rows|].taxRate == e.taxRate && rows[|db.rows|].country == e.country
              && TaxConsistent(rows[|db.rows|])
  {
    match GetCurrentUser(db, auth)
    case None => Failure("User not authenticated")
    case Some((uid, _)) =>
      Success(db.(rows := db.rows + [NewRow(id, now, Some(uid), args.entry, args.receiptUrl, args.messageId, None)]))
  }

  // ---------------------------------------------------------------------
  // list

  function Reverse<T>(s: seq<T>): (r: seq<T>)
    ensures |r| == |s|
    ensures forall k | 0 <= k < |s| :: r[k] == s[|s| - 1 - k]
  {
    if |s| == 0 then [] else [s[|s| - 1]] + Reverse(s[..|s| - 1])
  }

  /** `args.limit || 50`: an absent or zero limit means 50. */
  function PageSize(limit: Option<nat>): (n: nat)
    ensures n > 0
    ensures limit.Some? && limit.value != 0 ==> n == limit.value
    ensures limit.None? || limit.value == 0 ==> n == 50
  {
    if limit.Some? && limit.value != 0 then limit.value else 50
  }

  predicate OwnedBy(r: Row, user: UserId) {
    r.userId == Some(user)
  }

  /** The optional country filter: `if (args.country)` applies it whenever a
      country is given. */
  predicate CountryMatches(r: Row, country: Option<Country>) {
    country.None? || r.country == country.value
  }

  /** The rows `list` chooses from: the user's, of the country if one is
      given, in table order. */
  function Mine(rows: seq<Row>, user: UserId, country: Option<Country>): (r: seq<Row>)
    ensures forall k | 0 <= k < |r| :: r[k] in rows && OwnedBy(r[k], user) && CountryMatches(r[k], country)
    ensures forall k | 0 <= k < |rows| && OwnedBy(rows[k], user) && CountryMatches(rows[k], country) :: rows[k] in r
  {
    Filter(rows, (x: Row) => OwnedBy(x, user) && CountryMatches(x, country))
  }

  /** The last `n` elements of `s` (all of them if there are fewer), last
      first. */
  function Newest<T>(s: seq<T>, n: nat): (r: seq<T>)
    ensures |r| == (if |s| < n then |s| else n)
    ensures forall k | 0 <= k < |r| :: r[k] == s[|s| - 1 - k]
  {
    Take(Reverse(s), n)
  }

  /** `list`: the signed-in user's rows (of the given country, if any), from
      the last in table order backwards, at most the page size of them. */
  function List(db: Db, auth: Option<UserId>, limit: Option<nat>, country: Option<Country>): (r: seq<Row>)
    ensures GetCurrentUser(db, auth).None? ==> r == []
    ensures |r| <= PageSize(limit)
    ensures GetCurrentUser(db, auth).Some? ==>
              var mine := Mine(db.rows, auth.value, country);
              && |r| == (if |mine| < PageSize(limit) then |mine| else PageSize(limit))
              && forall k | 0 <= k < |r| :: r[k] == mine[|mine| - 1 - k]
    ensures forall k | 0 <= k < |r| ::
              r[k] in db.rows && OwnedBy(r[k], auth.value) && CountryMatches(r[k], country)
  {
    match GetCurrentUser(db, auth)
    case None => []
    case Some((uid, _)) =>
      var mine := Mine(db.rows, uid, country);
      var r := Newest(mine, PageSize(limit));
      assert forall k | 0 <= k < |r| :: r[k] == mine[|mine| - 1 - k];
      r
  }

  /** Creation times never decrease along the table. */
  predicate CreationOrdered(rows: seq<Row>) {
    forall i, j | 0 <= i < j < |rows| :: rows[i].creationTime <= rows[j].creationTime
  }

  /** Appending a row no older than every row keeps the order. */
  lemma SnocOrdered(rows: seq<Row>, last: Row)
    requires CreationOrdered(rows)
    requires forall k | 0 <= k < |rows| :: rows[k].creationTime <= last.creationTime
    ensures CreationOrdered(rows + [last])
  {
    var r := rows + [last];
    forall i, j | 0 <= i < j < |r| ensures r[i].creationTime <= r[j].creationTime {
      assert r[i] == rows[i];
      if j < |rows| {
        assert r[j] == rows[j];
      }
    }
  }

  /** A filter keeps the table's order. */
  lemma {:induction false} FilterKeepsOrder(rows: seq<Row>, keep: Row -> bool)
    requires CreationOrdered(rows)
    ensures CreationOrdered(Filter(rows, keep))
    decreases |rows|
  {
    if |rows| > 0 {
      var init := rows[..|rows| - 1];
      var last := rows[|rows| - 1];
      FilterKeepsOrder(init, keep);
      var f := Filter(init, keep);
      if keep(last) {
        forall k | 0 <= k < |f| ensures f[k].creationTime <= last.creationTime {
          var j :| 0 <= j < |init| && init[j] == f[k];
          assert rows[j] == f[k];
        }
        SnocOrdered(f, last);
      } else {
        assert f + [] == f;
      }
    }
  }

  lemma MineKeepsOrder(rows: seq<Row>, user: UserId, country: Option<Country>)
    requires CreationOrdered(rows)
    ensures CreationOrdered(Mine(rows, user, country))
  {
    FilterKeepsOrder(rows, (x: Row) => OwnedBy(x, user) && CountryMatches(x, country));
  }

  /** The index yields a user's rows in creation order, so when the table is
      in creation order `list` returns the newest entries first. */
  lemma ListNewestFirst(db: Db, auth: Option<UserId>, limit: Option<nat>, country: Option<Country>)
    requires CreationOrdered(db.rows)
    ensures var r := List(db, auth, limit, country);
            forall i, j | 0 <= i < j < |r| :: r[i].creationTime >= r[j].creationTime
  {
    if GetCurrentUser(db, auth).Some? {
      MineKeepsOrder(db.rows, auth.value, country);
    }
  }

  // ---------------------------------------------------------------------
  // getTaxSummary

  /** A bound that is absent or zero (falsy) does not restrict. */
  function InWindow(r: Row, startDate: Option<real>, endDate: Option<real>): (b: bool)
    ensures b && startDate.Some? && startDate.value != 0.0 ==> startDate.value <= r.creationTime
    ensures b && endDate.Some? && endDate.value != 0.0 ==> r.creationTime <= endDate.value
    ensures && (startDate.None? || startDate.value == 0.0 || startDate.value <= r.creationTime)
            && (endDate.None? || endDate.value == 0.0 || r.creationTime <= endDate.value)
            ==> b
  {
    && !(startDate.Some? && startDate.value != 0.0 && r.creationTime < startDate.value)
    && !(endDate.Some? && endDate.value != 0.0 && r.creationTime > endDate.value)
  }

  datatype TaxSummary = TaxSummary(totalIncome: real, totalExpenses: real, totalTax: real,
                                   netProfit: real, transactionCount: nat)

  /** The user's rows of the country, in table order. */
  function OfCountry(rows: seq<Row>, user: UserId, country: Country): seq<Row> {
    Filter(rows, (x: Row) => OwnedBy(x, user) && x.country == country)
  }

  /** The rows inside the window, in order. */
  function Within(rows: seq<Row>, startDate: Option<real>, endDate: Option<real>): seq<Row> {
    Filter(rows, (x: Row) => InWindow(x, startDate, endDate))
  }

  /** The rows `getTaxSummary` aggregates. */
  function Window(rows: seq<Row>, user: UserId, country: Country, startDate: Option<real>,
                  endDate: Option<real>): seq<Row>
  {
    Within(OfCountry(rows, user, country), startDate, endDate)
  }

  /** Appending a row of the user and country extends their rows by it. */
  lemma OfCountrySnoc(rows: seq<Row>, x: Row, user: UserId, country: Country)
    requires OwnedBy(x, user) && x.country == country
    ensures OfCountry(rows + [x], user, country) == OfCountry(rows, user, country) + [x]
  {
    assert (rows + [x])[..|rows|] == rows;
  }

  /** Appending a row inside the window extends the window by it. */
  lemma WithinSnoc(rows: seq<Row>, x: Row, startDate: Option<real>, endDate: Option<real>)
    requires InWindow(x, startDate, endDate)
    ensures Within(rows + [x], startDate, endDate) == Within(rows, startDate, endDate) + [x]
  {
    assert (rows + [x])[..|rows|] == rows;
  }

  /** `getTaxSummary`: nothing when signed out; otherwise the totals of the
      user's rows of the country inside the window. */
  function GetTaxSummary(db: Db, auth: Option<UserId>, country: Country, startDate: Option<real>,
                         endDate: Option<real>): (r: Option<TaxSummary>)
    ensures r.None? <==> GetCurrentUser(db, auth).None?
    ensures r.Some? ==>
              var w := Window(db.rows, auth.value, country, startDate, endDate);
              && Tally(w) == Totals(r.value.totalIncome, r.value.totalExpenses, r.value.totalTax,
                                    r.value.transactionCount)
              && r.value.netProfit == r.value.totalIncome - r.value.totalExpenses
              && (forall k | 0 <= k < |w| ::
                    OwnedBy(w[k], auth.value) && w[k].country == country && InWindow(w[k], startDate, endDate))
  {
    match GetCurrentUser(db, auth)
    case None => None
    case Some((uid, _)) =>
      var t := Tally(Window(db.rows, uid, country, startDate, endDate));
      Some(TaxSummary(t.income, t.expenses, t.tax, t.income - t.expenses, t.count))
  }

  /** Creating an entry of the summary's country inside its window adds
      exactly that entry to the summary. */
  lemma TaxSummaryAfterCreate(db: Db, auth: Option<UserId>, args: CreateArgs, id: RowId, now: real,
                              startDate: Option<real>, endDate: Option<real>)
    requires Create(db, auth, args, id, now).Success?
    requires var x := NewRow(id, now, auth, args.entry, args.receiptUrl, args.messageId, None);
             InWindow(x, startDate, endDate)
    ensures var before := GetTaxSummary(db, auth, args.entry.country, startDate, endDate).value;
            var after := GetTaxSummary(Create(db, auth, args, id, now).value, auth, args.entry.country,
                                       startDate, endDate).value;
            && after.totalIncome == before.totalIncome + (if args.entry.kind == Income then args.entry.amount else 0.0)
            && after.totalExpenses == before.totalExpenses + (if args.entry.kind == Expense then args.entry.amount else 0.0)
            && after.totalTax == before.totalTax + TaxAmount(args.entry.amount, args.entry.taxRate)
            && after.transactionCount == before.transactionCount + 1
  {
    var db' := Create(db, auth, args, id, now).value;
    var x := db'.rows[|db.rows|];
    assert db'.rows == db.rows + [x];
    var uid := auth.value;
    var c := args.entry.country;
    OfCountrySnoc(db.rows, x, uid, c);
    WithinSnoc(OfCountry(db.rows, uid, c), x, startDate, endDate);
    TallySnoc(Window(db.rows, uid, c, startDate, endDate), x);
  }

  /** With no bounds (or zero bounds) the window keeps all of the user's
      rows of the country. */
  lemma UnboundedWindow(rows: seq<Row>, user: UserId, country: Country, startDate: Option<real>,
                        endDate: Option<real>)
    requires startDate.None? || startDate.value == 0.0
    requires endDate.None? || endDate.value == 0.0
    ensures Window(rows, user, country, startDate, endDate) == OfCountry(rows, user, country)
  {
    FilterAll(OfCountry(rows, user, country), (x: Row) => InWindow(x, startDate, endDate));
  }
}
