/** The pure parts of the dashboard (src/pages/Dashboard.tsx): turning the
    listed entries into CSV text, and validating the add-entry form. Dates
    and numbers are rendered by the `iso` and `show` parameters
    (`toISOString` and `String`). */
module Dashboard {
  import opened Wrappers
  import opened Text
  import opened Schema
  import opened Ledger

  // ---------------------------------------------------------------------
  // CSV cells

  /** Doubles every `"` (`s.replace(/"/g, '""')`). */
  function Escape(s: string): (r: string)
    ensures |r| >= |s|
    ensures '"' !in s ==> r == s
  {
    if |s| == 0 then ""
    else (if s[0] == '"' then "\"\"" else [s[0]]) + Escape(s[1..])
  }

  /** A cell as written: the escaped text between quotes. */
  function Quote(s: string): (r: string)
    ensures |r| >= 2 && r[0] == '"' && r[|r| - 1] == '"'
  {
    "\"" + Escape(s) + "\""
  }

  function QuoteAll(cells: seq<string>): (r: seq<string>)
    ensures |r| == |cells|
    ensures forall k | 0 <= k < |r| :: r[k] == Quote(cells[k])
  {
    if |cells| == 0 then [] else [Quote(cells[0])] + QuoteAll(cells[1..])
  }

  /** One data record: the quoted cells joined by commas. */
  function Record(cells: seq<string>): string {
    JoinWith(",", QuoteAll(cells))
  }

  function RecordAll(rows: seq<seq<string>>): (r: seq<string>)
    ensures |r| == |rows|
    ensures forall k | 0 <= k < |r| :: r[k] == Record(rows[k])
  {
    if |rows| == 0 then [] else [Record(rows[0])] + RecordAll(rows[1..])
  }

  /** The column names, in the order the record literal lists them. */
  const Headers: seq<string> :=
    ["Date", "Type", "Amount", "Currency", "TaxRate", "TaxAmount", "NetAmount", "Category", "Description", "Country"]

  /** The header line: the column names joined by commas, without quotes. */
  function HeaderLine(): string {
    JoinWith(",", Headers)
  }

  /** Joining a first part to the join of the rest. */
  lemma JoinCons(sep: string, first: string, rest: seq<string>)
    requires |rest| > 0
    ensures JoinWith(sep, [first] + rest) == first + sep + JoinWith(sep, rest)
  {
    assert ([first] + rest)[1..] == rest;
  }

  /** The currency of the selected country, not of the entry. */
  function Currency(selected: Country): string {
    if selected == IN then "INR" else "SAR"
  }

  /** The cells of one entry, in header order. */
  function Cells(t: Row, selected: Country, iso: real -> string, show: real -> string): (c: seq<string>)
    ensures |c| == |Headers|
    ensures c[0] == iso(t.creationTime) && c[2] == show(t.amount) && c[6] == show(t.netAmount)
    ensures c[1] == KindName(t.kind) && c[3] == (if selected == IN then "INR" else "SAR")
    ensures c[4] == show(t.taxRate.GetOr(0.0)) && c[5] == show(t.taxAmount.GetOr(0.0))
    ensures c[7] == t.category && c[8] == t.description && c[9] == CountryCode(t.country)
  {
    [iso(t.creationTime), KindName(t.kind), show(t.amount), Currency(selected),
     show(t.taxRate.GetOr(0.0)), show(t.taxAmount.GetOr(0.0)), show(t.netAmount),
     t.category, t.description, CountryCode(t.country)]
  }

  function CellsAll(rows: seq<Row>, selected: Country, iso: real -> string, show: real -> string)
    : (r: seq<seq<string>>)
    ensures |r| == |rows|
    ensures forall k | 0 <= k < |r| :: r[k] == Cells(rows[k], selected, iso, show)
  {
    if |rows| == 0 then [] else [Cells(rows[0], selected, iso, show)] + CellsAll(rows[1..], selected, iso, show)
  }

  /** The CSV text of `exportCsv`: nothing when there are no entries (the
      list may also still be loading), otherwise the header line and one
      record per entry, in order, joined by line feeds. */
  function ExportCsv(transactions: Option<seq<Row>>, selected: Country, iso: real -> string,
                     show: real -> string): (r: Option<string>)
    ensures r.None? <==> transactions.GetOr([]) == []
    ensures r.Some? ==>
              r.value == HeaderLine() + "\n" + JoinWith("\n", RecordAll(CellsAll(transactions.value, selected, iso, show)))
  {
    var rows := transactions.GetOr([]);
    if rows == [] then None
    else
      var records := RecordAll(CellsAll(rows, selected, iso, show));
      JoinCons("\n", HeaderLine(), records);
      Some(JoinWith("\n", [HeaderLine()] + records))
  }

  // ---------------------------------------------------------------------
  // Reading the CSV back

  /** The text of a quoted cell up to its closing quote (`""` stands for
      `"`), and what follows the closing quote. */
  function ReadQuoted(s: string): (r: Option<(string, string)>)
    ensures r.Some? ==> |r.value.1| < |s|
    decreases |s|
  {
    if |s| == 0 then None
    else if s[0] == '"' then
      if |s| >= 2 && s[1] == '"' then
        match ReadQuoted(s[2..])
        case Some((x, rest)) => Some(("\"" + x, rest))
        case None => None
      else Some(("", s[1..]))
    else
      match ReadQuoted(s[1..])
      case Some((x, rest)) => Some(([s[0]] + x, rest))
      case None => None
  }

  /** The cells of one record and the text after it. */
  function ReadCells(s: string): (r: Option<(seq<string>, string)>)
    ensures r.Some? ==> |r.value.1| < |s|
    decreases |s|
  {
    if |s| == 0 || s[0] != '"' then None
    else match ReadQuoted(s[1..])
      case None => None
      case Some((x, rest)) =>
        if |rest| > 0 && rest[0] == ',' then
          match ReadCells(rest[1..])
          case Some((xs, rest')) => Some(([x] + xs, rest'))
          case None => None
        else Some(([x], rest))
  }

  /** The records of a text of records separated by line feeds. */
  function ReadRecords(s: string): (r: Option<seq<seq<string>>>)
    decreases |s|
  {
    match ReadCells(s)
    case None => None
    case Some((cells, rest)) =>
      if rest == [] then Some([cells])
      else if rest[0] == '\n' then
        match ReadRecords(rest[1..])
        case Some(more) => Some([cells] + more)
        case None => None
      else None
  }

  /** A doubled quote reads as one quote. */
  lemma ReadDoubledQuote(tail: string)
    requires ReadQuoted(tail).Some?
    ensures ReadQuoted("\"\"" + tail) == Some(("\"" + ReadQuoted(tail).value.0, ReadQuoted(tail).value.1))
  {
    assert ("\"\"" + tail)[2..] == tail;
  }

  /** Any other character reads as itself. */
  lemma ReadPlainChar(c: char, tail: string)
    requires c != '"' && ReadQuoted(tail).Some?
    ensures ReadQuoted([c] + tail) == Some(([c] + ReadQuoted(tail).value.0, ReadQuoted(tail).value.1))
  {
    assert ([c] + tail)[1..] == tail;
  }

  /** The escaped text of a non-empty cell is the escape of its first
      character followed by the escaped rest. */
  lemma EscapeHead(x: string, rest: string)
    requires |x| > 0
    ensures Escape(x) + "\"" + rest
              == (if x[0] == '"' then "\"\"" else [x[0]]) + (Escape(x[1..]) + "\"" + rest)
  {
    var h := if x[0] == '"' then "\"\"" else [x[0]];
    assert Escape(x) == h + Escape(x[1..]);
    Append4(h, Escape(x[1..]), "\"", rest);
  }

  /** Concatenation regrouped. */
  lemma Append4(a: string, b: string, c: string, d: string)
    ensures a + b + c + d == a + (b + c + d)
  {
  }

  /** An empty cell is just its closing quote. */
  lemma EscapeEmpty(rest: string)
    ensures Escape("") + "\"" + rest == "\"" + rest
  {
  }

  /** Reading an escaped cell and its closing quote gives back the cell. */
  lemma {:induction false} ReadEscaped(x: string, rest: string)
    requires rest == [] || rest[0] != '"'
    ensures ReadQuoted(Escape(x) + "\"" + rest) == Some((x, rest))
    decreases |x|
  {
    if |x| == 0 {
      EscapeEmpty(rest);
    } else {
      var tail := Escape(x[1..]) + "\"" + rest;
      ReadEscaped(x[1..], rest);
      EscapeHead(x, rest);
      if x[0] == '"' {
        ReadDoubledQuote(tail);
        assert "\"" + x[1..] == x;
      } else {
        ReadPlainChar(x[0], tail);
        assert [x[0]] + x[1..] == x;
      }
    }
  }

  /** A quoted cell opens a record. */
  lemma ReadFirstCell(x: string, after: string)
    requires after == [] || after[0] != '"'
    ensures var s := "\"" + (Escape(x) + "\"" + after);
            ReadCells(s) == if |after| > 0 && after[0] == ',' then
                              match ReadCells(after[1..])
                              case Some((xs, rest')) => Some(([x] + xs, rest'))
                              case None => None
                            else Some(([x], after))
  {
    var s := "\"" + (Escape(x) + "\"" + after);
    assert s[1..] == Escape(x) + "\"" + after;
    ReadEscaped(x, after);
  }

  /** A record of several cells is the first quoted cell, a comma and the
      rest of the record. */
  lemma RecordCons(cells: seq<string>)
    requires |cells| > 1
    ensures Record(cells) == Quote(cells[0]) + "," + Record(cells[1..])
  {
    assert QuoteAll(cells) == [Quote(cells[0])] + QuoteAll(cells[1..]);
    JoinCons(",", Quote(cells[0]), QuoteAll(cells[1..]));
  }

  /** A one-cell record followed by `rest`. */
  lemma RecordOne(cells: seq<string>, rest: string)
    requires |cells| == 1
    ensures Record(cells) + rest == "\"" + (Escape(cells[0]) + "\"" + rest)
  {
    assert QuoteAll(cells) == [Quote(cells[0])];
  }

  /** A record of several cells followed by `rest`. */
  lemma RecordMany(cells: seq<string>, rest: string)
    requires |cells| > 1
    ensures Record(cells) + rest
              == "\"" + (Escape(cells[0]) + "\"" + ("," + (Record(cells[1..]) + rest)))
  {
    RecordCons(cells);
  }

  /** Reading a record gives back its cells. */
  lemma {:induction false} ReadRecord(cells: seq<string>, rest: string)
    requires |cells| > 0
    requires rest == [] || rest[0] == '\n'
    ensures ReadCells(Record(cells) + rest) == Some((cells, rest))
    decreases |cells|
  {
    var first := cells[0];
    if |cells| == 1 {
      RecordOne(cells, rest);
      ReadFirstCell(first, rest);
      assert [first] == cells;
    } else {
      var more := Record(cells[1..]) + rest;
      RecordMany(cells, rest);
      ReadFirstCell(first, "," + more);
      ReadRecord(cells[1..], rest);
      assert ("," + more)[1..] == more;
      assert [first] + cells[1..] == cells;
    }
  }

  /** A record, a line feed and more records read as that record followed
      by the others. */
  lemma ReadNextRecord(cells: seq<string>, tail: string)
    requires |cells| > 0 && ReadRecords(tail).Some?
    ensures ReadRecords(Record(cells) + ("\n" + tail)) == Some([cells] + ReadRecords(tail).value)
  {
    ReadRecord(cells, "\n" + tail);
    assert ("\n" + tail)[1..] == tail;
  }

  /** Records of several entries are the first record, a line feed and the
      records of the others. */
  lemma RecordsCons(rows: seq<seq<string>>)
    requires |rows| > 1
    ensures JoinWith("\n", RecordAll(rows)) == Record(rows[0]) + ("\n" + JoinWith("\n", RecordAll(rows[1..])))
  {
    assert RecordAll(rows) == [Record(rows[0])] + RecordAll(rows[1..]);
    JoinCons("\n", Record(rows[0]), RecordAll(rows[1..]));
  }

  /** Reading the records back gives every entry's cells, in order. */
  lemma {:induction false} ReadAllRecords(rows: seq<seq<string>>)
    requires |rows| > 0
    requires forall k | 0 <= k < |rows| :: |rows[k]| > 0
    ensures ReadRecords(JoinWith("\n", RecordAll(rows))) == Some(rows)
    decreases |rows|
  {
    if |rows| == 1 {
      ReadRecord(rows[0], "");
      assert Record(rows[0]) + "" == Record(rows[0]);
      assert RecordAll(rows) == [Record(rows[0])];
      assert [rows[0]] == rows;
    } else {
      RecordsCons(rows);
      ReadAllRecords(rows[1..]);
      ReadNextRecord(rows[0], JoinWith("\n", RecordAll(rows[1..])));
      assert [rows[0]] + rows[1..] == rows;
    }
  }

  /** The exported text is the header line, a line feed, and records that
      read back as exactly the cells of every listed entry in list order. */
  lemma ExportReadsBack(transactions: seq<Row>, selected: Country, iso: real -> string, show: real -> string)
    requires transactions != []
    ensures var csv := ExportCsv(Some(transactions), selected, iso, show);
            var h := HeaderLine() + "\n";
            && csv.Some? && |h| <= |csv.value| && csv.value[..|h|] == h
            && ReadRecords(csv.value[|h|..]) == Some(CellsAll(transactions, selected, iso, show))
  {
    var cells := CellsAll(transactions, selected, iso, show);
    var body := JoinWith("\n", RecordAll(cells));
    var h := HeaderLine() + "\n";
    var csv := ExportCsv(Some(transactions), selected, iso, show).value;
    assert csv == h + body;
    assert csv[..|h|] == h;
    assert csv[|h|..] == body;
    forall k | 0 <= k < |cells| ensures |cells[k]| > 0 {
      assert |Cells(transactions[k], selected, iso, show)| == |Headers|;
    }
    ReadAllRecords(cells);
  }

  // ---------------------------------------------------------------------
  // The add-entry form

  /** The form state: the amount as typed, description, kind, category. */
  datatype Form = Form(amount: string, description: string, kind: Kind, category: string)

  datatype FormResult = MissingFields | Submit(entry: Entry)

  /** `handleAddTransaction`: an empty amount or description is refused;
      otherwise the entry is submitted with the selected country, category
      "general" when left empty, and 18% tax on income and none on expense
      whatever the country. `parseFloat` reads the typed amount. */
  function HandleAddTransaction(form: Form, selected: Country, parseFloat: string -> real): (r: FormResult)
    ensures r.MissingFields? <==> form.amount == "" || form.description == ""
    ensures r.Submit? ==>
              && r.entry.amount == parseFloat(form.amount) && r.entry.description == form.description
              && r.entry.kind == form.kind && r.entry.country == selected
              && r.entry.category == (if form.category == "" then "general" else form.category)
              && r.entry.taxRate == Some(if form.kind == Income then 18.0 else 0.0)
  {
    if form.amount == "" || form.description == "" then MissingFields
    else Submit(Entry(parseFloat(form.amount), form.description, form.kind,
                      if form.category == "" then "general" else form.category,
                      selected, Some(if form.kind == Income then 18.0 else 0.0)))
  }

  /** Income entered on the dashboard is taxed at 18% even for Saudi
      Arabia, whose messages are taxed at 15%: the stored tax is 18% of the
      amount and the stored net the remaining 82%. */
  lemma DashboardIncomeTaxedAt18(form: Form, selected: Country, parseFloat: string -> real,
                                 id: RowId, now: real, owner: UserId)
    requires HandleAddTransaction(form, selected, parseFloat).Submit?
    requires form.kind == Income
    ensures var e := HandleAddTransaction(form, selected, parseFloat).entry;
            var row := NewRow(id, now, Some(owner), e, None, None, None);
            && row.taxAmount == Some(e.amount * 18.0 / 100.0)
            && row.netAmount == e.amount * 82.0 / 100.0
  {
  }
}
