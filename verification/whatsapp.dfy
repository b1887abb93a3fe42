/** The WhatsApp command router and the three internal mutations it uses
    (src/convex/whatsapp.ts): record an entry for a phone number, undo the
    latest entry of a phone number, and summarise a phone number's entries.
    The transactions table is passed in and returned explicitly. */
module WhatsApp {
  import opened Wrappers
  import opened Text
  import opened Schema
  import opened Ledger
  import opened Parser

  // ---------------------------------------------------------------------
  // createFromWhatsApp

  /** The entry `processMessage` hands to `createFromWhatsApp`. */
  function EntryOf(p: Parsed): (e: Entry)
    ensures e.amount == p.amount && e.description == p.description && e.kind == p.kind
    ensures e.category == p.category && e.country == p.country && e.taxRate == Some(p.taxRate)
  {
    Entry(p.amount, p.description, p.kind, p.category, p.country, Some(p.taxRate))
  }

  /** Inserts an entry with no owning account, tagged with the sender's
      phone number and the message id; `id` and `now` are the identifier and
      creation time the database assigns. */
  function CreateFromWhatsApp(rows: seq<Row>, e: Entry, messageId: string, phone: string,
                              id: RowId, now: real): (r: seq<Row>)
    ensures |r| == |rows| + 1 && r[..|rows|] == rows
    ensures var x := r[|rows|];
            && x.userId.None? && x.phoneNumber == Some(phone) && x.whatsappMessageId == Some(messageId)
            && x.receiptUrl.None? && x.id == id && x.creationTime == now
            && x.amount == e.amount && x.description == e.description && x.kind == e.kind
            && x.category == e.category && x.country == e.country && x.taxRate == e.taxRate
            && TaxConsistent(x)
  {
    rows + [NewRow(id, now, None, e, None, Some(messageId), Some(phone))]
  }

  // ---------------------------------------------------------------------
  // deleteLastByPhone

  /** Row `k` is the one the scan over the phone's rows keeps: it has the
      phone, no earlier row of the phone is as recent, and no later one is
      more recent (the first seen wins a tie). */
  ghost predicate IsLatest(rows: seq<Row>, phone: string, k: int) {
    && 0 <= k < |rows| && HasPhone(rows[k], phone)
    && (forall j | 0 <= j < k && HasPhone(rows[j], phone) :: rows[j].creationTime < rows[k].creationTime)
    && (forall j | k < j < |rows| && HasPhone(rows[j], phone) :: rows[j].creationTime <= rows[k].creationTime)
  }

  /** The scan over the rows of `phone`, in the order the index yields them,
      that keeps a row only when it is strictly more recent than the one kept. */
  function Latest(rows: seq<Row>, phone: string): (r: Option<nat>)
    ensures r.None? <==> forall j | 0 <= j < |rows| :: !HasPhone(rows[j], phone)
    ensures r.Some? ==> IsLatest(rows, phone, r.value)
  {
    if |rows| == 0 then None
    else
      var init := rows[..|rows| - 1];
      var prev := Latest(init, phone);
      var last := rows[|rows| - 1];
      if HasPhone(last, phone) && (prev.None? || last.creationTime > rows[prev.value].creationTime)
      then Some(|rows| - 1)
      else prev
  }

  /** At most one row is the latest of a phone. */
  lemma LatestUnique(rows: seq<Row>, phone: string, k: int, k': int)
    requires IsLatest(rows, phone, k) && IsLatest(rows, phone, k')
    ensures k == k'
  {
  }

  /** What the undo reports. */
  datatype Undone = NotDeleted | Deleted(description: string, amount: real, kind: Kind)

  /** Removes row `k`. */
  function RemoveAt(rows: seq<Row>, k: nat): (r: seq<Row>)
    requires k < |rows|
    ensures |r| == |rows| - 1
    ensures forall j | 0 <= j < k :: r[j] == rows[j]
    ensures forall j | k <= j < |r| :: r[j] == rows[j + 1]
  {
    rows[..k] + rows[k + 1..]
  }

  /** `deleteLastByPhone`: deletes the phone's latest row and reports its
      description, amount and kind, or reports that there was nothing to
      delete. */
  function DeleteLastByPhone(rows: seq<Row>, phone: string): (r: (seq<Row>, Undone))
    ensures r.1.NotDeleted? <==> forall j | 0 <= j < |rows| :: !HasPhone(rows[j], phone)
    ensures r.1.NotDeleted? ==> r.0 == rows
    ensures r.1.Deleted? ==> exists k | IsLatest(rows, phone, k) ::
              && r.0 == RemoveAt(rows, k)
              && r.1 == Deleted(rows[k].description, rows[k].amount, rows[k].kind)
  {
    match Latest(rows, phone)
    case None => (rows, NotDeleted)
    case Some(k) => (RemoveAt(rows, k), Deleted(rows[k].description, rows[k].amount, rows[k].kind))
  }

  /** Filtering after removing row `k` is filtering before, less row `k`
      when the filter keeps it. */
  lemma FilterRemoveAt(rows: seq<Row>, k: nat, keep: Row -> bool)
    requires k < |rows|
    ensures !keep(rows[k]) ==> Filter(RemoveAt(rows, k), keep) == Filter(rows, keep)
    ensures keep(rows[k]) ==> |Filter(RemoveAt(rows, k), keep)| == |Filter(rows, keep)| - 1
  {
    var x := rows[k];
    var front, back := rows[..k], rows[k + 1..];
    assert rows == (front + [x]) + back;
    assert RemoveAt(rows, k) == front + back;
    FilterAppend(front + [x], back, keep);
    FilterAppend(front, [x], keep);
    FilterAppend(front, back, keep);
    assert Filter([x], keep) == if keep(x) then [x] else [] by {
      assert [x][..0] == [];
    }
    var ff, fb := Filter(front, keep), Filter(back, keep);
    assert Filter(rows, keep) == (ff + Filter([x], keep)) + fb;
    assert Filter(RemoveAt(rows, k), keep) == ff + fb;
    if keep(x) {
      assert |Filter(rows, keep)| == |ff| + 1 + |fb|;
    } else {
      assert ff + [] == ff;
    }
  }

  /** Undo leaves every other phone's rows exactly as they were. */
  lemma UndoKeepsOtherPhones(rows: seq<Row>, phone: string, other: string)
    requires other != phone
    ensures ByPhone(DeleteLastByPhone(rows, phone).0, other) == ByPhone(rows, other)
  {
    match Latest(rows, phone)
    case None =>
    case Some(k) =>
      FilterRemoveAt(rows, k, (r: Row) => HasPhone(r, other));
  }

  /** Undo removes exactly one row of the phone when it has any. */
  lemma UndoRemovesOneRowOfPhone(rows: seq<Row>, phone: string)
    requires exists j | 0 <= j < |rows| :: HasPhone(rows[j], phone)
    ensures |ByPhone(DeleteLastByPhone(rows, phone).0, phone)| == |ByPhone(rows, phone)| - 1
  {
    var k := Latest(rows, phone).value;
    FilterRemoveAt(rows, k, (r: Row) => HasPhone(r, phone));
  }

  /** Recording an entry and then undoing restores the table and reports the
      entry, provided the new row is the phone's most recent one (creation
      times increase). */
  lemma UndoAfterRecord(rows: seq<Row>, e: Entry, messageId: string, phone: string, id: RowId, now: real)
    requires forall j | 0 <= j < |rows| && HasPhone(rows[j], phone) :: rows[j].creationTime < now
    ensures DeleteLastByPhone(CreateFromWhatsApp(rows, e, messageId, phone, id, now), phone)
              == (rows, Deleted(e.description, e.amount, e.kind))
  {
    var rows' := CreateFromWhatsApp(rows, e, messageId, phone, id, now);
    assert IsLatest(rows', phone, |rows|);
    var k :| IsLatest(rows', phone, k) && DeleteLastByPhone(rows', phone).0 == RemoveAt(rows', k);
    LatestUnique(rows', phone, k, |rows|);
    assert RemoveAt(rows', k) == rows;
  }

  // ---------------------------------------------------------------------
  // getSummaryByPhone

  datatype Summary = Summary(totalIncome: real, totalExpenses: real, totalTax: real, net: real, count: nat)

  /** `getSummaryByPhone`: income and expense totals, tax (absent counted as
      0), net and the number of the phone's rows. */
  function GetSummaryByPhone(rows: seq<Row>, phone: string): (s: Summary)
    ensures s.net == s.totalIncome - s.totalExpenses
    ensures s.count == |ByPhone(rows, phone)|
    ensures Tally(ByPhone(rows, phone)) == Totals(s.totalIncome, s.totalExpenses, s.totalTax, s.count)
  {
    var t := Tally(ByPhone(rows, phone));
    Summary(t.income, t.expenses, t.tax, t.income - t.expenses, t.count)
  }

  /** Recording an entry adds exactly that entry to its phone's summary:
      income or expense by its kind, its computed tax, one more row. */
  lemma SummaryAfterRecord(rows: seq<Row>, e: Entry, messageId: string, phone: string, id: RowId, now: real)
    ensures var before := GetSummaryByPhone(rows, phone);
            var after := GetSummaryByPhone(CreateFromWhatsApp(rows, e, messageId, phone, id, now), phone);
            && after.totalIncome == before.totalIncome + (if e.kind == Income then e.amount else 0.0)
            && after.totalExpenses == before.totalExpenses + (if e.kind == Expense then e.amount else 0.0)
            && after.totalTax == before.totalTax + TaxAmount(e.amount, e.taxRate)
            && after.count == before.count + 1
  {
    var rows' := CreateFromWhatsApp(rows, e, messageId, phone, id, now);
    var x := rows'[|rows|];
    assert rows' == rows + [x];
    var keep := (r: Row) => HasPhone(r, phone);
    FilterAppend(rows, [x], keep);
    assert [x][..0] == [];
    assert Filter([x], keep) == [x];
    TallySnoc(ByPhone(rows, phone), x);
  }

  /** Recording an entry for one phone leaves every other phone's summary
      unchanged. */
  lemma SummaryOfOtherPhone(rows: seq<Row>, e: Entry, messageId: string, phone: string, id: RowId,
                            now: real, other: string)
    requires other != phone
    ensures GetSummaryByPhone(CreateFromWhatsApp(rows, e, messageId, phone, id, now), other)
              == GetSummaryByPhone(rows, other)
  {
    var rows' := CreateFromWhatsApp(rows, e, messageId, phone, id, now);
    var x := rows'[|rows|];
    assert rows' == rows + [x];
    var keep := (r: Row) => HasPhone(r, other);
    FilterAppend(rows, [x], keep);
    assert [x][..0] == [];
    assert Filter([x], keep) == [];
    assert ByPhone(rows', other) == ByPhone(rows, other);
  }

  // ---------------------------------------------------------------------
  // processMessage

  /** The reply `processMessage` composes, before numbers are rendered. */
  datatype Reply =
    | Undid(kind: Kind, amount: real, description: string)
    | NothingToUndo
    | Balance(summary: Summary)
    | Recorded(kind: Kind, amount: real, category: string)
    | NotUnderstood

  /** `{ success, response }` together with the table afterwards. */
  datatype Processed = Processed(rows: seq<Row>, success: bool, reply: Reply)

  /** The trimmed, lower-cased text starts with `w`. Only ASCII letters can
      lower-case to the letters of the two commands. */
  predicate StartsWithCommand(message: string, w: string) {
    MatchesAt(Trim(message), 0, w)
  }

  /** The message `processMessage` receives: the sender's phone number, the
      text and the message id. */
  datatype Inbound = Inbound(phone: string, text: string, messageId: string)

  /** `processMessage`: "undo" is checked before "balance"; anything else is
      parsed and, when understood, recorded under the sender's number with
      the identifier and creation time the database assigns. */
  function ProcessMessage(rows: seq<Row>, m: Inbound, id: RowId, now: real): (r: Processed)
    // commands never insert a row
    ensures StartsWithCommand(m.text, "undo") || StartsWithCommand(m.text, "balance") ==>
              |r.rows| <= |rows| && (forall x | x in r.rows :: x in rows)
    ensures StartsWithCommand(m.text, "undo") ==>
              var (rows', undone) := DeleteLastByPhone(rows, m.phone);
              && r.rows == rows'
              && (r.success <==> undone.Deleted?)
              && (undone.Deleted? ==> r.reply == Undid(undone.kind, undone.amount, undone.description))
              && (undone.NotDeleted? ==> r.reply == NothingToUndo)
    ensures !StartsWithCommand(m.text, "undo") && StartsWithCommand(m.text, "balance") ==>
              r == Processed(rows, true, Balance(GetSummaryByPhone(rows, m.phone)))
    // everything else is a transaction message
    ensures !StartsWithCommand(m.text, "undo") && !StartsWithCommand(m.text, "balance") ==>
              (r.success <==> ParseTransactionMessage(m.text).Some?)
    ensures !StartsWithCommand(m.text, "undo") && !StartsWithCommand(m.text, "balance") &&
            ParseTransactionMessage(m.text).Some? ==>
              var p := ParseTransactionMessage(m.text).value;
              && r.rows == CreateFromWhatsApp(rows, EntryOf(p), m.messageId, m.phone, id, now)
              && r.reply == Recorded(p.kind, p.amount, p.category)
    ensures !StartsWithCommand(m.text, "undo") && !StartsWithCommand(m.text, "balance") &&
            ParseTransactionMessage(m.text).None? ==>
              r.reply == NotUnderstood
    ensures !r.success ==> r.rows == rows
  {
    if StartsWithCommand(m.text, "undo") then
      var (rows', undone) := DeleteLastByPhone(rows, m.phone);
      assert forall x | x in rows' :: x in rows by {
        if undone.Deleted? {
          var k :| IsLatest(rows, m.phone, k) && rows' == RemoveAt(rows, k);
          forall x | x in rows' ensures x in rows {
            var j :| 0 <= j < |rows'| && rows'[j] == x;
            if j >= k { assert rows[j + 1] == x; }
          }
        }
      }
      match undone
      case Deleted(description, amount, kind) => Processed(rows', true, Undid(kind, amount, description))
      case NotDeleted => Processed(rows', false, NothingToUndo)
    else if StartsWithCommand(m.text, "balance") then
      Processed(rows, true, Balance(GetSummaryByPhone(rows, m.phone)))
    else match ParseTransactionMessage(m.text)
      case Some(p) =>
        Processed(CreateFromWhatsApp(rows, EntryOf(p), m.messageId, m.phone, id, now), true,
                  Recorded(p.kind, p.amount, p.category))
      case None => Processed(rows, false, NotUnderstood)
  }

  /** A recorded message keeps the table consistent: every inserted row
      carries the tax and net its amount and rate determine. */
  lemma ProcessPreservesTaxConsistency(rows: seq<Row>, m: Inbound, id: RowId, now: real)
    requires AllTaxConsistent(rows)
    ensures AllTaxConsistent(ProcessMessage(rows, m, id, now).rows)
  {
    var r := ProcessMessage(rows, m, id, now);
    if StartsWithCommand(m.text, "undo") || StartsWithCommand(m.text, "balance") {
      forall k | 0 <= k < |r.rows| ensures TaxConsistent(r.rows[k]) {
        assert r.rows[k] in rows;
      }
    } else if r.success {
      var p := ParseTransactionMessage(m.text).value;
      var x := r.rows[|rows|];
      assert r.rows == rows + [x];
      AppendPreservesTaxConsistency(rows, x);
    }
  }

  /** The text of the reply; `show` renders a number as JavaScript's
      template literals do. */
  function ReplyText(reply: Reply, show: real -> string): string {
    match reply
    case Undid(kind, amount, description) =>
      "\U{21A9}\U{FE0F} Undone: " + KindName(kind) + " of " + show(amount) + " (" + description + ")"
    case NothingToUndo => "Nothing to undo."
    case Balance(s) =>
      "\U{1F4CA} Balance\nIncome: " + show(s.totalIncome) + "\nExpenses: " + show(s.totalExpenses)
      + "\nTax: " + show(s.totalTax) + "\nNet: " + show(s.net)
    case Recorded(kind, amount, category) =>
      "\U{2705} Recorded: " + KindName(kind) + " of " + show(amount) + " (" + category + ")"
    case NotUnderstood =>
      "I couldn't understand that. Try:\n- Sold 5 items for \U{20B9}500\n- Bought supplies \U{20B9}200\nCommands: undo, balance"
  }
}
