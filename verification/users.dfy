/** Accounts (src/convex/users.ts): the signed-in user, linking entries
    recorded over WhatsApp to an account, and connecting a phone number. The
    identity the authentication library reports is a parameter. */
module Users {
  import opened Wrappers
  import opened Text
  import opened Schema
  import opened Ledger

  /** `getCurrentUser`: nothing when signed out, otherwise the stored record
      of the signed-in identifier (nothing if there is none). */
  function GetCurrentUser(db: Db, auth: Option<UserId>): (r: Option<(UserId, User)>)
    ensures r.Some? <==> auth.Some? && auth.value in db.users
    ensures r.Some? ==> r.value.0 == auth.value && r.value.1 == db.users[auth.value]
  {
    match auth
    case None => None
    case Some(id) => if id in db.users then Some((id, db.users[id])) else None
  }

  /** The row is one `linkTransactionsByPhone` patches: it carries the phone
      number and has no owner yet. */
  predicate Unlinked(r: Row, phone: string) {
    HasPhone(r, phone) && r.userId.None?
  }

  /** `linkTransactionsByPhone`: every row of `phone` without an owner is
      given the owner `user`; nothing else changes. */
  function LinkTransactionsByPhone(rows: seq<Row>, user: UserId, phone: string): (r: seq<Row>)
    ensures |r| == |rows|
    ensures forall k | 0 <= k < |rows| && Unlinked(rows[k], phone) :: r[k] == rows[k].(userId := Some(user))
    ensures forall k | 0 <= k < |rows| && !Unlinked(rows[k], phone) :: r[k] == rows[k]
  {
    if |rows| == 0 then []
    else
      var last := rows[|rows| - 1];
      LinkTransactionsByPhone(rows[..|rows| - 1], user, phone)
        + [if Unlinked(last, phone) then last.(userId := Some(user)) else last]
  }

  /** After linking, every row of the phone has an owner, and the rows that
      were unlinked belong to `user`. */
  lemma LinkOwnsPhoneRows(rows: seq<Row>, user: UserId, phone: string)
    ensures var r := LinkTransactionsByPhone(rows, user, phone);
            forall k | 0 <= k < |r| && HasPhone(r[k], phone) :: r[k].userId.Some? && !Unlinked(r[k], phone)
  {
  }

  /** Linking a second time with the same arguments changes nothing. */
  lemma LinkIdempotent(rows: seq<Row>, user: UserId, phone: string)
    ensures var once := LinkTransactionsByPhone(rows, user, phone);
            LinkTransactionsByPhone(once, user, phone) == once
  {
    var once := LinkTransactionsByPhone(rows, user, phone);
    var twice := LinkTransactionsByPhone(once, user, phone);
    forall k | 0 <= k < |once| ensures twice[k] == once[k] {
      assert !Unlinked(once[k], phone);
    }
  }

  /** Linking changes only owners: amounts, tax, phone numbers and times
      stay, so the tax invariant and every phone's summary stay too. */
  lemma LinkKeepsEverythingButOwner(rows: seq<Row>, user: UserId, phone: string)
    ensures var r := LinkTransactionsByPhone(rows, user, phone);
            forall k | 0 <= k < |rows| :: r[k].(userId := rows[k].userId) == rows[k]
    ensures AllTaxConsistent(rows) ==> AllTaxConsistent(LinkTransactionsByPhone(rows, user, phone))
  {
  }

  /** `updateWhatsAppConnection`: refuses when signed out or when the
      trimmed number is empty; otherwise stores the trimmed number and the
      connection flag (true unless given) on the user, and links that
      number's unowned entries to the user. */
  function UpdateWhatsAppConnection(db: Db, auth: Option<UserId>, phoneNumber: string,
                                    connected: Option<bool>): (r: Result<Db>)
    ensures GetCurrentUser(db, auth).None? ==> r == Failure("Not authenticated")
    ensures GetCurrentUser(db, auth).Some? && Trim(phoneNumber) == [] ==> r == Failure("Phone number required")
    ensures GetCurrentUser(db, auth).Some? && Trim(phoneNumber) != [] ==> r.Success?
    ensures r.Success? ==>
              var uid := auth.value;
              var phone := Trim(phoneNumber);
              && GetCurrentUser(db, auth).Some? && phone != []
              && uid in r.value.users && r.value.users.Keys == db.users.Keys
              && r.value.users[uid].phoneNumber == Some(phone)
              && r.value.users[uid].whatsappConnected == Some(connected.GetOr(true))
              && r.value.users[uid].(phoneNumber := db.users[uid].phoneNumber,
                                     whatsappConnected := db.users[uid].whatsappConnected) == db.users[uid]
              && (forall u | u in db.users && u != uid :: r.value.users[u] == db.users[u])
              && r.value.rows == LinkTransactionsByPhone(db.rows, uid, phone)
    ensures r.Success? ==> var phone := Trim(phoneNumber);
              |phone| > 0 && !IsSpace(phone[0]) && !IsSpace(phone[|phone| - 1])
  {
    match GetCurrentUser(db, auth)
    case None => Failure("Not authenticated")
    case Some((uid, user)) =>
      var phone := Trim(phoneNumber);
      if phone == [] then Failure("Phone number required")
      else
        var user' := user.(phoneNumber := Some(phone), whatsappConnected := Some(connected.GetOr(true)));
        Success(Db(db.users[uid := user'], LinkTransactionsByPhone(db.rows, uid, phone)))
  }
}
