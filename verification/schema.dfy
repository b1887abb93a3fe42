/** The shape of the stored documents: the `users` and `transactions`
    tables. Identifiers are opaque numbers; a database is the users table
    keyed by identifier and the transactions table as a sequence in the
    order its index yields the rows. */
module Schema {
  import opened Wrappers

  datatype Kind = Income | Expense

  datatype Country = IN | SA

  type UserId = nat

  type RowId = nat

  /** A `transactions` document. `creationTime` is `_creationTime`, given by
      the database; `userId` is absent until the entry is linked to an
      account. */
  datatype Row = Row(
    id: RowId,
    creationTime: real,
    userId: Option<UserId>,
    amount: real,
    description: string,
    kind: Kind,
    category: string,
    taxRate: Option<real>,
    taxAmount: Option<real>,
    netAmount: real,
    country: Country,
    receiptUrl: Option<string>,
    whatsappMessageId: Option<string>,
    phoneNumber: Option<string>)

  /** A `users` document (the identity fields the application reads). */
  datatype User = User(
    name: Option<string>,
    email: Option<string>,
    businessName: Option<string>,
    phoneNumber: Option<string>,
    country: Option<Country>,
    taxId: Option<string>,
    whatsappConnected: Option<bool>)

  datatype Db = Db(users: map<UserId, User>, rows: seq<Row>)

  /** The stored spelling of a kind (`"income"` / `"expense"`). */
  function KindName(k: Kind): string {
    match k
    case Income => "income"
    case Expense => "expense"
  }

  /** The stored spelling of a country (`"IN"` / `"SA"`). */
  function CountryCode(c: Country): string {
    match c
    case IN => "IN"
    case SA => "SA"
  }
}
