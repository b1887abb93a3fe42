# UNCLE bookkeeping: WhatsApp pipeline and ledger, in Dafny

UNCLE is a bookkeeping tool for small shops. A shopkeeper sends a chat
message such as "Sold 5 items for ₹500" to a WhatsApp number. A Convex
webhook receives it, and the message parser turns the free text into an
income or expense entry with an Indian (GST) or Saudi (VAT) tax rate. The
entry is stored against the sender's phone number, and the webhook replies.
Two commands are recognised: `undo` removes the sender's latest entry, and
`balance` reports the sender's totals. When the shopkeeper later signs up
and connects the phone number, earlier entries are linked to the account.
The dashboard lists entries, sums them into a tax summary, adds entries by
hand and exports them as CSV.

This project models that core as pure functions over immutable data.

| module | file | models |
|---|---|---|
| `Wrappers` | `wrappers.dfy` | `Option` and `Result` |
| `Text` | `text.dfy` | JavaScript `trim`, `slice`, ASCII `toLowerCase`, case-insensitive substring search, `join` |
| `Schema` | `schema.dfy` | the `users` and `transactions` documents; the database as a users map plus the transactions table |
| `Ledger` | `ledger.dfy` | tax and net amounts of an inserted entry; filtering; the income, expense and tax sums |
| `Parser` | `parser.dfy` | `parseTransactionMessage`: country hints, the amount regular expression, rounding to cents, the classifier words, and the `sold…`/`bought…` fallback patterns |
| `Scenarios` | `scenarios.dfy` | general laws of the parser, and worked chat messages that are instances of them |
| `WhatsApp` | `whatsapp.dfy` | `processMessage`, `createFromWhatsApp`, `deleteLastByPhone` (undo), `getSummaryByPhone` (balance) |
| `Transactions` | `transactions.dfy` | `create`, `list`, `getTaxSummary` |
| `Users` | `users.dfy` | `getCurrentUser`, `linkTransactionsByPhone`, `updateWhatsAppConnection` |
| `Http` | `http.dfy` | `sendWhatsAppText`, the GET subscription check, and the POST receiver's loop over messages |
| `Dashboard` | `dashboard.dfy` | `exportCsv` and `handleAddTransaction` |

Modelling choices:

- **Numbers.** JavaScript numbers are `real`. Scaling by `k` and the
  rounding `Math.round((x + EPSILON) * 100) / 100` are exact on reals:
  `RoundCents` rounds half up to a whole number of cents.
- **Regular expressions.** Each one is written out as the scan the engine
  performs, including backtracking.
  - The amount pattern `(?:₹|﷼|\bINR\b|\bSAR\b)?\s*([0-9]{1,3}(?:,[0-9]{3})*(?:\.[0-9]+)?|…)(\s*[kK])?`
    always matches at the first ASCII digit of the text.
  - Its first alternative always wins there. It takes at most three lead
    digits, then every `,ddd` group, then an optional fraction, then an
    optional `k`.
  - So "Sold for 2500" reads 250, and "Bought 2 kg oil" reads 2000.
- **The store.** A database is a users map and the transactions table as
  a sequence in index order. Identifiers, creation times and the
  signed-in identity are parameters.
- **Formatting.** Formatting a number or a date as text is a function
  parameter (`show`, `iso`).
- **The POST loop.** It is generic in the state the message processor
  threads through. The processor is a parameter that either replies or
  throws.

The program's own help reply (src/convex/whatsapp.ts:57), the landing page
(src/pages/Landing.tsx:27) and the dashboard (src/pages/Dashboard.tsx:391)
offer "Sold 5 items for ₹500" as an example message. The parser records it
as an income of 5, not 500, because the amount pattern matches the first
number in the text (`Scenarios.SoldFiveItems`). The model follows the code.

## Model

| member | source | states |
|---|---|---|
| Text.Trim | src/convex/whatsapp.ts:72 | the trimmed text is the slice of the input between its leading and trailing white space, everything cut off is white space, and it neither starts nor ends with white space |
| Text.TrimIdempotent | src/convex/whatsapp.ts:15 | trimming an already trimmed message changes nothing, so `processMessage` and the parser see the same text |
| Text.TrimEmpty | src/convex/users.ts:64-65 | a phone number trims to the empty string exactly when it is all white space |
| Text.Take | src/convex/http.ts:129 | `slice(0, 4000)` keeps a prefix of at most 4000 characters, and the whole string when it is shorter |
| Text.LowerAscii | src/convex/whatsapp.ts:16 | lower-casing maps exactly the ASCII capitals to their small letters and leaves every other character alone |
| Ledger.NewRow | src/convex/transactions.ts:22-29 | an inserted entry keeps the caller's fields; tax is amount × rate / 100 when the rate is present and non-zero, else 0; income is stored net of tax, an expense at its full amount |
| Ledger.TaxAmount | src/convex/whatsapp.ts:187 | the tax is 0 without a rate or with a zero rate, otherwise amount × rate / 100; it lies between 0 and the amount for a rate between 0 and 100 |
| Ledger.NetAmount | src/convex/whatsapp.ts:193 | income is stored net of tax and an expense at its full amount; the net lies between 0 and the amount when the tax does |
| Ledger.AppendPreservesTaxConsistency | src/convex/whatsapp.ts:187-194 | inserting an entry whose tax and net fields are computed as on insert keeps every row of the table consistent |
| Ledger.IncomeAndExpensesPartition | src/convex/whatsapp.ts:144-145 | the income total plus the expense total is the sum of all amounts, since each row is exactly one of the two kinds |
| Parser.InferCountry | src/convex/whatsapp.ts:76-77 | the country is SA exactly when the text holds a Saudi hint (﷼, "sar", "saudi", " vat" as a word), otherwise IN, whatever Indian hints appear |
| Parser.DefaultTaxRate | src/convex/whatsapp.ts:107 | income is taxed at 18 in India and 15 in Saudi Arabia; expenses are taxed at 0 |
| Parser.FirstDigit | src/convex/whatsapp.ts:81 | the first ASCII digit at or after a position, or none exactly when there is no digit there |
| Parser.DigitRun | src/convex/whatsapp.ts:81 | the maximal run of ASCII digits starting at a position: every character in it is a digit and the one after it is not |
| Parser.SpaceRun | src/convex/whatsapp.ts:81 | the maximal run of white space that `\s*` before `[kK]` consumes: every character in it is white space and the one after it is not |
| Parser.GroupsEnd | src/convex/whatsapp.ts:81 | the greedy `(?:,[0-9]{3})*` ends after a run of complete `,ddd` groups and before any further group |
| Parser.FractionEnd | src/convex/whatsapp.ts:81 | the greedy `(?:\.[0-9]+)?` consumes a dot and every following digit when at least one digit follows, and nothing otherwise |
| Parser.MatchAmount | src/convex/whatsapp.ts:80-82 | the amount pattern fails exactly on texts without a digit; otherwise its match starts at the first digit, takes at most three lead digits, all following groups, the fraction and the `k` suffix |
| Parser.StripCommas | src/convex/whatsapp.ts:86 | `replace(/,/g, "")` leaves no comma, never lengthens the text, and leaves comma-free text unchanged |
| Parser.StripCommasAppend | src/convex/whatsapp.ts:86 | removing every comma distributes over concatenation: the pieces are cleaned independently |
| Parser.StripCommasKeeps | src/convex/whatsapp.ts:86 | every character left after removing commas comes from the input |
| Parser.RawAmount | src/convex/whatsapp.ts:86-89 | the matched number without commas, times 1000 when the `k` suffix matched, and never negative |
| Parser.RoundCents | src/convex/whatsapp.ts:90 | the rounded amount is a whole number of cents within half a cent of the input, and not negative for a non-negative input |
| Parser.ExtractAmount | src/convex/whatsapp.ts:84-93 | there is no amount exactly when the text has no digit; otherwise the amount is the raw matched amount rounded to a whole number of cents |
| Parser.RoundWhole | src/convex/whatsapp.ts:90 | rounding a whole number to cents returns it unchanged |
| Parser.DigitsSpanValue | src/convex/whatsapp.ts:86-87 | a plain run of digits parses as its decimal value |
| Parser.GroupedSpanValue | src/convex/whatsapp.ts:86-87 | a number of the form d,ddd (one to three lead digits and one group) parses as a thousand times its lead digits plus its group |
| Parser.GroupedAmount | src/convex/whatsapp.ts:80-93 | when the first number is one to three digits followed by exactly one `,ddd` group, with no fraction or `k` after it, the amount is the number with the comma dropped |
| Parser.PlainRunAmount | src/convex/whatsapp.ts:80-93 | when the first number is a run of at most three digits with no group or fraction after it, the amount is that number's value, times 1000 when a `k` follows |
| Parser.LongRunReadsThreeDigits | src/convex/whatsapp.ts:81 | when the first number is a run of four or more digits, the amount is the value of its first three digits |
| Parser.HasIndiaHint | src/convex/whatsapp.ts:76 | the Indian hint test: ₹, "inr" or "india" anywhere in any case, or " gst" ending at a word boundary |
| Parser.HasSaudiHint | src/convex/whatsapp.ts:77 | the Saudi hint test: ﷼, "sar" or "saudi" anywhere in any case, or " vat" ending at a word boundary |
| Parser.IsIncomeText | src/convex/whatsapp.ts:96 | the income classifier: one of "sold", "sale", "received", "income", "paid to me" occurs, in any case |
| Parser.PaidNotToMe | src/convex/whatsapp.ts:97 | `paid\b(?! to me)`: some "paid" ends at a word boundary and is not followed by " to me" |
| Parser.IsExpenseText | src/convex/whatsapp.ts:97 | the expense classifier: one of "bought", "purchase", "spent", "expense" occurs in any case, or a "paid" not followed by " to me" |
| Parser.IgnoresCase | src/convex/whatsapp.ts:76-97 | the hint and classifier patterns carry the `/i` flag: each gives the same answer on the text and on its lower-cased form |
| Parser.FallbackNumber | src/convex/whatsapp.ts:112 | a match of the number pattern `\b(\d+(?:,\d{3})*(?:\.\d+)?)\b` at a digit starts there and is a non-empty span of the text |
| Parser.FallbackNumberShape | src/convex/whatsapp.ts:112 | a number the pattern finds has its shape: the whole digit run, complete `,ddd` groups, an optional dot with digits, and a word boundary at its end |
| Parser.FallbackNumberFirst | src/convex/whatsapp.ts:112 | any span of that shape is found, and the backtracking order prefers the found one: it has at least as many groups, and the fraction when both end at the same groups |
| Parser.FallbackNumberNone | src/convex/whatsapp.ts:112 | the number pattern fails at a digit exactly when no span of the shape starts there |
| Parser.FirstOnLine | src/convex/whatsapp.ts:112 | the lazy `.*?` search: the first position on the rest of the line where a condition holds, and none exactly when it holds nowhere before the line terminator |
| Parser.FirstFrom | src/convex/whatsapp.ts:112-114 | the leftmost position in a range where a condition holds, and none exactly when it holds nowhere in the range |
| Parser.FallbackNumberFrom | src/convex/whatsapp.ts:112 | the number found after the keyword starts at a digit at or after the keyword's end and is a non-empty span of the text |
| Parser.FirstNumberOnLine | src/convex/whatsapp.ts:112 | `.*?\b(…)\b` after the keyword yields the number at the leftmost word-starting digit on the same line where the number pattern matches, and fails exactly when there is none before the line terminator |
| Parser.FallbackMatch | src/convex/whatsapp.ts:112-114 | a fallback match is a non-empty span starting at a digit after an occurrence of the keyword; there is none exactly when no occurrence of the keyword is followed by a number on its line |
| Parser.FirstKeywordMatch | src/convex/whatsapp.ts:112-114 | the fallback match belongs to the leftmost occurrence of the keyword that is followed by a number on its line |
| Parser.Classified | src/convex/whatsapp.ts:99-108 | a parsed entry carries the trimmed text, the kind, the category "sales" or "purchases" matching the kind, the inferred country and its default tax rate |
| Parser.ParseTransactionMessage | src/convex/whatsapp.ts:71-133 | a parsed message carries the trimmed text, a non-negative amount, the category of its kind, the country of its hints and that country's rate, and needs a classifier word; a message without a digit never parses |
| Parser.PrimaryParse | src/convex/whatsapp.ts:99-109 | when the amount is non-zero and a classifier word is present, the message parses with that amount, and it is income exactly when an income word is present |
| Parser.FallbackParse | src/convex/whatsapp.ts:111-132 | otherwise the message parses exactly when a `sold` or `bought` fallback matches; the primary amount was then 0; the kind is income exactly when "sold" occurs; a `sold` match gives the amount, and otherwise the `bought` match does |
| Scenarios.NoSaudiHint | src/convex/whatsapp.ts:76-77 | a text without the letter a and without ﷼ has no Saudi hint, so it is booked in India |
| Scenarios.NoIncomeWord | src/convex/whatsapp.ts:96 | a text without the letters d, a, r and c holds no income word |
| Scenarios.PlainParse | src/convex/whatsapp.ts:80-109 | a message whose first number is a plain run of digits parses to at most the first three digits' value, scaled by a `k`, with the text's kind, category, country and rate |
| Scenarios.LongParse | src/convex/whatsapp.ts:80-109 | a message whose first number has four or more digits parses to the value of its first three digits |
| Scenarios.ReceivedTwoThousandFiveHundred | src/convex/whatsapp.ts:80-109 | "Received 2,500" is an income of 2500 in India, category sales, taxed at 18: the thousands separator is dropped |
| Scenarios.SoldFiveItems | src/convex/whatsapp.ts:71-109 | "Sold 5 items for ₹500" is an income of 5 in India, category sales, taxed at 18 |
| Scenarios.SpentTwoHundred | src/convex/whatsapp.ts:96-109 | "Spent 200 on oil" is an expense of 200 in India, category purchases, taxed at 0 |
| Scenarios.SoldForTwentyFiveHundred | src/convex/whatsapp.ts:81 | "Sold for 2500" is an income of 250 |
| Scenarios.BoughtTwoKilos | src/convex/whatsapp.ts:81-89 | "Bought 2 kg oil" is an expense of 2000, because the `k` of "kg" is read as thousands |
| Scenarios.NecessaryIsSaudi | src/convex/whatsapp.ts:77 | "Sold 100 necessary items" is booked in Saudi Arabia at 15, because "sar" occurs inside "necessary" |
| WhatsApp.EntryOf | src/convex/whatsapp.ts:42-46 | the entry handed to `createFromWhatsApp` carries every parsed field, the tax rate always present |
| WhatsApp.CreateFromWhatsApp | src/convex/whatsapp.ts:185-194 | one row is appended and nothing else changes; it has no owner, carries the sender's phone and message id, the entry's fields, and tax and net computed as on insert |
| WhatsApp.Latest | src/convex/whatsapp.ts:161-165 | there is no latest row of a phone exactly when the phone has no rows; otherwise it is the phone's row with the greatest creation time, the first one on a tie |
| WhatsApp.LatestUnique | src/convex/whatsapp.ts:164 | the row the undo scan keeps is unique |
| WhatsApp.RemoveAt | src/convex/whatsapp.ts:167 | deleting a row keeps every other row in order |
| WhatsApp.DeleteLastByPhone | src/convex/whatsapp.ts:160-171 | nothing is deleted exactly when the phone has no rows; otherwise exactly its latest row is removed and its description, amount and kind are reported |
| WhatsApp.UndoKeepsOtherPhones | src/convex/whatsapp.ts:162-167 | undo leaves the rows of every other phone number as they were |
| WhatsApp.UndoRemovesOneRowOfPhone | src/convex/whatsapp.ts:166-168 | undo removes exactly one row of a phone that has rows |
| WhatsApp.UndoAfterRecord | src/convex/whatsapp.ts:158-194 | recording a message and then undoing it restores the table and reports the recorded entry, when the new entry is the phone's latest |
| WhatsApp.GetSummaryByPhone | src/convex/whatsapp.ts:138-155 | the balance is the income, expense and tax sums and the count of the phone's rows, and net is income minus expenses |
| WhatsApp.SummaryAfterRecord | src/convex/whatsapp.ts:144-153 | after a message is recorded, the balance of its phone grows by the entry's amount on its kind's side, by its tax, and by one in the count |
| WhatsApp.SummaryOfOtherPhone | src/convex/whatsapp.ts:139-142 | recording a message does not change the balance of any other phone number |
| WhatsApp.StartsWithCommand | src/convex/whatsapp.ts:15-19 | a command is recognised when the trimmed, lower-cased message starts with its word, as `undo` (line 19) and `balance` (line 30) are |
| WhatsApp.ProcessMessage | src/convex/whatsapp.ts:14-59 | an `undo` command deletes the phone's latest row, and a `balance` command reports the phone's summary without changing the table; any other text is recorded exactly when it parses, and one that does not parse gets the help reply; a failure changes nothing |
| WhatsApp.ProcessPreservesTaxConsistency | src/convex/whatsapp.ts:39-52 | handling any message keeps every row's tax and net amounts consistent |
| Transactions.Create | src/convex/transactions.ts:16-30 | it fails exactly when there is no current user, with "User not authenticated"; otherwise one row is appended, the table and users otherwise unchanged, owned by the current user, with the given id and creation time, the caller's fields, no phone number, and tax and net computed as on insert |
| Transactions.Reverse | src/convex/transactions.ts:47 | descending order reads the table back to front |
| Transactions.PageSize | src/convex/transactions.ts:53 | the page size is the limit when it is given and non-zero, and 50 when it is absent or 0 |
| Transactions.Mine | src/convex/transactions.ts:44-51 | the rows considered are exactly the table rows of the signed-in user, of the requested country when one is given: none is missed and no other is included |
| Transactions.Newest | src/convex/transactions.ts:47-53 | the page is the last rows of the table, newest first, at most the page size |
| Transactions.List | src/convex/transactions.ts:38-54 | signed out yields nothing; otherwise the user's rows of the requested country, newest first, as many as the page size allows |
| Transactions.ListNewestFirst | src/convex/transactions.ts:44-53 | in a table ordered by creation time, the listed rows come newest first |
| Transactions.GetTaxSummary | src/convex/transactions.ts:63-98 | signed out yields nothing; otherwise the sums and count over the user's rows of the country whose creation time lies in the window, and net profit is income minus expenses |
| Transactions.TaxSummaryAfterCreate | src/convex/transactions.ts:69-97 | creating an entry inside the window grows the tax summary of its country by its amount on its kind's side, by its tax, and by one in the count |
| Transactions.InWindow | src/convex/transactions.ts:75-79 | a row is in the window exactly when a truthy start date is not after its creation time and a truthy end date is not before it |
| Transactions.UnboundedWindow | src/convex/transactions.ts:75-79 | a start or end date of 0 is falsy and bounds nothing, like an absent one |
| Users.GetCurrentUser | src/convex/users.ts:30-36 | there is a current user exactly when someone is signed in and their record exists, and it is that record |
| Users.LinkTransactionsByPhone | src/convex/users.ts:40-52 | every ownerless row of the phone gets the user as owner; every other row is unchanged |
| Users.LinkOwnsPhoneRows | src/convex/users.ts:45-50 | after linking, every row of the phone has an owner |
| Users.LinkIdempotent | src/convex/users.ts:46-49 | linking twice is the same as linking once |
| Users.LinkKeepsEverythingButOwner | src/convex/users.ts:48 | linking changes only owners, so every row's tax and net amounts stay consistent |
| Users.UpdateWhatsAppConnection | src/convex/users.ts:60-79 | signed out is refused with "Not authenticated" and an empty trimmed phone with "Phone number required"; otherwise it succeeds, only this user's phone (trimmed) and connection flag (true unless given) change, and the phone's ownerless rows are linked to them |
| Http.Field | src/convex/http.ts:94-96 | optional member access yields a value exactly for an object that has the key, and that value is the key's |
| Http.OrEmpty | src/convex/http.ts:113-115 | `?? ""` yields the empty string exactly for a missing or null value and keeps any other value, so the result is never null |
| Http.PlanSend | src/convex/http.ts:12-48 | a request is posted exactly when both settings are present and the trimmed recipient and trimmed first 4000 characters of the body are non-empty; it goes to the Graph API URL of the phone-number id with the bearer token |
| Http.SentBodyIsSanitised | src/convex/http.ts:22-32 | a posted body has 1 to 4000 characters, no white space at either end, and is a piece of the reply's first 4000 characters |
| Http.VerifyWebhook | src/convex/http.ts:63-79 | the challenge is echoed with 200 exactly when the mode is "subscribe", token and challenge are non-empty and the token equals the configured one; 403 when only the token check fails; 400 otherwise |
| Http.ReadEnvelope | src/convex/http.ts:88-107 | a body is invalid exactly when it has no `entry` array; it is a status update exactly when the first change's value carries a non-empty `statuses` array; otherwise its messages are that value's `messages` array |
| Http.IsTextMessage | src/convex/http.ts:111 | a message is a text message exactly when it is an object whose `type` is the string "text" |
| Http.PassesChecks | src/convex/http.ts:113-120 | a message that passes the malformed-message checks is a text message with an id, a sender and a text body, and every accepted message passes them |
| Http.Accepted | src/convex/http.ts:111-126 | a message reaches the processor only if it is a text message whose id, text and sender are non-empty strings, and exactly those are passed on |
| Http.NoticeTo | src/convex/http.ts:134-138 | after a failure at most one notice goes out, exactly when the sender is truthy; it carries the fixed apology text and goes to the sender |
| Http.Step | src/convex/http.ts:110-142 | a non-text or incomplete message is skipped; an accepted one is processed and answered with its reply cut to 4000 characters (or "✅ Received." when there is none); a throw sends the notice |
| Http.Steps | src/convex/http.ts:109-143 | the loop sends at most one message per payload entry |
| Http.StepsSnoc | src/convex/http.ts:109-143 | the loop over one more message is the loop over the others followed by one turn for it: the state is threaded through and its sends follow the earlier ones, so each message's reply, notice or nothing (as `Http.Step` states) is sent in payload order |
| Http.HandlePost | src/convex/http.ts:86-150 | every POST is answered 200 "EVENT_RECEIVED"; an invalid body or a status update changes nothing and sends nothing; otherwise the state and the sends are those of the loop over the first change's messages |
| Http.HandlePostInOrder | src/convex/http.ts:103-126 | a POST with messages hands exactly the accepted messages to the processor, once each and in payload order |
| Http.ProcessedInOrder | src/convex/http.ts:109-126 | the processor sees exactly the accepted messages, in payload order |
| Http.FailuresOnlyNotify | src/convex/http.ts:131-141 | when processing always throws, exactly one apology goes to each accepted or notifiable message and nothing else is sent |
| Http.StatusesWin | src/convex/http.ts:98-101 | any body with entries whose first change carries a non-empty `statuses` array is answered 200 with the state unchanged and nothing sent, whatever messages it also holds |
| Http.RepliesBounded | src/convex/http.ts:128-130 | no reply the loop hands to the sender is longer than 4000 characters |
| Dashboard.Escape | src/pages/Dashboard.tsx:69 | doubling quotes never shortens a value and leaves a value without quotes unchanged |
| Dashboard.Quote | src/pages/Dashboard.tsx:69 | every cell is wrapped in double quotes |
| Dashboard.QuoteAll | src/pages/Dashboard.tsx:64-70 | each header's cell is quoted, in header order |
| Dashboard.RecordAll | src/pages/Dashboard.tsx:63-72 | each row becomes one record line, in order |
| Dashboard.Cells | src/pages/Dashboard.tsx:44-55 | a row has one cell per header, in order: its date, type, amount, the currency of the selected country (not the row's), tax rate and tax amount defaulting to 0, net amount, category, description and country code |
| Dashboard.CellsAll | src/pages/Dashboard.tsx:44-55 | each transaction becomes its cells, in list order |
| Dashboard.ExportCsv | src/pages/Dashboard.tsx:56-73 | nothing is exported exactly when there are no transactions; otherwise the header line, a newline, and one quoted record per transaction joined by newlines |
| Dashboard.ReadEscaped | src/pages/Dashboard.tsx:69 | a CSV reader recovers a value from its escaped, quoted form |
| Dashboard.ReadRecord | src/pages/Dashboard.tsx:63-72 | a CSV reader recovers the cells of a record line |
| Dashboard.ReadAllRecords | src/pages/Dashboard.tsx:61-73 | a CSV reader recovers every row from the joined records |
| Dashboard.ExportReadsBack | src/pages/Dashboard.tsx:60-73 | the export starts with the header line, and reading the rest back yields every transaction's cells unchanged, whatever quotes, commas or newlines they contain |
| Dashboard.HandleAddTransaction | src/pages/Dashboard.tsx:94-108 | an empty amount or description is refused; otherwise the entry has the parsed amount, the description and kind, the category or "general", the selected country, and tax rate 18 for income and 0 for an expense |
| Dashboard.DashboardIncomeTaxedAt18 | src/pages/Dashboard.tsx:107 | income added on the dashboard is taxed at 18% and stored at 82% of its amount, whichever country is selected |

## Left out

- Strings are sequences of Unicode code points. JavaScript counts UTF-16 units. So the 4000-character cut and the reply slice count characters, not units.
- `toLowerCase` and the `/i` flag are modelled on ASCII letters only. The keywords they look for are ASCII.
- Floating point is not modelled. Amounts are reals, so `parseFloat` loses no precision, and the `Number.EPSILON` nudge plays no role. `NaN` cannot arise from the matched digits, so the `isNaN` checks are always false.
- `Dashboard.HandleAddTransaction`'s `parseFloat` is a parameter. A form amount that does not parse to a number is not modelled.
- Converting numbers and dates to text (`String(n)`, `toISOString`) are parameters.
- The blob download, the file name with today's date, toasts, logging and the router are user-interface and I/O effects. They are left out.
- The database is a sequence in index order. Insertion ids, creation times and the signed-in identity are parameters.
- Convex argument validators are left out: the types of the model rule out ill-typed arguments. The exception is the POST loop, where a non-string id, text or sender counts as a throw.
- `Transactions.List`'s `limit` is a natural number. A negative or fractional limit is not modelled.
- Transactions.ListNewestFirst: assumes a table ordered by creation time. The ordering of Convex's `by_user` index among equal keys is not modelled.
- WhatsApp.UndoAfterRecord: requires the new entry's creation time to exceed that of every earlier entry of the phone, which the database guarantees but the model takes as a precondition.
- Dashboard.ExportReadsBack: the header line is checked as a prefix. Reading the header back is not stated.
- Dashboard.HeaderLine: the column order is the `Headers` constant, joined by commas without quotes. No lemma spells the joined line out as one literal string.
- Parser.FallbackNumber: its own contract states only where a found number lies. Its shape, that it is the one the backtracking order prefers, and that it fails only when no number starts there, are stated by FallbackNumberShape, FallbackNumberFirst and FallbackNumberNone.
- Parser.FallbackNumberFrom: its own contract states only where the number lies. That it is the leftmost one on the keyword's line, and that there is none exactly when the line holds no number, are stated by FirstNumberOnLine.
- Parser.FallbackMatch: its own contract states soundness and when it fails. That it belongs to the leftmost keyword followed by a number is stated by FirstKeywordMatch.
- Http.Steps: its own contract only bounds the number of sends. What each message sends, and in which order, is stated by Http.StepsSnoc together with Http.Step's contract.
- `currentUser` (users.ts:12-23) only wraps `getCurrentUser` and is not modelled separately.
- Webhook signature verification, rate limiting, and send timeouts with retry and backoff are not in the code. The model has none of them.
- Http.PlanSend: the HTTP response of the Graph API and network errors are only logged by the code, so a send is modelled as the request it would issue.
- The reply texts of `processMessage` are modelled (`WhatsApp.ReplyText`), with number formatting as a parameter. Their wording carries no contract.
