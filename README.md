# Blue Lotus Foods vendor quotes — a Dafny model

Blue Lotus Foods has two services. The API is FastAPI over PostgreSQL.
Vendors look themselves up by code, read the reference lists (destinations,
fish species, cuts and grades), submit a quote and ask for confirmation
emails. The API hands each email to the email service, which renders a PDF
and sends it over SMTP. This project models the following parts in Dafny:

- `Quotes`: the quote-submission transaction `POST /quotes`. It runs on a
  database with a committed state and a pending state (`Database.Db`) and a
  counting connection pool (`Database.Pool`). It is all-or-nothing, and
  every failure becomes a 500.
- `Queries`: the meaning of every SQL statement the API issues, as pure
  functions over in-memory tables (`Tables`).
- `Listing`: the read-only listing endpoints and their 404s.
- `Notification`: the two email endpoints of the API. This covers the JSON
  normaliser `convert_for_json`, the `quote_data` snapshot, the guard order,
  the mapping of failures to 500 and 503, and the optional `email_log` row.
- `EmailService`: simulation mode, missing credentials, the email ids, the
  PDF file name, the loops that build the owner's HTML tables, the notes
  block and `start_tls`.
- `ApiSettings`: `cors_allow_origins` and the `parse_json_list` validator.
- `Routing`: which paths the email service mounts, which paths the API
  posts to, and the route table that was evidently intended (see Findings).

Some behaviours of the code, which the model follows:

- `POST /quotes` inserts the quote header before its destinations and
  products.
- An unknown vendor, fish, cut or grade in `POST /quotes` is answered 500,
  not 404. The `HTTPException(404)` is raised inside the `try`, and the
  broad `except Exception` turns it into a 500.
- The vendor email endpoint does the same to its own 404 (unknown quote)
  and 400 (no address): both come back as 500.
- The vendor email endpoint asks the email service for the vendor email
  only. It sends nothing to the owner; the owner has an endpoint of its
  own.

Python's own string operations are modelled in `PyStrings`. These are
`split`, `join`, `strip`, `upper` and `str(int)`. `split`, `join`, `strip`
and `str(int)` follow Python's definitions. `upper` is limited to ASCII
letters (see Left out). Round trips are proved as lemmas. `Ordering` models
`WHERE`, projection, `ORDER BY` (a stable insertion sort) and `DISTINCT`.

Parts the model cannot see are parameters:

- the PostgreSQL date-literal conversion (`parseDate`);
- `NOW()` in INSERT_EMAIL_LOG (`now`);
- the schema's default for `quote.created_at`, which INSERT_QUOTE leaves out (`createdAtDefault`);
- the email service as seen over HTTP (a `Poster`);
- SMTP (a `Mailer`);
- PDF generation (a `Step`);
- `float()` and `isoformat()` (`Renderings`);
- `repr(float)` (`floatText`);
- `json.loads` (`loads`).

## Model

| member | source | states |
|---|---|---|
| Database.Pool.GetConnection | bluelotusfoods-api/app/db/db.py:26-27 | one more connection is taken from the pool |
| Database.Pool.ReleaseConnection | bluelotusfoods-api/app/db/db.py:29-30 | one more connection is given back |
| Database.Db.InsertQuote | bluelotusfoods-api/app/db/queries.py:85-88 | the pending state becomes the INSERT's outcome, whose `created_at` is the column default since the statement leaves it out; a refused statement leaves it as it was and reports the error; nothing is committed |
| Database.Db.InsertQuoteDestination | bluelotusfoods-api/app/db/queries.py:90-93 | the same for a destination row, whose arrival-date literal may be refused |
| Database.Db.InsertQuoteProduct | bluelotusfoods-api/app/db/queries.py:95-98 | the product row is appended to the pending tables only |
| Database.Db.InsertEmailLog | bluelotusfoods-api/app/db/queries.py:169-172 | a log row is appended to the pending tables when the log table exists |
| Database.Db.Commit | bluelotusfoods-api/app/api/vendor_quote/quotes.py:97 | the pending state becomes the committed state |
| Database.Db.Rollback | bluelotusfoods-api/app/api/vendor_quote/quotes.py:100 | the pending writes are discarded |
| PyStrings.Split | bluelotusfoods-api/app/core/settings.py:39 | `split` yields one piece more than there are separators, and no piece holds the separator |
| PyStrings.JoinSplit | bluelotusfoods-api/app/core/settings.py:49 | joining the pieces of a split with the same separator gives the text back |
| PyStrings.SplitJoin | bluelotusfoods-api/app/core/settings.py:49 | splitting the join of separator-free pieces gives the pieces back |
| PyStrings.Upper | bluelotusfoods-api/app/api/vendor_quote/dictionary.py:13 | ASCII-only `upper`: keeps the length, maps each ASCII letter to upper case and leaves every other character alone |
| PyStrings.CaseVariantsAgree | bluelotusfoods-api/app/api/vendor_quote/dictionary.py:13 | two spellings upper-case alike exactly when they differ only in the case of ASCII letters |
| PyStrings.StripSlice | bluelotusfoods-api/app/core/settings.py:49 | `strip` keeps a contiguous slice whose two ends are kept characters, and drops only droppable ones |
| PyStrings.StripIdempotent | bluelotusfoods-api/app/core/settings.py:49 | stripping twice is stripping once |
| PyStrings.IntToStringInjective | bluelotusfoods-email/app/services/email_service.py:38 | `str` on ints is injective |
| PyStrings.ParseNatToString | bluelotusfoods-email/app/services/email_service.py:84 | the decimal digits of a natural number read back as that number |
| PyStrings.LexLeTotal | bluelotusfoods-api/app/db/queries.py:43 | the string order that `ORDER BY name` uses is total |
| PyStrings.LexLeTransitive | bluelotusfoods-api/app/db/queries.py:43 | that order is transitive |
| PyStrings.LexLeAntisymmetric | bluelotusfoods-api/app/db/queries.py:43 | that order is antisymmetric |
| Ordering.Filter | bluelotusfoods-api/app/db/queries.py:42 | `WHERE` keeps exactly the rows that satisfy the condition |
| Ordering.FilterCounts | bluelotusfoods-api/app/db/queries.py:42 | `WHERE` keeps each selected row as often as the table holds it |
| Ordering.Map | bluelotusfoods-api/app/db/queries.py:40 | a projection keeps the length and maps each row in place |
| Ordering.SortBy | bluelotusfoods-api/app/db/queries.py:43 | `ORDER BY` is a permutation of the rows, sorted under any total preorder |
| Ordering.Dedup | bluelotusfoods-api/app/db/queries.py:108 | removing adjacent repeats keeps the same elements and leaves no two neighbours equal |
| Ordering.SortedAdjacentDistinct | bluelotusfoods-api/app/db/queries.py:108 | once sorted, having no equal neighbours means having no repeats at all |
| Queries.VendorIdByNameMatches | bluelotusfoods-api/app/db/queries.py:32-34 | a vendor id is found iff an active vendor has that exact name, and it is that vendor's id |
| Queries.MaxQuoteId | bluelotusfoods-api/app/db/queries.py:24 | `MAX(id)` bounds every quote id and is the id of some quote |
| Queries.NextQuoteId | bluelotusfoods-api/app/db/queries.py:24 | the hint is 1 on an empty table, otherwise one more than an existing id, and above every id |
| Queries.VendorsByCode | bluelotusfoods-api/app/db/queries.py:18-30 | the rows are exactly the active vendors with that code, and there are none iff no such vendor exists |
| Queries.EntryNameLeTotalPreorder | bluelotusfoods-api/app/db/queries.py:43 | ordering entries by name is a total preorder |
| Queries.ActiveInCategory | bluelotusfoods-api/app/db/queries.py:42 | exactly the active entries of the category |
| Queries.DictionaryByCategory | bluelotusfoods-api/app/db/queries.py:39-44 | sorted by name, and holding exactly the projected active entries of the category |
| Queries.DestinationIdByCodeMatches | bluelotusfoods-api/app/db/queries.py:46-49 | a destination id is found iff an active DESTINATION entry has that code, and it is that entry's id |
| Queries.ActiveSpeciesById | bluelotusfoods-api/app/db/queries.py:54-59 | ordered by id, holding exactly the active species, each as often as the table holds it |
| Queries.FishTypes | bluelotusfoods-api/app/db/queries.py:54-59 | one row per active species in id order, with its common and scientific names |
| Queries.SortNames | bluelotusfoods-api/app/db/queries.py:61-67 | sorted, and a permutation of the names |
| Queries.FishCutNames | bluelotusfoods-api/app/db/queries.py:61-63 | every cut name (inactive ones too), sorted, as a permutation |
| Queries.FishGradeNames | bluelotusfoods-api/app/db/queries.py:65-67 | every grade name (inactive ones too), sorted, as a permutation |
| Queries.FishIdByNameMatches | bluelotusfoods-api/app/db/queries.py:69-72 | a fish id is found iff an active species has that common name |
| Queries.CutIdByNameMatches | bluelotusfoods-api/app/db/queries.py:74-76 | a cut id is found iff some cut has that name, active or not |
| Queries.GradeIdByNameMatches | bluelotusfoods-api/app/db/queries.py:78-80 | a grade id is found iff some grade has that name, active or not |
| Queries.DistinctNames | bluelotusfoods-api/app/db/queries.py:108 | `DISTINCT` keeps the same names, strictly sorted, with no repeats |
| Queries.ProductFishNamesMatch | bluelotusfoods-api/app/db/queries.py:107-111 | a name enters the fish_type aggregate iff some product of the quote joins a species with that common name |
| Queries.FishTypeSummaryMeaning | bluelotusfoods-api/app/db/queries.py:107-112 | fish_type is 'N/A' iff no product of the quote joins a species; otherwise it is the distinct joined names, sorted, separated by ", ", and holds exactly those names |
| Queries.DestinationJoinMatch | bluelotusfoods-api/app/db/queries.py:138-148 | a row is read back iff it is built from a destination row of the quote and a dictionary entry with its destination id |
| Queries.UnmatchedDestinationAddsNothing | bluelotusfoods-api/app/db/queries.py:146 | a destination row whose id matches no dictionary entry contributes nothing: the answer is as if it were absent |
| Queries.ProductJoinMatch | bluelotusfoods-api/app/db/queries.py:151-164 | a row is read back iff it is built from a product row of the quote and a species, cut and grade with its three ids |
| Queries.UnmatchedProductAddsNothing | bluelotusfoods-api/app/db/queries.py:160-162 | a product row whose species, cut or grade is missing contributes nothing |
| Queries.LeftJoinVendor | bluelotusfoods-api/app/db/queries.py:121 | a quote contributes a row to the LEFT JOIN even when it has no vendor, the first being joined to its first vendor or to NULLs |
| Queries.FirstVendor | bluelotusfoods-api/app/db/queries.py:121 | the vendor found is one whose id is the quote's vendor_id, and one is found iff such a vendor exists |
| Queries.QuoteEmailRowsMatch | bluelotusfoods-api/app/db/queries.py:101-123 | GET_VENDOR_QUOTE_FOR_EMAIL answers a row iff a quote has the id, so "Quote not found" means no such quote |
| Queries.QuoteEmailRowsFirst | bluelotusfoods-api/app/db/queries.py:101-123 | the row read is that of the first quote with the id, with the fish_type summary and the contact email and email flag of its vendor, or NULL without one |
| Quotes.DestinationCodeShape | bluelotusfoods-api/app/api/vendor_quote/quotes.py:55 | an extracted code holds no '(' and neither starts nor ends with ')' |
| Quotes.DestinationCodeIsSplitStrip | bluelotusfoods-api/app/api/vendor_quote/quotes.py:55 | the extraction is exactly the last `split("(")` piece with `strip(")")` applied |
| Quotes.DestinationCodeOfLabel | bluelotusfoods-api/app/api/vendor_quote/quotes.py:55 | a label `place(code)` yields `code` whatever `place` is |
| Quotes.DestinationCodeExample | bluelotusfoods-api/app/api/vendor_quote/quotes.py:55 | "Boston (BOS)" yields "BOS" |
| Quotes.DestinationCodeTakesLastParen | bluelotusfoods-api/app/api/vendor_quote/quotes.py:55 | only the text after the last '(' matters |
| Quotes.DestinationCodeIdempotent | bluelotusfoods-api/app/api/vendor_quote/quotes.py:55 | a code extracts to itself |
| Quotes.InsertDestinationsAppends | bluelotusfoods-api/app/api/vendor_quote/quotes.py:53-67 | the destination loop fails iff some destination does not resolve, and otherwise appends the resolved rows in order and changes nothing else |
| Quotes.InsertProductsAppends | bluelotusfoods-api/app/api/vendor_quote/quotes.py:70-95 | the same for the product loop |
| Quotes.DestinationRowsEach | bluelotusfoods-api/app/api/vendor_quote/quotes.py:53-67 | the destinations resolve iff each one does, and row i is the resolution of destination i |
| Quotes.ProductRowsEach | bluelotusfoods-api/app/api/vendor_quote/quotes.py:70-95 | the same for the products |
| Quotes.FirstFailingDestination | bluelotusfoods-api/app/api/vendor_quote/quotes.py:53-67 | a failing loop reports the error of its first failing destination; all earlier ones resolve |
| Quotes.FirstFailingProduct | bluelotusfoods-api/app/api/vendor_quote/quotes.py:70-95 | the same for products |
| Quotes.DestinationsStopAt | bluelotusfoods-api/app/api/vendor_quote/quotes.py:53-67 | conversely, the first failing destination decides the loop's error |
| Quotes.ProductsStopAt | bluelotusfoods-api/app/api/vendor_quote/quotes.py:70-95 | the same for products |
| Quotes.QuoteResponse | bluelotusfoods-api/app/api/vendor_quote/quotes.py:97-101 | success iff the transaction succeeded, with "Quote created successfully" and the submitted id echoed twice; otherwise 500 wrapping the error under "Error creating quote: " |
| Quotes.ExecuteOutcome | bluelotusfoods-api/app/api/vendor_quote/quotes.py:38-98 | the transaction succeeds iff vendor, valid-till date, free id, every destination and every product resolve; then exactly the header, destination rows and product rows are appended |
| Quotes.ExecuteRowsInOrder | bluelotusfoods-api/app/api/vendor_quote/quotes.py:53-95 | one child row per submitted item, each at its own position and resolving its own input |
| Quotes.MissingVendorIsServerError | bluelotusfoods-api/app/api/vendor_quote/quotes.py:40-43 | an unknown vendor is answered 500 wrapping the 404, not 404 |
| Quotes.UnknownDestinationIsAttributeError | bluelotusfoods-api/app/api/vendor_quote/quotes.py:58-61 | the first destination whose code does not resolve gives 500 wrapping the AttributeError |
| Quotes.UnknownProductIsServerError | bluelotusfoods-api/app/api/vendor_quote/quotes.py:72-90 | the first product whose fish, cut or grade is missing gives 500 wrapping its 404 |
| Quotes.DuplicateIdIsServerError | bluelotusfoods-api/app/api/vendor_quote/quotes.py:47-50 | a caller-chosen id that is taken violates the primary key and gives 500 |
| Quotes.NextQuoteIdIsFree | bluelotusfoods-api/app/db/queries.py:24 | the next-id hint is never a taken id |
| Quotes.ExecuteKeepsQuoteKeys | bluelotusfoods-api/app/api/vendor_quote/quotes.py:47-50 | a committed quote keeps quote ids unique |
| Quotes.RunDestinations | bluelotusfoods-api/app/api/vendor_quote/quotes.py:53-67 | the statement-by-statement loop leaves the pending state equal to the loop function's outcome |
| Quotes.RunProducts | bluelotusfoods-api/app/api/vendor_quote/quotes.py:70-95 | the same for the product loop |
| Quotes.RunTransaction | bluelotusfoods-api/app/api/vendor_quote/quotes.py:38-95 | the whole `try` body leaves the pending state equal to the transaction's outcome; nothing is committed |
| Quotes.CreateQuote | bluelotusfoods-api/app/api/vendor_quote/quotes.py:34-103 | all or nothing: on success the committed state is the transaction's outcome, on failure it is unchanged; the transaction is closed and one connection is taken and given back |
| Listing.RowsOr404 | bluelotusfoods-api/app/api/vendor_quote/fish.py:15-17 | the rows iff there are any, otherwise the 404 with the given detail |
| Listing.DictionaryResponse | bluelotusfoods-api/app/api/vendor_quote/dictionary.py:8-17 | Ok iff an active entry exists for the upper-cased category; the body is the GET_DICTIONARY_BY_CATEGORY rows, sorted by name, holding exactly the active entries of that category; otherwise 404 "Destination not found" |
| Listing.DictionaryIgnoresCase | bluelotusfoods-api/app/api/vendor_quote/dictionary.py:13 | the category's letter case does not change the answer |
| Listing.GetDictionary | bluelotusfoods-api/app/api/vendor_quote/dictionary.py:8-19 | answers the response function over the committed tables; one connection is taken and given back |
| Listing.VendorResponse | bluelotusfoods-api/app/api/vendor_quote/vendors.py:8-17 | Ok iff an active vendor has the code, answering its row with the next-id hint; otherwise 404 "Vendor not found" |
| Listing.VendorHintIsUnused | bluelotusfoods-api/app/db/queries.py:24 | the answered hint is no existing quote's id |
| Listing.GetVendor | bluelotusfoods-api/app/api/vendor_quote/vendors.py:8-19 | the same, through one pooled connection |
| Listing.FishTypesResponse | bluelotusfoods-api/app/api/vendor_quote/fish.py:8-17 | Ok iff some species is active; the body is the GET_FISH_TYPES rows, row i holding the names of the i-th active species by id; otherwise a 404 that says "Vendor not found" |
| Listing.FishCutsResponse | bluelotusfoods-api/app/api/vendor_quote/fish.py:21-30 | Ok iff there is any cut; the body is the GET_FISH_CUTS rows: every cut name, sorted; otherwise the same 404 |
| Listing.FishGradesResponse | bluelotusfoods-api/app/api/vendor_quote/fish.py:34-43 | Ok iff there is any grade; the body is the GET_FISH_GRADES rows: every grade name, sorted; otherwise the same 404 |
| Listing.GetFishTypes | bluelotusfoods-api/app/api/vendor_quote/fish.py:8-19 | answers FishTypesResponse; one connection is taken and given back |
| Listing.GetFishCuts | bluelotusfoods-api/app/api/vendor_quote/fish.py:21-32 | answers FishCutsResponse; one connection is taken and given back |
| Listing.GetFishGrades | bluelotusfoods-api/app/api/vendor_quote/fish.py:34-45 | answers FishGradesResponse; one connection is taken and given back |
| Notification.Convert | bluelotusfoods-api/app/api/vendor_quote/email.py:105-118 | the result is JSON-safe, keeps list and dict shape, list length and dict keys; Decimal becomes its float, date and datetime their ISO text |
| Notification.ConvertKeepsOrder | bluelotusfoods-api/app/api/vendor_quote/email.py:109-110 | item i of a converted list is the conversion of item i |
| Notification.ConvertKeepsKeys | bluelotusfoods-api/app/api/vendor_quote/email.py:107-108 | each dict value is converted under its own key |
| Notification.ConvertFixesSafe | bluelotusfoods-api/app/api/vendor_quote/email.py:105-118 | a JSON-safe value passes through unchanged |
| Notification.ConvertIdempotent | bluelotusfoods-api/app/api/vendor_quote/email.py:105-118 | converting twice is converting once |
| Notification.SnapshotShape | bluelotusfoods-api/app/api/vendor_quote/email.py:121-134 | the snapshot has exactly the twelve keys, one converted dict per destination and size row, a valid-till text iff the date is present, and a created-at text iff the timestamp is present |
| Notification.SnapshotIsSafe | bluelotusfoods-api/app/api/vendor_quote/email.py:121-134 | the snapshot is JSON-safe, so converting it again changes nothing |
| Notification.Deliver | bluelotusfoods-api/app/api/vendor_quote/email.py:152-166 | success iff a 200 whose body is JSON, giving that JSON; a non-200 is raised as its status with "Email service error: " and the text; a 200 that is not JSON is a JSONDecodeError; no connection is a RequestError |
| Notification.Field | bluelotusfoods-api/app/api/vendor_quote/email.py:176 | `email_result[key]` succeeds iff the JSON is an object holding the key, giving its value; otherwise it raises for that key |
| Notification.LogStatus | bluelotusfoods-api/app/api/vendor_quote/email.py:176 | the log status is "sent" iff the service's `success` is truthy in Python's sense, otherwise "failed" |
| Notification.Returned | bluelotusfoods-api/app/api/vendor_quote/email.py:180-185 | the answer passes on `success` and `message` as sent, with the quote id and recipient; it fails iff one of the two keys is missing |
| Notification.Answer | bluelotusfoods-api/app/api/vendor_quote/email.py:187-201 | a RequestError becomes 503 "Email service unavailable"; every other error becomes a 500 wrapping it under the prefix |
| Notification.VendorEmail | bluelotusfoods-api/app/api/vendor_quote/email.py:63-201 | an error is a 500 or the 503; a success echoes the quote id; tables change only when the log table exists and the vendor has rows and an address, by one log row "sent" or "failed"; an error that changes tables is exactly the 500 for a missing `message`; a success addressed to the vendor is logged with the status of its `success` iff the table exists |
| Notification.VendorEmailUnknownQuote | bluelotusfoods-api/app/api/vendor_quote/email.py:76-77 | an unknown quote is a 500 wrapping the 404 |
| Notification.VendorEmailDisabled | bluelotusfoods-api/app/api/vendor_quote/email.py:82-87 | a vendor whose email flag is not true gets the "disabled" answer, and the service is never asked |
| Notification.VendorEmailNoAddress | bluelotusfoods-api/app/api/vendor_quote/email.py:89-93 | an enabled vendor without an address gets a 500 wrapping the 400, and the service is never asked |
| Notification.VendorEmailServiceFailures | bluelotusfoods-api/app/api/vendor_quote/email.py:152-201 | past the guards the answer is 503 iff the service is unreachable; a non-200 or non-JSON reply is a 500 wrapping its error that logs nothing |
| Notification.VendorEmailLogKeptOnMissingMessage | bluelotusfoods-api/app/api/vendor_quote/email.py:170-185 | a 200 reply with `success` but no `message` is a 500, yet the log row committed before the `return` stays |
| Notification.VendorEmailDelivered | bluelotusfoods-api/app/api/vendor_quote/email.py:166-185 | a 200 JSON object with `success` and `message` is passed on, addressed to the vendor, and logged with the status of `success` when the table exists; otherwise the tables stay |
| Notification.VendorEmailSteps | bluelotusfoods-api/app/api/vendor_quote/email.py:70-185 | the statement sequence on the connection commits exactly the attempt's outcome and leaves no pending writes |
| Notification.SendVendorEmail | bluelotusfoods-api/app/api/vendor_quote/email.py:63-203 | answers VendorEmail over the committed tables, commits its tables, and takes and gives back one connection |
| Notification.OwnerNotification | bluelotusfoods-api/app/api/vendor_quote/email.py:206-315 | Ok iff the quote exists and the service answers 200 with a JSON object holding `success` and `message`, addressed to the owner; otherwise a 500 or the 503; a missing quote is a 500 wrapping the 404 |
| Notification.OwnerIgnoresVendorSettings | bluelotusfoods-api/app/api/vendor_quote/email.py:219-299 | the owner is notified whatever the vendor's email flag and address |
| Notification.SendOwnerNotification | bluelotusfoods-api/app/api/vendor_quote/email.py:206-317 | answers OwnerNotification over the committed tables; one connection is taken and given back |
| EmailService.ConcatMapAppend | bluelotusfoods-email/app/services/email_service.py:188-197 | a `+=` loop over two runs of items builds the two runs' text one after the other |
| EmailService.ConcatMapInOrder | bluelotusfoods-email/app/services/email_service.py:188-211 | item i's fragment sits right after the fragments of the earlier items |
| EmailService.NotesBlock | bluelotusfoods-email/app/services/email_service.py:287 | the notes block is present iff the notes are truthy |
| EmailService.DestinationRows | bluelotusfoods-email/app/services/email_service.py:188-197 | the loop's text is one row per destination, in order |
| EmailService.SizeRows | bluelotusfoods-email/app/services/email_service.py:200-211 | the loop's text is one row per size, in order |
| EmailService.CreateOwnerNotificationBody | bluelotusfoods-email/app/services/email_service.py:185-302 | the body holds the two tables, the Yes/No flags and the notes block of the quote |
| EmailService.SmtpRequestOf | bluelotusfoods-email/app/services/email_service.py:363-385 | `start_tls=True` is passed iff `smtp_use_tls` (otherwise it is not passed), with the configured host, port and credentials |
| EmailService.MessagesShareAttachment | bluelotusfoods-email/app/services/email_service.py:66-69 | both emails name the PDF after the quote, and each goes to its own recipient |
| EmailService.VendorEmailIdsIdentify | bluelotusfoods-email/app/services/email_service.py:38 | a vendor email id names one quote and whether it was simulated |
| EmailService.OwnerEmailIdsIdentify | bluelotusfoods-email/app/services/email_service.py:116 | owner email ids are injective, and never equal a vendor email id |
| EmailService.AttachmentNamesIdentify | bluelotusfoods-email/app/services/email_service.py:68 | a PDF file name names one quote |
| EmailService.SendVendorQuoteEmail | bluelotusfoods-email/app/services/email_service.py:21-97 | success iff the PDF is made and it is simulation mode, or the credentials are set and SMTP succeeds; an id iff success, and the right id; the fixed messages; a failure is "not configured" or carries the prefix |
| EmailService.VendorSendSkipsSmtp | bluelotusfoods-email/app/services/email_service.py:30-47 | in simulation mode or without credentials the answer does not depend on SMTP |
| EmailService.SendOwnerNotificationEmail | bluelotusfoods-email/app/services/email_service.py:99-183 | the same decisions for the owner email, with its own ids, messages and failure prefix |
| ApiSettings.SplitAndStrip | bluelotusfoods-api/app/core/settings.py:49 | one item per comma-separated piece, each stripped |
| ApiSettings.CorsAllowOrigins | bluelotusfoods-api/app/core/settings.py:46-49 | never empty, with one origin more than there are commas |
| ApiSettings.SplitAndStripItems | bluelotusfoods-api/app/core/settings.py:49 | every item is comma-free and has no whitespace at either end |
| ApiSettings.SplitAndStripJoin | bluelotusfoods-api/app/core/settings.py:49 | a clean origin list written out with commas reads back as itself |
| ApiSettings.SplitAndStripRejoins | bluelotusfoods-api/app/core/settings.py:49 | text whose pieces carry no surrounding whitespace is the comma join of its items |
| ApiSettings.ParseJsonList | bluelotusfoods-api/app/core/settings.py:30-40 | a list passes through; JSON text is what `json.loads` gives; other text falls back to the stripped comma split |
| ApiSettings.ParseJsonListFallback | bluelotusfoods-api/app/core/settings.py:38-39 | a comma list that is not JSON comes back as its items |
| Routing.MountedPostRoutes | bluelotusfoods-email/app/main.py:43-44 | the service mounts exactly POST /email/vendor-quote and /test/test-email |
| Routing.ApiPathsUnmounted | bluelotusfoods-api/app/api/vendor_quote/email.py:153 | neither path the API posts to is mounted |
| Routing.AsWrittenVendorEmailFails | bluelotusfoods-api/app/api/vendor_quote/email.py:152-164 | as written, an enabled vendor with an address always gets a 500 wrapping the service's 404, and nothing is logged |
| Routing.AsWrittenOwnerNotificationFails | bluelotusfoods-api/app/api/vendor_quote/email.py:277-289 | as written, the owner notification always fails the same way |
| Routing.IntendedRoutesReachHandlers | bluelotusfoods-email/app/api/email.py:11 | with the intended routes, each API call reaches the handler whose request schema has exactly the payload's fields |
| Routing.IntendedVendorEmailUsesHandler | bluelotusfoods-email/app/api/email.py:11-20 | with the intended routes, the vendor endpoint succeeds iff the vendor-quote handler delivers, and the mounted routes keep their handlers |

## Left out

- PyStrings.Upper: only ASCII letters are mapped. Python's `str.upper` is full Unicode: it maps "é" to "É" and "ß" to "SS", which also changes the length. The model leaves every non-ASCII character as it is.
- PyStrings.CaseVariantsAgree: the same limit. It states agreement up to ASCII case only, so two spellings that differ in non-ASCII case are not covered.
- Listing.DictionaryResponse: the category is upper-cased with the ASCII-only `Upper`, so a category with non-ASCII letters is not matched as Python would match it.
- Decimal and float are not told apart. The request schema declares `airfreight_per_kg`, `min_weight`, `max_weight` and `price_per_kg` as `float` (bluelotusfoods-api/app/api/vendor_quote/quotes.py:10-22). The model carries them as decimals. The adaptation of a Python float into a `numeric` column and its scale is left out.
- Errors are kept as structure. `Detail.Wrapped` keeps the prefix and the error; the text `f"...{str(e)}"` that the API renders is not built.
- Row order follows the table. GET_VENDOR_BY_CODE, GET_VENDOR_BY_NAME, GET_DICTIONARY_BY_CODE, GET_FISH_BY_NAME, GET_CUT_BY_NAME, GET_GRADE_BY_NAME, GET_VENDOR_QUOTE_FOR_EMAIL, GET_QUOTE_DESTINATIONS and GET_QUOTE_PRODUCTS have no `ORDER BY`; the model answers them in table order, so a `fetchone` takes the first match in table order. Ties under an `ORDER BY` keep insertion order. `string_agg(DISTINCT …)` is modelled as sorted.
- SMTP, MIME assembly and PDF rendering are not modelled. The SMTP outcome (`Mailer`) and the PDF step (`Step`) are parameters. The vendor email's HTML template (`_create_email_body`) fills in the vendor name, quote id, fish type, country of origin and the `strftime`-formatted valid-till date; the model keeps that body only as the tag `VendorTemplate`.
- HTTP is left out. The email service as the API sees it is a parameter (`Poster`), along with the client timeout and the JSON body's decoding.
- Database.Db.InsertQuote: only a refused date literal or a taken id fails the header INSERT. Two other refusals are not modelled. psycopg2 raises ValueError for a string parameter holding a NUL character, such as `notes` or `quote_valid_till`. PostgreSQL refuses an `id` outside the integer column's range.
- Database.Db.InsertQuoteProduct: the product INSERT never fails in the model. The source's can fail: a NUL character in `weight_range` (psycopg2's ValueError), or a `quantity` outside the integer column's range, or a `price_per_kg` the numeric column cannot hold.
- Quotes.InsertProductsAppends: "fails iff some product does not resolve" leaves out the INSERT refusals above, which also fail the source's loop.
- Quotes.ExecuteOutcome: "succeeds iff Accepted" covers the lookups, the date literals and the key only. The NUL-character and integer-range refusals above also fail the source's transaction, which then rolls back and answers 500. The model would commit it instead. Likewise a NUL character in a vendor name, destination code, fish, cut or grade name makes the lookup's `cur.execute` raise ValueError. The model answers that lookup's 404 or AttributeError instead; both are 500, with different text.
- Queries.InsertQuote: INSERT_QUOTE names six columns and leaves `created_at` out, and no file shows the schema. The column's value is the parameter `createdAtDefault`: the default the schema gives, or None for NULL when it gives none.
- PostgreSQL's date-literal parsing, `NOW()`, `float(Decimal)`, `isoformat()`, `repr(float)` and `json.loads` are oracle parameters.
- The order of dictionary keys is not modelled. Dictionaries are maps.
- Collation is left out. `ORDER BY` uses code-point order.
- The owner body keeps only the parts that depend on the quote: the two tables, the Yes/No flags and the notes block. The surrounding HTML text and whitespace are left out.
- The 'Valid Until' date text formatted with `strftime` is left out.
- The US/Central clock that the owner subject shows is a parameter.
- Logging is left out.
- The debug endpoint and the email service's `/test/test-email` handler body are left out. The latter's route is kept.
- Pool sizing and internals are left out. The pool is observed only through its take and give-back counts.
- Concurrency between requests is left out. Each request runs alone on its connection.
- Notification.Convert: dead branches are not modelled. The `datetime` branch of `convert_for_json` can never run, because a `datetime` is also a `date`; the date branch takes it. The `else 0.0` for a `None` Decimal cannot occur either.
- EmailService.CreateOwnerNotificationBody: its two `+=` loops are the separate methods `DestinationRows` and `SizeRows`.
- Quotes.CreateQuote: its two loops are the separate methods `RunDestinations` and `RunProducts`.

## Findings

| source | as written | input that shows it | evidently intended | confidence | as-written member | corrected member |
|---|---|---|---|---|---|---|
| bluelotusfoods-api/app/api/vendor_quote/email.py:153 | The API posts to /email/vendor-notification and /email/owner-notification. The email service mounts only POST /email/vendor-quote and /test/test-email (bluelotusfoods-email/app/main.py:43-44, bluelotusfoods-email/app/api/email.py:11). | POST /quotes/1/email for a quote whose vendor has emails enabled and an address. The service answers 404, and the endpoint answers 500 "Failed to send email: …" and logs nothing. | Each API call reaches the vendor-quote handler or an owner-notification handler. The request schema of that handler matches the payload. | not executed | Routing.AsWrittenVendorEmailFails | Routing.IntendedRoutesReachHandlers |
