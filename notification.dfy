/** The two email endpoints of the API: POST /quotes/{id}/email, which asks
    the email service to confirm a quote to its vendor and records the
    attempt in email_log, and POST /quotes/{id}/owner-notification, which
    asks it to tell the business owner. Both read the quote, build a JSON
    snapshot of it, POST that to the email service and turn every failure
    into an HTTP error. The email service itself is a parameter: a function
    from the URL path and the JSON payload to what came back. */
module Notification {
  import opened Common
  import opened Tables
  import opened Queries
  import opened Database

  // ------------------------------------------------------- JSON normaliser

  /** A Python value as the snapshot code handles it: JSON's own shapes,
      plus the `Decimal`, `date` and `datetime` objects psycopg2 returns.
      Dictionaries are keyed by their string keys (their order is not
      kept). */
  datatype PyValue =
    | PNone
    | PBool(b: bool)
    | PInt(i: int)
    | PFloat(f: real)
    | PStr(s: string)
    | PDecimal(d: Decimal)
    | PDate(date: Date)
    | PDateTime(dateTime: DateTime)
    | PList(items: seq<PyValue>)
    | PDict(entries: map<string, PyValue>)

  /** `float(Decimal)`, `date.isoformat()` and `datetime.isoformat()`:
      floating-point rounding and the ISO layout are taken as given. */
  datatype Renderings = Renderings(
    toFloat: Decimal -> real,
    dateIso: Date -> string,
    dateTimeIso: DateTime -> string)

  /** Holds no value that `json.dumps` would refuse. */
  predicate JsonSafe(v: PyValue)
    decreases v
  {
    match v
    case PDecimal(_) => false
    case PDate(_) => false
    case PDateTime(_) => false
    case PList(xs) => forall i :: 0 <= i < |xs| ==> JsonSafe(xs[i])
    case PDict(m) => forall k :: k in m ==> JsonSafe(m[k])
    case _ => true
  }

  /** `convert_for_json`: dictionaries and lists are rebuilt element by
      element, a Decimal becomes a float, a date or datetime its ISO text,
      and anything else is returned as it is. (A datetime is also a date
      in Python, so it is caught by the date branch; `isoformat` then
      dispatches to the datetime rendering, which is what the later,
      unreachable branch would have produced.) */
  function Convert(v: PyValue, rd: Renderings): (r: PyValue)
    ensures JsonSafe(r)
    ensures v.PList? <==> r.PList?
    ensures v.PList? ==> |r.items| == |v.items|
    ensures v.PDict? <==> r.PDict?
    ensures v.PDict? ==> r.entries.Keys == v.entries.Keys
    ensures v.PDecimal? ==> r == PFloat(rd.toFloat(v.d))
    ensures v.PDate? ==> r == PStr(rd.dateIso(v.date))
    ensures v.PDateTime? ==> r == PStr(rd.dateTimeIso(v.dateTime))
    decreases v
  {
    match v
    case PDict(m) => PDict(map k | k in m :: Convert(m[k], rd))
    case PList(xs) => PList(seq(|xs|, i requires 0 <= i < |xs| => Convert(xs[i], rd)))
    case PDecimal(d) => PFloat(rd.toFloat(d))
    case PDate(d) => PStr(rd.dateIso(d))
    case PDateTime(t) => PStr(rd.dateTimeIso(t))
    case _ => v
  }

  /** Lists keep their order: item `i` of the result comes from item `i`. */
  lemma ConvertKeepsOrder(xs: seq<PyValue>, rd: Renderings, i: int)
    requires 0 <= i < |xs|
    ensures Convert(PList(xs), rd).items[i] == Convert(xs[i], rd)
  {
  }

  /** Dictionaries keep their keys, and each value is converted in place. */
  lemma ConvertKeepsKeys(m: map<string, PyValue>, rd: Renderings, k: string)
    requires k in m
    ensures k in Convert(PDict(m), rd).entries
    ensures Convert(PDict(m), rd).entries[k] == Convert(m[k], rd)
  {
  }

  /** A value that is already JSON-safe passes through unchanged. */
  lemma {:induction false} ConvertFixesSafe(v: PyValue, rd: Renderings)
    requires JsonSafe(v)
    ensures Convert(v, rd) == v
    decreases v
  {
    match v
    case PList(xs) =>
      forall i | 0 <= i < |xs| ensures Convert(xs[i], rd) == xs[i] {
        ConvertFixesSafe(xs[i], rd);
      }
      assert Convert(v, rd).items == xs;
    case PDict(m) =>
      forall k | k in m ensures Convert(m[k], rd) == m[k] {
        ConvertFixesSafe(m[k], rd);
      }
      assert Convert(v, rd).entries == m;
    case _ =>
  }

  /** Converting twice is converting once. */
  lemma ConvertIdempotent(v: PyValue, rd: Renderings)
    ensures Convert(Convert(v, rd), rd) == Convert(v, rd)
  {
    ConvertFixesSafe(Convert(v, rd), rd);
  }

  // -------------------------------------------------------- quote snapshot

  function OptionalText(s: Option<string>): PyValue {
    if s.Some? then PStr(s.value) else PNone
  }

  function OptionalFlag(b: Option<bool>): PyValue {
    if b.Some? then PBool(b.value) else PNone
  }

  /** `dict(dest)` of one GET_QUOTE_DESTINATIONS row. */
  function DestinationDict(d: DestinationReadRow): PyValue {
    PDict(map[
      "destination" := PStr(d.destination),
      "airfreight_per_kg" := PDecimal(d.airfreightPerKg),
      "arrival_date" := PDate(d.arrivalDate),
      "min_weight" := PDecimal(d.minWeight),
      "max_weight" := PDecimal(d.maxWeight)])
  }

  /** `dict(size)` of one GET_QUOTE_PRODUCTS row. */
  function SizeDict(p: ProductReadRow): PyValue {
    PDict(map[
      "fish_type" := PStr(p.fishType),
      "cut_name" := PStr(p.cutName),
      "grade_name" := PStr(p.gradeName),
      "weight_range" := PStr(p.weightRange),
      "price_per_kg" := PDecimal(p.pricePerKg),
      "quantity" := PInt(p.quantity)])
  }

  function DestinationList(ds: seq<DestinationReadRow>): PyValue {
    PList(seq(|ds|, i requires 0 <= i < |ds| => DestinationDict(ds[i])))
  }

  function SizeList(ps: seq<ProductReadRow>): PyValue {
    PList(seq(|ps|, i requires 0 <= i < |ps| => SizeDict(ps[i])))
  }

  const SnapshotKeys: set<string> := {
    "quote_id", "vendor_name", "vendor_code", "country_of_origin",
    "quote_valid_till", "fish_type", "destinations", "sizes", "notes",
    "price_negotiable", "exclusive_offer", "created_at"}

  /** `quote_data`: the quote row, with the destination and size rows
      converted, `quote_valid_till` as `"{date}T00:00:00"` and `created_at`
      as ISO text, each None when the column is NULL. The `.get(key,
      default)` calls never see a missing key (the SELECT always returns
      every column), so a NULL column gives None, not the default. */
  function QuoteSnapshot(row: QuoteEmailRow, ds: seq<DestinationReadRow>, ps: seq<ProductReadRow>,
                         rd: Renderings): PyValue
  {
    PDict(map[
      "quote_id" := PInt(row.quoteId),
      "vendor_name" := OptionalText(row.vendorName),
      "vendor_code" := OptionalText(row.vendorCode),
      "country_of_origin" := OptionalText(row.countryOfOrigin),
      "quote_valid_till" := (if row.quoteValidTill.Some?
                             then PStr(rd.dateIso(row.quoteValidTill.value) + "T00:00:00") else PNone),
      "fish_type" := PStr(row.fishType),
      "destinations" := Convert(DestinationList(ds), rd),
      "sizes" := Convert(SizeList(ps), rd),
      "notes" := OptionalText(row.notes),
      "price_negotiable" := OptionalFlag(row.priceNegotiable),
      "exclusive_offer" := OptionalFlag(row.exclusiveOffer),
      "created_at" := (if row.createdAt.Some? then PStr(rd.dateTimeIso(row.createdAt.value)) else PNone)])
  }

  /** The snapshot has exactly the twelve keys the email service reads, one
      converted destination per destination row and one size per product
      row, in query order; `quote_valid_till` is text exactly when the
      quote has a validity date and then names that date at midnight, and
      `created_at` is text exactly when the quote has a creation time. */
  lemma SnapshotShape(row: QuoteEmailRow, ds: seq<DestinationReadRow>, ps: seq<ProductReadRow>, rd: Renderings)
    ensures var s := QuoteSnapshot(row, ds, ps, rd).entries;
      s.Keys == SnapshotKeys
      && |s["destinations"].items| == |ds| && |s["sizes"].items| == |ps|
      && (forall i :: 0 <= i < |ds| ==> s["destinations"].items[i] == Convert(DestinationDict(ds[i]), rd))
      && (forall i :: 0 <= i < |ps| ==> s["sizes"].items[i] == Convert(SizeDict(ps[i]), rd))
      && (s["quote_valid_till"].PStr? <==> row.quoteValidTill.Some?)
      && (row.quoteValidTill.Some? ==>
            s["quote_valid_till"].s == rd.dateIso(row.quoteValidTill.value) + "T00:00:00")
      && (s["created_at"].PStr? <==> row.createdAt.Some?)
      && (row.createdAt.Some? ==> s["created_at"].s == rd.dateTimeIso(row.createdAt.value))
  {
    var s := QuoteSnapshot(row, ds, ps, rd).entries;
    forall i | 0 <= i < |ds| ensures s["destinations"].items[i] == Convert(DestinationDict(ds[i]), rd) {
      ConvertKeepsOrder(DestinationList(ds).items, rd, i);
    }
    forall i | 0 <= i < |ps| ensures s["sizes"].items[i] == Convert(SizeDict(ps[i]), rd) {
      ConvertKeepsOrder(SizeList(ps).items, rd, i);
    }
  }

  /** Every value of the snapshot is already JSON-safe, so the second
      `convert_for_json(quote_data)` when the payload is built changes
      nothing. */
  lemma SnapshotIsSafe(row: QuoteEmailRow, ds: seq<DestinationReadRow>, ps: seq<ProductReadRow>, rd: Renderings)
    ensures JsonSafe(QuoteSnapshot(row, ds, ps, rd))
    ensures Convert(QuoteSnapshot(row, ds, ps, rd), rd) == QuoteSnapshot(row, ds, ps, rd)
  {
    var v := QuoteSnapshot(row, ds, ps, rd);
    assert forall k :: k in v.entries ==> JsonSafe(v.entries[k]);
    ConvertFixesSafe(v, rd);
  }

  /** The snapshot of the quote as the three SELECTs read it. */
  function QuoteDataOf(t: Tables, quoteId: int, row: QuoteEmailRow, rd: Renderings): PyValue {
    QuoteSnapshot(row, QuoteDestinationRows(t, quoteId), QuoteProductRows(t, quoteId), rd)
  }

  /** `email_payload` for the vendor confirmation. */
  function VendorPayload(quoteId: int, vendorEmail: string, row: QuoteEmailRow, quoteData: PyValue,
                         rd: Renderings): PyValue {
    PDict(map[
      "quote_id" := PInt(quoteId),
      "vendor_email" := PStr(vendorEmail),
      "vendor_name" := OptionalText(row.vendorName),
      "quote_data" := Convert(quoteData, rd)])
  }

  /** `email_payload` for the owner notification. */
  function OwnerPayload(quoteId: int, ownerEmail: string, row: QuoteEmailRow, quoteData: PyValue,
                        rd: Renderings): PyValue {
    PDict(map[
      "quote_id" := PInt(quoteId),
      "owner_email" := PStr(ownerEmail),
      "vendor_name" := OptionalText(row.vendorName),
      "quote_data" := Convert(quoteData, rd)])
  }

  // --------------------------------------------------- the service's reply

  /** What `client.post` produced: no connection at all (httpx.RequestError),
      or a status code, the body's text and what `response.json()` makes of
      that text (None when it is not JSON). */
  datatype ServiceReply =
    | Unreachable
    | Answered(status: int, text: string, json: Option<PyValue>)

  /** The email service, seen from the API: path and payload to reply. */
  type Poster = (string, PyValue) -> ServiceReply

  const VendorNotificationPath: string := "/email/vendor-notification"
  const OwnerNotificationPath: string := "/email/owner-notification"

  /** The status check and `response.json()`: anything but 200 is raised as
      an HTTPException with the service's status and text, and a 200 whose
      body is not JSON fails to decode. */
  function Deliver(reply: ServiceReply): (r: Result<PyValue>)
    ensures r.Success? <==> reply.Answered? && reply.status == 200 && reply.json.Some?
    ensures r.Success? ==> r.value == reply.json.value
    ensures reply.Unreachable? <==> r == Failure(RequestError)
    ensures reply.Answered? && reply.status != 200 ==>
              r == Failure(HTTPException(reply.status, Text("Email service error: " + reply.text)))
    ensures reply.Answered? && reply.status == 200 && reply.json.None? ==> r == Failure(JsonDecodeError)
  {
    match reply
    case Unreachable => Failure(RequestError)
    case Answered(status, text, json) =>
      if status != 200 then Failure(HTTPException(status, Text("Email service error: " + text)))
      else if json.None? then Failure(JsonDecodeError)
      else Success(json.value)
  }

  /** `email_result[key]`: the value under `key` of a JSON object; any other
      value, or a missing key, raises. */
  function Field(body: PyValue, key: string): (r: Result<PyValue>)
    ensures r.Success? <==> body.PDict? && key in body.entries
    ensures r.Success? ==> r.value == body.entries[key]
    ensures r.Failure? ==> r.error == MissingField(key)
  {
    if body.PDict? && key in body.entries then Success(body.entries[key]) else Failure(MissingField(key))
  }

  /** A 200 reply whose JSON is an object holding both fields the API reads. */
  predicate Readable(reply: ServiceReply) {
    && reply.Answered? && reply.status == 200 && reply.json.Some? && reply.json.value.PDict?
    && "success" in reply.json.value.entries && "message" in reply.json.value.entries
  }

  /** Python truthiness of a value. */
  predicate PyTruthy(v: PyValue) {
    match v
    case PNone => false
    case PBool(b) => b
    case PInt(i) => i != 0
    case PFloat(f) => f != 0.0
    case PStr(s) => s != ""
    case PDecimal(d) => d.units != 0
    case PList(xs) => xs != []
    case PDict(m) => m != map[]
    case _ => true
  }

  /** `'sent' if email_result['success'] else 'failed'`. */
  function LogStatus(success: PyValue): (s: string)
    ensures s == "sent" <==> PyTruthy(success)
    ensures s == "sent" || s == "failed"
  {
    if PyTruthy(success) then "sent" else "failed"
  }

  /** The endpoint's answer: `success`, `message`, `quote_id` and, except on
      the disabled path, the address written to (`vendor_email` or
      `owner_email`). The first two are passed on as the service sent them. */
  datatype EmailReply = EmailReply(success: PyValue, message: PyValue, quoteId: int, recipient: Option<string>)

  /** The `return` of a delivered call: `email_result['success']`, then
      `email_result['message']`. */
  function Returned(body: PyValue, quoteId: int, recipient: string): (r: Result<EmailReply>)
    ensures r.Success? <==> body.PDict? && "success" in body.entries && "message" in body.entries
    ensures r.Success? ==> r.value == EmailReply(body.entries["success"], body.entries["message"], quoteId, Some(recipient))
    ensures r.Failure? ==> r.error == MissingField("success") || r.error == MissingField("message")
  {
    var success :- Field(body, "success");
    var message :- Field(body, "message");
    Success(EmailReply(success, message, quoteId, Some(recipient)))
  }

  /** The two `except` clauses: a connection failure becomes 503, every
      other exception, an HTTPException included, 500 with its text. */
  function Answer(r: Result<EmailReply>, prefix: string): (resp: Response<EmailReply>)
    ensures r.Success? <==> resp.Ok?
    ensures r.Success? ==> resp.body == r.value
    ensures r == Failure(RequestError) <==> resp == Error(503, Text("Email service unavailable"))
    ensures r.Failure? && r.error != RequestError ==> resp == Error(500, Wrapped(prefix, r.error))
  {
    match r
    case Success(v) => Ok(v)
    case Failure(e) =>
      if e == RequestError then Error(503, Text("Email service unavailable"))
      else Error(500, Wrapped(prefix, e))
  }

  // ------------------------------------------------- POST /quotes/{id}/email

  const VendorErrorPrefix: string := "Failed to send email: "

  /** How the `try` block of `send_vendor_email` ends, with the committed
      tables as it leaves them: the email_log row is committed before
      `message` is read, so a failure from then on keeps the row. */
  datatype Attempt = Attempt(result: Result<EmailReply>, tables: Tables)

  /** The body of the `try` block of `send_vendor_email`. */
  function VendorAttempt(t: Tables, quoteId: int, rd: Renderings, post: Poster, now: DateTime): Attempt {
    var rows := QuoteEmailRows(t, quoteId);
    if rows == [] then Attempt(Failure(HTTPException(404, Text("Quote not found"))), t)
    else
      var row := rows[0];
      if !IsTrue(row.isEmailEnabled) then
        Attempt(Success(EmailReply(PBool(false), PStr("Email notifications disabled for this vendor"), quoteId, None)), t)
      else if !Truthy(row.contactEmail) then
        Attempt(Failure(HTTPException(400, Text("No email address found for this vendor"))), t)
      else
        var email := row.contactEmail.value;
        var payload := VendorPayload(quoteId, email, row, QuoteDataOf(t, quoteId, row, rd), rd);
        var body := Deliver(post(VendorNotificationPath, payload));
        if body.Failure? then Attempt(Failure(body.error), t)
        else if !EmailLogTableExists(t) then Attempt(Returned(body.value, quoteId, email), t)
        else
          var success := Field(body.value, "success");
          if success.Failure? then Attempt(Failure(success.error), t)
          else
            var logged := InsertEmailLog(t, quoteId, email, LogStatus(success.value), now);
            Attempt(Returned(body.value, quoteId, email), logged)
  }

  datatype Outcome = Outcome(resp: Response<EmailReply>, tables: Tables)

  /** The whole endpoint: the answer, and the committed tables afterwards.
      Only email_log can change, by one row for the vendor's address, and
      only when that table exists and the service answered 200 with a
      `success` field; the row says 'sent' exactly when that field is
      truthy. The only failure that keeps the row is the missing `message`
      read after the commit. Failures are 500, or 503 when the service
      could not be reached. */
  function VendorEmail(t: Tables, quoteId: int, rd: Renderings, post: Poster, now: DateTime): (o: Outcome)
    ensures o.resp.Ok? ==> o.resp.body.quoteId == quoteId
    ensures o.resp.Error? ==> o.resp.status == 500 || o.resp == Error(503, Text("Email service unavailable"))
    ensures o.resp.Error? && o.tables != t ==>
              o.resp == Error(500, Wrapped(VendorErrorPrefix, MissingField("message")))
    ensures o.tables != t ==>
              && EmailLogTableExists(t) && QuoteEmailRows(t, quoteId) != []
              && Truthy(QuoteEmailRows(t, quoteId)[0].contactEmail)
              && (|| o.tables == InsertEmailLog(t, quoteId, QuoteEmailRows(t, quoteId)[0].contactEmail.value, "sent", now)
                  || o.tables == InsertEmailLog(t, quoteId, QuoteEmailRows(t, quoteId)[0].contactEmail.value, "failed", now))
    ensures o.resp.Ok? && o.resp.body.recipient.Some? && EmailLogTableExists(t) ==>
              o.tables == InsertEmailLog(t, quoteId, o.resp.body.recipient.value, LogStatus(o.resp.body.success), now)
    ensures o.resp.Ok? && (o.resp.body.recipient.None? || !EmailLogTableExists(t)) ==> o.tables == t
  {
    var a := VendorAttempt(t, quoteId, rd, post, now);
    Outcome(Answer(a.result, VendorErrorPrefix), a.tables)
  }

  /** An unknown quote is reported as a 500 that wraps the 404. */
  lemma VendorEmailUnknownQuote(t: Tables, quoteId: int, rd: Renderings, post: Poster, now: DateTime)
    requires QuoteEmailRows(t, quoteId) == []
    ensures VendorEmail(t, quoteId, rd, post, now)
         == Outcome(Error(500, Wrapped(VendorErrorPrefix, HTTPException(404, Text("Quote not found")))), t)
  {
  }

  /** A vendor whose email flag is not true gets no email: the answer is a
      plain `success: false`, whatever the service would do, and nothing
      is logged. */
  lemma VendorEmailDisabled(t: Tables, quoteId: int, rd: Renderings, post: Poster, other: Poster, now: DateTime)
    requires QuoteEmailRows(t, quoteId) != []
    requires !IsTrue(QuoteEmailRows(t, quoteId)[0].isEmailEnabled)
    ensures VendorEmail(t, quoteId, rd, post, now) == VendorEmail(t, quoteId, rd, other, now)
    ensures VendorEmail(t, quoteId, rd, post, now)
         == Outcome(Ok(EmailReply(PBool(false), PStr("Email notifications disabled for this vendor"), quoteId, None)), t)
  {
  }

  /** An enabled vendor without an address is a 500 wrapping the 400, again
      without contacting the service. */
  lemma VendorEmailNoAddress(t: Tables, quoteId: int, rd: Renderings, post: Poster, other: Poster, now: DateTime)
    requires QuoteEmailRows(t, quoteId) != []
    requires IsTrue(QuoteEmailRows(t, quoteId)[0].isEmailEnabled)
    requires !Truthy(QuoteEmailRows(t, quoteId)[0].contactEmail)
    ensures VendorEmail(t, quoteId, rd, post, now) == VendorEmail(t, quoteId, rd, other, now)
    ensures VendorEmail(t, quoteId, rd, post, now)
         == Outcome(Error(500, Wrapped(VendorErrorPrefix,
                      HTTPException(400, Text("No email address found for this vendor")))), t)
  {
  }

  /** Past the guards, the payload goes to the vendor's address; a 503
      comes out exactly when the service cannot be reached, and a call that
      fails before any JSON is read (a non-200 status, or a body that is
      not JSON) is a 500 that leaves the tables alone. */
  lemma VendorEmailServiceFailures(t: Tables, quoteId: int, rd: Renderings, post: Poster, now: DateTime)
    requires QuoteEmailRows(t, quoteId) != []
    requires IsTrue(QuoteEmailRows(t, quoteId)[0].isEmailEnabled)
    requires Truthy(QuoteEmailRows(t, quoteId)[0].contactEmail)
    ensures var row := QuoteEmailRows(t, quoteId)[0];
      var reply := post(VendorNotificationPath,
                        VendorPayload(quoteId, row.contactEmail.value, row, QuoteDataOf(t, quoteId, row, rd), rd));
      var o := VendorEmail(t, quoteId, rd, post, now);
      (o.resp == Error(503, Text("Email service unavailable")) <==> reply.Unreachable?)
      && (Deliver(reply).Failure? && reply.Answered? ==>
            o == Outcome(Error(500, Wrapped(VendorErrorPrefix, Deliver(reply).error)), t))
  {
  }

  /** A 200 reply whose JSON has `success` but no `message`, with email_log
      present: the row is committed, then reading `message` raises, and the
      endpoint answers 500 with the row kept. */
  lemma VendorEmailLogKeptOnMissingMessage(t: Tables, quoteId: int, rd: Renderings, post: Poster, now: DateTime,
                                           m: map<string, PyValue>)
    requires QuoteEmailRows(t, quoteId) != []
    requires IsTrue(QuoteEmailRows(t, quoteId)[0].isEmailEnabled)
    requires Truthy(QuoteEmailRows(t, quoteId)[0].contactEmail)
    requires EmailLogTableExists(t)
    requires var row := QuoteEmailRows(t, quoteId)[0];
      var reply := post(VendorNotificationPath, VendorPayload(quoteId, row.contactEmail.value, row,
                                                              QuoteDataOf(t, quoteId, row, rd), rd));
      reply.Answered? && reply.status == 200 && reply.json == Some(PDict(m))
    requires "success" in m && "message" !in m
    ensures var email := QuoteEmailRows(t, quoteId)[0].contactEmail.value;
      VendorEmail(t, quoteId, rd, post, now)
      == Outcome(Error(500, Wrapped(VendorErrorPrefix, MissingField("message"))),
                 InsertEmailLog(t, quoteId, email, LogStatus(m["success"]), now))
  {
  }

  /** When the service answers 200 with both fields, the endpoint passes
      them on, names the vendor's address, and appends one email_log row
      ('sent' or 'failed') when the table exists. */
  lemma VendorEmailDelivered(t: Tables, quoteId: int, rd: Renderings, post: Poster, now: DateTime)
    requires QuoteEmailRows(t, quoteId) != []
    requires IsTrue(QuoteEmailRows(t, quoteId)[0].isEmailEnabled)
    requires Truthy(QuoteEmailRows(t, quoteId)[0].contactEmail)
    requires var row := QuoteEmailRows(t, quoteId)[0];
      Readable(post(VendorNotificationPath, VendorPayload(quoteId, row.contactEmail.value, row,
                                                          QuoteDataOf(t, quoteId, row, rd), rd)))
    ensures var row := QuoteEmailRows(t, quoteId)[0];
      var email := row.contactEmail.value;
      var m := post(VendorNotificationPath, VendorPayload(quoteId, email, row,
                                                          QuoteDataOf(t, quoteId, row, rd), rd)).json.value.entries;
      var o := VendorEmail(t, quoteId, rd, post, now);
      o.resp == Ok(EmailReply(m["success"], m["message"], quoteId, Some(email)))
      && o.tables == (if EmailLogTableExists(t)
                      then InsertEmailLog(t, quoteId, email, LogStatus(m["success"]), now)
                      else t)
  {
  }

  /** The statements of the `try` block, on the pooled connection. */
  method VendorEmailSteps(db: Db, quoteId: int, rd: Renderings, post: Poster, now: DateTime)
    returns (r: Result<EmailReply>)
    requires db.Idle()
    modifies db
    ensures db.Idle()
    ensures var a := VendorAttempt(old(db.committed), quoteId, rd, post, now);
      r == a.result && db.committed == a.tables
  {
    var rows := QuoteEmailRows(db.pending, quoteId);
    if rows == [] {
      return Failure(HTTPException(404, Text("Quote not found")));
    }
    var row := rows[0];
    if !IsTrue(row.isEmailEnabled) {
      return Success(EmailReply(PBool(false), PStr("Email notifications disabled for this vendor"), quoteId, None));
    }
    if !Truthy(row.contactEmail) {
      return Failure(HTTPException(400, Text("No email address found for this vendor")));
    }
    var email := row.contactEmail.value;
    var quoteData := QuoteDataOf(db.pending, quoteId, row, rd);
    var reply := post(VendorNotificationPath, VendorPayload(quoteId, email, row, quoteData, rd));
    var body := Deliver(reply);
    if body.Failure? {
      return Failure(body.error);
    }
    if EmailLogTableExists(db.pending) {
      var success := Field(body.value, "success");
      if success.Failure? {
        return Failure(success.error);
      }
      db.InsertEmailLog(quoteId, email, LogStatus(success.value), now);
      db.Commit();
    }
    r := Returned(body.value, quoteId, email);
  }

  /** `send_vendor_email`: one connection is taken from the pool and given
      back whatever happens, and the connection is left without pending
      writes. */
  method SendVendorEmail(db: Db, pool: Pool, quoteId: int, rd: Renderings, post: Poster, now: DateTime)
    returns (resp: Response<EmailReply>)
    requires db.Idle()
    modifies db, pool
    ensures db.Idle()
    ensures var o := VendorEmail(old(db.committed), quoteId, rd, post, now);
      resp == o.resp && db.committed == o.tables
    ensures pool.acquired == old(pool.acquired) + 1 && pool.released == old(pool.released) + 1
  {
    pool.GetConnection();
    var r := VendorEmailSteps(db, quoteId, rd, post, now);
    resp := Answer(r, VendorErrorPrefix);
    pool.ReleaseConnection();
  }

  // ------------------------------------ POST /quotes/{id}/owner-notification

  const OwnerErrorPrefix: string := "Failed to send owner notification: "

  /** The body of the `try` block of `send_owner_notification`: no email
      flag or contact-address check, and nothing written. */
  function OwnerAttempt(t: Tables, quoteId: int, ownerEmail: string, rd: Renderings, post: Poster): Result<EmailReply> {
    var rows := QuoteEmailRows(t, quoteId);
    if rows == [] then Failure(HTTPException(404, Text("Quote not found")))
    else
      var row := rows[0];
      var payload := OwnerPayload(quoteId, ownerEmail, row, QuoteDataOf(t, quoteId, row, rd), rd);
      var body :- Deliver(post(OwnerNotificationPath, payload));
      Returned(body, quoteId, ownerEmail)
  }

  /** The owner endpoint's answer. It succeeds exactly when the quote
      exists and the service answers 200 with both fields, and then names
      the configured owner address; otherwise it is a 500, or a 503 when
      the service cannot be reached. */
  function OwnerNotification(t: Tables, quoteId: int, ownerEmail: string, rd: Renderings, post: Poster)
    : (resp: Response<EmailReply>)
    ensures resp.Ok? <==> (QuoteEmailRows(t, quoteId) != [] &&
      var row := QuoteEmailRows(t, quoteId)[0];
      Readable(post(OwnerNotificationPath,
                    OwnerPayload(quoteId, ownerEmail, row, QuoteDataOf(t, quoteId, row, rd), rd))))
    ensures resp.Ok? ==> resp.body.recipient == Some(ownerEmail) && resp.body.quoteId == quoteId
    ensures resp.Error? ==> resp.status == 500 || resp == Error(503, Text("Email service unavailable"))
    ensures QuoteEmailRows(t, quoteId) == [] ==>
      resp == Error(500, Wrapped(OwnerErrorPrefix, HTTPException(404, Text("Quote not found"))))
  {
    Answer(OwnerAttempt(t, quoteId, ownerEmail, rd, post), OwnerErrorPrefix)
  }

  /** Unlike the vendor endpoint, the owner is notified whatever the
      vendor's email flag and address are: a readable reply is passed on. */
  lemma OwnerIgnoresVendorSettings(t: Tables, quoteId: int, ownerEmail: string, rd: Renderings, post: Poster)
    requires QuoteEmailRows(t, quoteId) != []
    requires var row := QuoteEmailRows(t, quoteId)[0];
      Readable(post(OwnerNotificationPath,
                    OwnerPayload(quoteId, ownerEmail, row, QuoteDataOf(t, quoteId, row, rd), rd)))
    ensures var row := QuoteEmailRows(t, quoteId)[0];
      var m := post(OwnerNotificationPath,
                    OwnerPayload(quoteId, ownerEmail, row, QuoteDataOf(t, quoteId, row, rd), rd)).json.value.entries;
      OwnerNotification(t, quoteId, ownerEmail, rd, post)
      == Ok(EmailReply(m["success"], m["message"], quoteId, Some(ownerEmail)))
  {
  }

  /** `send_owner_notification`: reads through one pooled connection and
      gives it back. */
  method SendOwnerNotification(db: Db, pool: Pool, quoteId: int, ownerEmail: string, rd: Renderings, post: Poster)
    returns (resp: Response<EmailReply>)
    modifies pool
    ensures resp == OwnerNotification(db.committed, quoteId, ownerEmail, rd, post)
    ensures pool.acquired == old(pool.acquired) + 1 && pool.released == old(pool.released) + 1
  {
    pool.GetConnection();
    var rows := QuoteEmailRows(db.committed, quoteId);
    if rows == [] {
      resp := Answer(Failure(HTTPException(404, Text("Quote not found"))), OwnerErrorPrefix);
    } else {
      var row := rows[0];
      var quoteData := QuoteDataOf(db.committed, quoteId, row, rd);
      var reply := post(OwnerNotificationPath, OwnerPayload(quoteId, ownerEmail, row, quoteData, rd));
      var body := Deliver(reply);
      if body.Failure? {
        resp := Answer(Failure(body.error), OwnerErrorPrefix);
      } else {
        resp := Answer(Returned(body.value, quoteId, ownerEmail), OwnerErrorPrefix);
      }
    }
    pool.ReleaseConnection();
  }
}
