/** The email service's `EmailService`: it turns a quote snapshot into a
    confirmation email for the vendor or a notification for the owner,
    attaches the quote PDF and hands the message to SMTP, unless it runs in
    simulation mode or lacks credentials. It never raises: every failure is
    an `EmailResponse` with `success` false. PDF generation and the SMTP
    exchange are parameters (what each produced, or the text of what it
    raised). */
module EmailService {
  import opened Common
  import opened PyStrings

  /** The settings the service reads. */
  datatype Settings = Settings(
    smtpServer: string, smtpPort: int,
    smtpUsername: Option<string>, smtpPassword: Option<string>,
    smtpUseTls: bool, fromEmail: Option<string>, fromName: string,
    simulation: bool)

  /** `settings.smtp_username and settings.smtp_password and settings.from_email`. */
  predicate Configured(s: Settings) {
    Truthy(s.smtpUsername) && Truthy(s.smtpPassword) && Truthy(s.fromEmail)
  }

  /** A field declared `Union[str, float, int]` in the request schema. */
  datatype Scalar = SText(text: string) | SFloat(f: real) | SInt(i: int)

  /** `str(x)` of such a field; a float's shortest repr is taken as given. */
  function Show(x: Scalar, floatText: real -> string): string {
    match x
    case SText(s) => s
    case SFloat(f) => floatText(f)
    case SInt(i) => IntToString(i)
  }

  datatype Destination = Destination(
    destination: string, airfreightPerKg: Scalar, arrivalDate: string, minWeight: Scalar, maxWeight: Scalar)

  datatype Size = Size(
    fishType: string, cutName: string, gradeName: string,
    weightRange: Scalar, pricePerKg: Scalar, quantity: Scalar)

  /** `VendorQuoteData`, the validated `quote_data`: the fields the two
      emails use. (`quote_valid_till` and `created_at` are required
      datetimes; they only feed template text, which is not modelled.) */
  datatype QuoteData = QuoteData(
    quoteId: int, vendorName: string, vendorCode: string, countryOfOrigin: string,
    fishType: string, destinations: seq<Destination>, sizes: seq<Size>,
    notes: Option<string>, priceNegotiable: bool, exclusiveOffer: bool)

  /** The result schema. */
  datatype EmailResponse = EmailResponse(success: bool, message: string, emailId: Option<string>)

  /** What a step inside the `try` did: finished, or raised an exception
      whose `str()` is `text`. */
  datatype Step = Done | Raised(text: string)

  // ---------------------------------------------------- owner message body

  /** The concatenation of `f(x)` over `xs`, as a `+=` loop builds it. */
  function ConcatMap<T>(xs: seq<T>, f: T -> string): string {
    if xs == [] then "" else ConcatMap(xs[..|xs| - 1], f) + f(xs[|xs| - 1])
  }

  lemma {:induction false} ConcatMapAppend<T>(a: seq<T>, b: seq<T>, f: T -> string)
    ensures ConcatMap(a + b, f) == ConcatMap(a, f) + ConcatMap(b, f)
    decreases |b|
  {
    if b != [] {
      assert (a + b)[..|a + b| - 1] == a + b[..|b| - 1];
      ConcatMapAppend(a, b[..|b| - 1], f);
    } else {
      assert a + b == a;
    }
  }

  /** One fragment per item, in item order: the fragment of item `i` sits
      right after those of the items before it. */
  lemma ConcatMapInOrder<T>(xs: seq<T>, f: T -> string, i: int)
    requires 0 <= i < |xs|
    ensures var start := |ConcatMap(xs[..i], f)|;
      start + |f(xs[i])| <= |ConcatMap(xs, f)|
      && ConcatMap(xs, f)[start..start + |f(xs[i])|] == f(xs[i])
  {
    assert xs == xs[..i] + [xs[i]] + xs[i + 1..];
    ConcatMapAppend(xs[..i] + [xs[i]], xs[i + 1..], f);
    ConcatMapAppend(xs[..i], [xs[i]], f);
    assert ConcatMap([xs[i]], f) == f(xs[i]) by {
      assert [xs[i]][..0] == [];
    }
  }

  /** The table row of one destination (the template's indentation and
      line breaks are not modelled). */
  function DestinationRow(d: Destination, floatText: real -> string): string {
    "<tr><td>" + d.destination + "</td><td>$" + Show(d.airfreightPerKg, floatText) + "/kg</td><td>"
      + d.arrivalDate + "</td><td>" + Show(d.minWeight, floatText) + " - " + Show(d.maxWeight, floatText)
      + " kg</td></tr>"
  }

  /** The table row of one size. */
  function SizeRow(p: Size, floatText: real -> string): string {
    "<tr><td>" + p.fishType + "</td><td>" + p.cutName + "</td><td>" + p.gradeName + "</td><td>"
      + Show(p.weightRange, floatText) + "</td><td>$" + Show(p.pricePerKg, floatText) + "/kg</td><td>"
      + Show(p.quantity, floatText) + "</td></tr>"
  }

  function DestinationRowOf(floatText: real -> string): Destination -> string {
    d => DestinationRow(d, floatText)
  }

  function SizeRowOf(floatText: real -> string): Size -> string {
    p => SizeRow(p, floatText)
  }

  /** The notes block, present exactly when the notes are truthy. */
  function NotesBlock(notes: Option<string>): (r: string)
    ensures r != "" <==> Truthy(notes)
  {
    if Truthy(notes) then "<div class=\"note\"><strong>Notes:</strong> " + notes.value + "</div>" else ""
  }

  function YesNo(b: bool): string {
    if b then "Yes" else "No"
  }

  /** The parts of the owner's HTML body that depend on the quote. */
  datatype OwnerBody = OwnerBody(
    destinationRows: string, productRows: string, notesBlock: string,
    negotiable: string, exclusive: string)

  lemma ConcatMapSnoc<T>(xs: seq<T>, i: int, f: T -> string)
    requires 0 <= i < |xs|
    ensures ConcatMap(xs[..i + 1], f) == ConcatMap(xs[..i], f) + f(xs[i])
  {
    assert xs[..i + 1][..i] == xs[..i];
  }

  /** The `destinations_html += ...` loop. */
  method DestinationRows(ds: seq<Destination>, floatText: real -> string) returns (html: string)
    ensures html == ConcatMap(ds, DestinationRowOf(floatText))
  {
    html := "";
    var i := 0;
    while i < |ds|
      invariant 0 <= i <= |ds|
      invariant html == ConcatMap(ds[..i], DestinationRowOf(floatText))
    {
      ConcatMapSnoc(ds, i, DestinationRowOf(floatText));
      html := html + DestinationRow(ds[i], floatText);
      i := i + 1;
    }
    assert ds[..i] == ds;
  }

  /** The `products_html += ...` loop. */
  method SizeRows(ps: seq<Size>, floatText: real -> string) returns (html: string)
    ensures html == ConcatMap(ps, SizeRowOf(floatText))
  {
    html := "";
    var j := 0;
    while j < |ps|
      invariant 0 <= j <= |ps|
      invariant html == ConcatMap(ps[..j], SizeRowOf(floatText))
    {
      ConcatMapSnoc(ps, j, SizeRowOf(floatText));
      html := html + SizeRow(ps[j], floatText);
      j := j + 1;
    }
    assert ps[..j] == ps;
  }

  /** `_create_owner_notification_body`: the two tables are grown row by
      row, one row per destination and one per size, in order. */
  method CreateOwnerNotificationBody(q: QuoteData, floatText: real -> string) returns (body: OwnerBody)
    ensures body == OwnerBodyOf(q, floatText)
  {
    var destinationsHtml := DestinationRows(q.destinations, floatText);
    var productsHtml := SizeRows(q.sizes, floatText);
    body := OwnerBody(destinationsHtml, productsHtml, NotesBlock(q.notes),
                      YesNo(q.priceNegotiable), YesNo(q.exclusiveOffer));
  }

  /** The owner body as a value, for the send function below. */
  function OwnerBodyOf(q: QuoteData, floatText: real -> string): OwnerBody {
    OwnerBody(ConcatMap(q.destinations, DestinationRowOf(floatText)),
              ConcatMap(q.sizes, SizeRowOf(floatText)),
              NotesBlock(q.notes), YesNo(q.priceNegotiable), YesNo(q.exclusiveOffer))
  }

  // ---------------------------------------------------------- the message

  /** The vendor body is a template filled with the vendor name, quote id,
      fish type, country of origin and valid-till date, and is kept only as
      a tag; the owner body is modelled. */
  datatype MailBody = VendorTemplate | OwnerTables(tables: OwnerBody)

  datatype Message = Message(sender: string, to: string, subject: string, attachment: string, body: MailBody)

  /** The keyword arguments of `aiosmtplib.send`. `startTls` true means
      `start_tls=True` is passed; false means the argument is not passed at
      all, which leaves the choice to the library's default. */
  datatype SmtpRequest = SmtpRequest(
    hostname: string, port: int, startTls: bool, username: Option<string>, password: Option<string>)

  /** SMTP, seen from the service: the request and message to what happened. */
  type Mailer = (SmtpRequest, Message) -> Step

  /** `_send_email`: STARTTLS is asked for exactly when `smtp_use_tls` is
      set; the server, port and credentials are passed either way. Its
      `except` re-raises, so the step's outcome is the mailer's. */
  function SmtpRequestOf(s: Settings): (r: SmtpRequest)
    ensures r.startTls <==> s.smtpUseTls
    ensures r.hostname == s.smtpServer && r.port == s.smtpPort
    ensures r.username == s.smtpUsername && r.password == s.smtpPassword
  {
    if s.smtpUseTls then SmtpRequest(s.smtpServer, s.smtpPort, true, s.smtpUsername, s.smtpPassword)
    else SmtpRequest(s.smtpServer, s.smtpPort, false, s.smtpUsername, s.smtpPassword)
  }

  /** `attachment; filename="quote_{id}_confirmation.pdf"`. */
  function AttachmentName(quoteId: int): string {
    "quote_" + IntToString(quoteId) + "_confirmation.pdf"
  }

  function Sender(s: Settings): string
    requires Configured(s)
  {
    s.fromName + " <" + s.fromEmail.value + ">"
  }

  function VendorMessage(s: Settings, vendorEmail: string, q: QuoteData): Message
    requires Configured(s)
  {
    Message(Sender(s), vendorEmail, "Quote Confirmation #" + IntToString(q.quoteId) + " - Blue Lotus Foods",
            AttachmentName(q.quoteId), VendorTemplate)
  }

  /** `centralTime` is the current US/Central time as the subject formats it. */
  function OwnerMessage(s: Settings, ownerEmail: string, vendorName: string, q: QuoteData,
                        centralTime: string, floatText: real -> string): Message
    requires Configured(s)
  {
    Message(Sender(s), ownerEmail,
            "New Quote Message - " + vendorName + " - quote #" + IntToString(q.quoteId) + " - " + centralTime,
            AttachmentName(q.quoteId), OwnerTables(OwnerBodyOf(q, floatText)))
  }

  /** Both emails carry the same PDF file name, addressed to their own
      recipient. */
  lemma MessagesShareAttachment(s: Settings, vendorEmail: string, ownerEmail: string, vendorName: string,
                                q: QuoteData, centralTime: string, floatText: real -> string)
    requires Configured(s)
    ensures VendorMessage(s, vendorEmail, q).attachment
         == OwnerMessage(s, ownerEmail, vendorName, q, centralTime, floatText).attachment
         == AttachmentName(q.quoteId)
    ensures VendorMessage(s, vendorEmail, q).to == vendorEmail
    ensures OwnerMessage(s, ownerEmail, vendorName, q, centralTime, floatText).to == ownerEmail
  {
  }

  // ------------------------------------------------------------- email ids

  const SimulationSuffix: string := "_simulation"

  function VendorEmailId(quoteId: int, simulated: bool): string {
    "quote_" + IntToString(quoteId) + (if simulated then SimulationSuffix else "")
  }

  function OwnerEmailId(quoteId: int, simulated: bool): string {
    "owner_notification_" + VendorEmailId(quoteId, simulated)
  }

  lemma IntToStringEndsInDigit(i: int)
    ensures IntToString(i) != [] && IsDigit(IntToString(i)[|IntToString(i)| - 1])
  {
    var n := if i < 0 then -i else i;
    assert NatToString(n) != [];
    assert IntToString(i)[|IntToString(i)| - 1] == NatToString(n)[|NatToString(n)| - 1];
  }

  /** Equal text in one frame means equal contents. */
  lemma SameFrame(p: string, u: string, v: string, q: string)
    requires p + u + q == p + v + q
    ensures u == v
  {
    assert |u| == |v|;
    assert u == (p + u + q)[|p|..|p| + |u|];
    assert v == (p + v + q)[|p|..|p| + |v|];
  }

  /** A number followed by nothing never reads as a number followed by
      the simulation suffix: the one ends in a digit, the other in 'n'. */
  lemma SuffixShows(a: int, b: int)
    ensures IntToString(a) != IntToString(b) + SimulationSuffix
  {
    IntToStringEndsInDigit(a);
    var w := IntToString(b) + SimulationSuffix;
    assert w[|w| - 1] == 'n';
  }

  /** `str(a) + x == str(b) + y`, with `x` and `y` each empty or the
      simulation suffix, pins both the number and the suffix. */
  lemma NumberThenSuffix(a: int, b: int, x: string, y: string)
    requires x == "" || x == SimulationSuffix
    requires y == "" || y == SimulationSuffix
    requires IntToString(a) + x == IntToString(b) + y
    ensures a == b && x == y
  {
    if x == y {
      assert IntToString(a) + x == "" + IntToString(a) + x;
      assert IntToString(b) + y == "" + IntToString(b) + y;
      SameFrame("", IntToString(a), IntToString(b), x);
      IntToStringInjective(a, b);
    } else if x == "" {
      assert IntToString(a) + x == IntToString(a);
      SuffixShows(a, b);
    } else {
      assert IntToString(b) + y == IntToString(b);
      SuffixShows(b, a);
    }
  }

  /** An email id names one quote and tells whether it was simulated. */
  lemma VendorEmailIdsIdentify(a: int, sa: bool, b: int, sb: bool)
    requires VendorEmailId(a, sa) == VendorEmailId(b, sb)
    ensures a == b && sa == sb
  {
    var x := if sa then SimulationSuffix else "";
    var y := if sb then SimulationSuffix else "";
    assert VendorEmailId(a, sa) == "quote_" + (IntToString(a) + x);
    assert VendorEmailId(b, sb) == "quote_" + (IntToString(b) + y);
    assert IntToString(a) + x == VendorEmailId(a, sa)[6..];
    assert IntToString(b) + y == VendorEmailId(b, sb)[6..];
    NumberThenSuffix(a, b, x, y);
  }

  /** Owner ids are told apart among themselves and never equal a vendor id. */
  lemma OwnerEmailIdsIdentify(a: int, sa: bool, b: int, sb: bool)
    ensures OwnerEmailId(a, sa) == OwnerEmailId(b, sb) ==> a == b && sa == sb
    ensures OwnerEmailId(a, sa) != VendorEmailId(b, sb)
  {
    if OwnerEmailId(a, sa) == OwnerEmailId(b, sb) {
      assert VendorEmailId(a, sa) == OwnerEmailId(a, sa)[19..];
      assert VendorEmailId(b, sb) == OwnerEmailId(b, sb)[19..];
      VendorEmailIdsIdentify(a, sa, b, sb);
    }
    assert OwnerEmailId(a, sa)[0] == 'o' && VendorEmailId(b, sb)[0] == 'q';
  }

  /** A PDF file name names one quote. */
  lemma AttachmentNamesIdentify(a: int, b: int)
    requires AttachmentName(a) == AttachmentName(b)
    ensures a == b
  {
    SameFrame("quote_", IntToString(a), IntToString(b), "_confirmation.pdf");
    IntToStringInjective(a, b);
  }

  // --------------------------------------------------- the send operations

  const NotConfiguredMessage: string := "Email service not configured (missing SMTP credentials)"
  const VendorFailurePrefix: string := "Failed to send email: "
  const OwnerFailurePrefix: string := "Failed to send owner notification email: "

  function Failed(prefix: string, text: string): EmailResponse {
    EmailResponse(false, prefix + text, None)
  }

  /** `send_vendor_quote_email`. In simulation mode only the PDF is made;
      otherwise missing credentials are reported before anything is
      attempted, then the PDF is made and the message sent. */
  function SendVendorQuoteEmail(s: Settings, vendorEmail: string, q: QuoteData, pdf: Step, mailer: Mailer)
    : (r: EmailResponse)
    ensures r.success <==> (pdf.Done? && (s.simulation
              || (Configured(s) && mailer(SmtpRequestOf(s), VendorMessage(s, vendorEmail, q)).Done?)))
    ensures r.success <==> r.emailId.Some?
    ensures r.success ==> r.emailId == Some(VendorEmailId(q.quoteId, s.simulation))
    ensures r.success && s.simulation ==> r.message == "Email simulation successful - PDF generated, SMTP skipped"
    ensures r.success && !s.simulation ==> r.message == "Email sent successfully"
    ensures !r.success ==> r.message == NotConfiguredMessage
                           || (|r.message| >= |VendorFailurePrefix| && r.message[..|VendorFailurePrefix|] == VendorFailurePrefix)
    ensures !s.simulation && !Configured(s) ==> r == EmailResponse(false, NotConfiguredMessage, None)
  {
    if s.simulation then
      if pdf.Raised? then Failed(VendorFailurePrefix, pdf.text)
      else EmailResponse(true, "Email simulation successful - PDF generated, SMTP skipped", Some(VendorEmailId(q.quoteId, true)))
    else if !Configured(s) then EmailResponse(false, NotConfiguredMessage, None)
    else if pdf.Raised? then Failed(VendorFailurePrefix, pdf.text)
    else match mailer(SmtpRequestOf(s), VendorMessage(s, vendorEmail, q))
      case Raised(e) => Failed(VendorFailurePrefix, e)
      case Done => EmailResponse(true, "Email sent successfully", Some(VendorEmailId(q.quoteId, false)))
  }

  /** Simulation mode and missing credentials never reach SMTP: the answer
      is the same whatever the mailer would have done. */
  lemma VendorSendSkipsSmtp(s: Settings, vendorEmail: string, q: QuoteData, pdf: Step, mailer: Mailer, other: Mailer)
    requires s.simulation || !Configured(s)
    ensures SendVendorQuoteEmail(s, vendorEmail, q, pdf, mailer) == SendVendorQuoteEmail(s, vendorEmail, q, pdf, other)
  {
  }

  /** `send_owner_notification_email`: the same decisions with the owner's
      messages and ids, the owner body and a subject stamped with the
      current Central time. */
  function SendOwnerNotificationEmail(s: Settings, ownerEmail: string, vendorName: string, q: QuoteData,
                                      centralTime: string, floatText: real -> string, pdf: Step, mailer: Mailer)
    : (r: EmailResponse)
    ensures r.success <==> (pdf.Done? && (s.simulation
              || (Configured(s) && mailer(SmtpRequestOf(s),
                                          OwnerMessage(s, ownerEmail, vendorName, q, centralTime, floatText)).Done?)))
    ensures r.success <==> r.emailId.Some?
    ensures r.success ==> r.emailId == Some(OwnerEmailId(q.quoteId, s.simulation))
    ensures r.success && s.simulation ==>
              r.message == "Owner notification email simulation successful - PDF generated, SMTP skipped"
    ensures r.success && !s.simulation ==> r.message == "Owner notification email sent successfully"
    ensures !r.success ==> r.message == NotConfiguredMessage
                           || (|r.message| >= |OwnerFailurePrefix| && r.message[..|OwnerFailurePrefix|] == OwnerFailurePrefix)
    ensures !s.simulation && !Configured(s) ==> r == EmailResponse(false, NotConfiguredMessage, None)
  {
    if s.simulation then
      if pdf.Raised? then Failed(OwnerFailurePrefix, pdf.text)
      else EmailResponse(true, "Owner notification email simulation successful - PDF generated, SMTP skipped",
                         Some(OwnerEmailId(q.quoteId, true)))
    else if !Configured(s) then EmailResponse(false, NotConfiguredMessage, None)
    else if pdf.Raised? then Failed(OwnerFailurePrefix, pdf.text)
    else match mailer(SmtpRequestOf(s), OwnerMessage(s, ownerEmail, vendorName, q, centralTime, floatText))
      case Raised(e) => Failed(OwnerFailurePrefix, e)
      case Done => EmailResponse(true, "Owner notification email sent successfully", Some(OwnerEmailId(q.quoteId, false)))
  }
}
