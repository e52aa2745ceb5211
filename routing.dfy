/** How the API's two email calls meet the email service's routes. The
    email service mounts its email router under `/email` with a single POST
    route, `/vendor-quote`; the API posts to `/email/vendor-notification`
    and `/email/owner-notification`, neither of which is mounted. This
    module states the routes as written, shows that every call then ends
    in the service's 404, and gives the route table the two sides
    evidently intend, with the property that each API call reaches the
    handler for its payload. */
module Routing {
  import opened Common
  import opened Tables
  import opened Queries
  import opened Notification

  /** The POST handlers of the email service, and the one it evidently
      lacks: `EmailService.send_owner_notification_email` exists but no
      route calls it. */
  datatype Handler = VendorQuoteEmail | TestEmail | OwnerNotificationEmail

  /** The POST routes the email service mounts: router prefix plus path. */
  function MountedPostRoutes(): (routes: map<string, Handler>)
    ensures routes.Keys == {"/email/vendor-quote", "/test/test-email"}
    ensures routes["/email/vendor-quote"] == VendorQuoteEmail
  {
    map["/email/vendor-quote" := VendorQuoteEmail, "/test/test-email" := TestEmail]
  }

  /** The request fields each handler's body schema requires. */
  function RequestFields(h: Handler): set<string> {
    match h
    case VendorQuoteEmail => {"quote_id", "vendor_email", "vendor_name", "quote_data"}
    case OwnerNotificationEmail => {"quote_id", "owner_email", "vendor_name", "quote_data"}
    case TestEmail => {}
  }

  /** FastAPI's answer to a POST on a path it does not know. */
  const NotFound: ServiceReply :=
    Answered(404, "{\"detail\":\"Not Found\"}", Some(PDict(map["detail" := PStr("Not Found")])))

  /** The email service behind a route table: a known path runs its
      handler, any other is a 404. */
  function Service(routes: map<string, Handler>, handle: (Handler, PyValue) -> ServiceReply): Poster {
    (path: string, payload: PyValue) => if path in routes then handle(routes[path], payload) else NotFound
  }

  lemma UnknownPathNotFound(routes: map<string, Handler>, handle: (Handler, PyValue) -> ServiceReply,
                            path: string, payload: PyValue)
    requires path !in routes
    ensures Service(routes, handle)(path, payload) == NotFound
  {
  }

  /** As written, neither path the API posts to is mounted. */
  lemma ApiPathsUnmounted()
    ensures VendorNotificationPath !in MountedPostRoutes()
    ensures OwnerNotificationPath !in MountedPostRoutes()
  {
  }

  /** Consequently a vendor whose emails are enabled and who has an address
      never gets an email: whatever the handlers would do, the endpoint
      answers 500 wrapping the service's 404, and nothing is logged. */
  lemma AsWrittenVendorEmailFails(t: Tables, quoteId: int, rd: Renderings,
                                  handle: (Handler, PyValue) -> ServiceReply, now: DateTime)
    requires QuoteEmailRows(t, quoteId) != []
    requires IsTrue(QuoteEmailRows(t, quoteId)[0].isEmailEnabled)
    requires Truthy(QuoteEmailRows(t, quoteId)[0].contactEmail)
    ensures VendorEmail(t, quoteId, rd, Service(MountedPostRoutes(), handle), now)
         == Outcome(Error(500, Wrapped(VendorErrorPrefix,
                      HTTPException(404, Text("Email service error: " + NotFound.text)))), t)
  {
    ApiPathsUnmounted();
    var row := QuoteEmailRows(t, quoteId)[0];
    var post := Service(MountedPostRoutes(), handle);
    var payload := VendorPayload(quoteId, row.contactEmail.value, row, QuoteDataOf(t, quoteId, row, rd), rd);
    UnknownPathNotFound(MountedPostRoutes(), handle, VendorNotificationPath, payload);
    VendorEmailServiceFailures(t, quoteId, rd, post, now);
  }

  /** And the owner is never notified. */
  lemma AsWrittenOwnerNotificationFails(t: Tables, quoteId: int, ownerEmail: string, rd: Renderings,
                                        handle: (Handler, PyValue) -> ServiceReply)
    requires QuoteEmailRows(t, quoteId) != []
    ensures OwnerNotification(t, quoteId, ownerEmail, rd, Service(MountedPostRoutes(), handle))
         == Error(500, Wrapped(OwnerErrorPrefix,
                      HTTPException(404, Text("Email service error: " + NotFound.text))))
  {
    ApiPathsUnmounted();
    var row := QuoteEmailRows(t, quoteId)[0];
    var post := Service(MountedPostRoutes(), handle);
    var payload := OwnerPayload(quoteId, ownerEmail, row, QuoteDataOf(t, quoteId, row, rd), rd);
    UnknownPathNotFound(MountedPostRoutes(), handle, OwnerNotificationPath, payload);
  }

  /** The route table both sides evidently intend: the paths the API posts
      to are mounted, the vendor one on the vendor-quote handler and the
      owner one on an owner-notification handler. */
  function IntendedPostRoutes(): map<string, Handler> {
    MountedPostRoutes()[VendorNotificationPath := VendorQuoteEmail][OwnerNotificationPath := OwnerNotificationEmail]
  }

  /** With the intended routes each call of the API reaches the handler
      whose request schema has exactly the payload's fields. */
  lemma IntendedRoutesReachHandlers(quoteId: int, email: string, row: QuoteEmailRow, quoteData: PyValue,
                                    rd: Renderings, handle: (Handler, PyValue) -> ServiceReply)
    ensures var vendor := VendorPayload(quoteId, email, row, quoteData, rd);
      VendorNotificationPath in IntendedPostRoutes()
      && Service(IntendedPostRoutes(), handle)(VendorNotificationPath, vendor) == handle(VendorQuoteEmail, vendor)
      && vendor.entries.Keys == RequestFields(IntendedPostRoutes()[VendorNotificationPath])
    ensures var owner := OwnerPayload(quoteId, email, row, quoteData, rd);
      OwnerNotificationPath in IntendedPostRoutes()
      && Service(IntendedPostRoutes(), handle)(OwnerNotificationPath, owner) == handle(OwnerNotificationEmail, owner)
      && owner.entries.Keys == RequestFields(IntendedPostRoutes()[OwnerNotificationPath])
  {
  }

  /** Under the intended routes the vendor endpoint's answer is what the
      vendor-quote handler replies, and the routes already mounted keep
      their handlers. */
  lemma IntendedVendorEmailUsesHandler(t: Tables, quoteId: int, rd: Renderings,
                                       handle: (Handler, PyValue) -> ServiceReply, now: DateTime)
    requires QuoteEmailRows(t, quoteId) != []
    requires IsTrue(QuoteEmailRows(t, quoteId)[0].isEmailEnabled)
    requires Truthy(QuoteEmailRows(t, quoteId)[0].contactEmail)
    ensures var row := QuoteEmailRows(t, quoteId)[0];
      var payload := VendorPayload(quoteId, row.contactEmail.value, row, QuoteDataOf(t, quoteId, row, rd), rd);
      var o := VendorEmail(t, quoteId, rd, Service(IntendedPostRoutes(), handle), now);
      (o.resp.Ok? <==> Readable(handle(VendorQuoteEmail, payload)))
    ensures forall p :: p in MountedPostRoutes() ==> p in IntendedPostRoutes() && IntendedPostRoutes()[p] == MountedPostRoutes()[p]
  {
  }
}
