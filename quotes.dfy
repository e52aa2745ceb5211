/** POST /quotes: a vendor submits a quote with its destinations and
    products, and the API records all of it in one transaction. */
module Quotes {
  import opened Common
  import opened Tables
  import opened PyStrings
  import opened Queries
  import opened Database

  /** One submitted destination; its label reads like "Boston (BOS)". */
  datatype DestinationInput = DestinationInput(
    destination: string, airfreightPerKg: Decimal, arrivalDate: string,
    minWeight: Decimal, maxWeight: Decimal)

  datatype ProductInput = ProductInput(
    fishCommonName: string, weightRange: string, cutName: string, gradeName: string,
    pricePerKg: Decimal, quantity: int)

  /** The request body; `id` is chosen by the caller. */
  datatype QuoteSubmission = QuoteSubmission(
    id: int, vendorName: string, quoteValidTill: string, notes: string,
    priceNegotiable: bool, exclusiveOffer: bool,
    destinations: seq<DestinationInput>, products: seq<ProductInput>)

  /** The success body. */
  datatype QuoteCreated = QuoteCreated(message: string, quoteId: int, id: int)

  // ------------------------------------------------------- destination code

  predicate IsCloseParen(c: char) {
    c == ')'
  }

  /** The destination code of a label: the text after its last '(', with
      every ')' at either end removed (DestinationCodeIsSplitStrip relates
      this to `split("(")[-1].strip(")")`). */
  function DestinationCode(text: string): string
    decreases |text|
  {
    if '(' in text then DestinationCode(text[1..]) else Strip(text, IsCloseParen)
  }

  /** A code never holds '(' and neither starts nor ends with ')'. */
  lemma {:induction false} DestinationCodeShape(text: string)
    ensures '(' !in DestinationCode(text)
    ensures var r := DestinationCode(text); r == [] || (r[0] != ')' && r[|r| - 1] != ')')
    ensures |DestinationCode(text)| <= |text|
    decreases |text|
  {
    if '(' in text {
      DestinationCodeShape(text[1..]);
    } else {
      var i := StripSlice(text, IsCloseParen);
      if '(' in Strip(text, IsCloseParen) {
        StripInside(text, IsCloseParen, '(');
      }
    }
  }

  /** The code is exactly Python's `text.split("(")[-1].strip(")")`. */
  lemma {:induction false} DestinationCodeIsSplitStrip(text: string)
    ensures DestinationCode(text) == Strip(AfterLast(text, '('), IsCloseParen)
    decreases |text|
  {
    if '(' in text {
      AfterLastTail(text, '(');
      DestinationCodeIsSplitStrip(text[1..]);
    } else {
      AfterLastOfNoSeparator(text, '(');
    }
  }

  /** Stripping the closing parenthesis off `code)`. */
  lemma StripClosing(code: string)
    requires code == [] || (code[0] != ')' && code[|code| - 1] != ')')
    ensures Strip(code + ")", IsCloseParen) == code
  {
    var s := code + ")";
    if code == [] {
      assert TrimLeft(s, IsCloseParen) == TrimLeft(s[1..], IsCloseParen);
      assert s[1..] == [];
    } else {
      assert s[0] == code[0];
      assert TrimLeft(s, IsCloseParen) == s;
      assert s[..|s| - 1] == code;
      assert TrimRight(s, IsCloseParen) == TrimRight(code, IsCloseParen);
    }
  }

  /** A label of the form `place(code)` yields `code`, whatever `place` is,
      provided the code itself has no '(' and no ')' at its ends. */
  lemma DestinationCodeOfLabel(place: string, code: string)
    requires '(' !in code
    requires code == [] || (code[0] != ')' && code[|code| - 1] != ')')
    ensures DestinationCode(place + "(" + code + ")") == code
  {
    var s := code + ")";
    assert ')' != '(';
    assert '(' !in s;
    var text := place + ['('] + s;
    assert place + "(" + code + ")" == text;
    DestinationCodeIsSplitStrip(text);
    AfterLastOfSeparator(place, '(', s);
    StripClosing(code);
  }

  /** "Boston (BOS)" yields "BOS". */
  lemma DestinationCodeExample()
    ensures DestinationCode("Boston (BOS)") == "BOS"
  {
    assert "Boston (BOS)" == "Boston " + "(" + "BOS" + ")";
    DestinationCodeOfLabel("Boston ", "BOS");
  }

  /** Only the part after the last '(' matters: "a (b) (c)" yields "c". */
  lemma DestinationCodeTakesLastParen(place: string, middle: string, code: string)
    requires '(' !in code
    ensures DestinationCode(place + "(" + middle + "(" + code) == DestinationCode(code)
  {
    var text := place + "(" + middle + "(" + code;
    assert text == (place + "(" + middle) + ['('] + code;
    DestinationCodeIsSplitStrip(text);
    DestinationCodeIsSplitStrip(code);
    AfterLastOfSeparator(place + "(" + middle, '(', code);
    AfterLastOfNoSeparator(code, '(');
  }

  /** Extraction is idempotent: a code extracts to itself. */
  lemma DestinationCodeIdempotent(text: string)
    ensures DestinationCode(DestinationCode(text)) == DestinationCode(text)
  {
    var c := DestinationCode(text);
    DestinationCodeShape(text);
    StripKeeps(c, IsCloseParen);
  }

  // ------------------------------------------------------ one child at a time

  /** The quote_destination row a submitted destination resolves to: the
      dictionary lookup of its code (a miss reads `destination.destination_id`,
      which `Destination` does not have), then the arrival-date conversion. */
  function DestinationRow(c: Catalog, quoteId: int, d: DestinationInput,
                          parseDate: string -> Option<Date>): Result<QuoteDestination>
  {
    var found := DestinationIdByCode(c.dictionary, DestinationCode(d.destination));
    if found.None? then Failure(AttributeError("Destination", "destination_id"))
    else
      var date := parseDate(d.arrivalDate);
      if date.None? then Failure(InvalidDate(d.arrivalDate))
      else Success(QuoteDestination(quoteId, found.value, d.airfreightPerKg, date.value, d.minWeight, d.maxWeight))
  }

  /** The quote_product row a submitted product resolves to: fish, then cut,
      then grade, each a 404 when missing. */
  function ProductRow(c: Catalog, quoteId: int, p: ProductInput): Result<QuoteProduct> {
    var fish := FishIdByName(c.fishSpecies, p.fishCommonName);
    if fish.None? then Failure(HTTPException(404, Text("Fish not found: " + p.fishCommonName)))
    else
      var cut := CutIdByName(c.fishCuts, p.cutName);
      if cut.None? then Failure(HTTPException(404, Text("Cut not found: " + p.cutName)))
      else
        var grade := GradeIdByName(c.fishGrades, p.gradeName);
        if grade.None? then Failure(HTTPException(404, Text("Grade not found: " + p.gradeName)))
        else Success(QuoteProduct(quoteId, fish.value, p.weightRange, cut.value, grade.value, p.pricePerKg, p.quantity))
  }

  /** One iteration of the destination loop, as the statements run: the code
      lookup, then the INSERT. */
  function DestinationStep(t: Tables, quoteId: int, d: DestinationInput,
                           parseDate: string -> Option<Date>): Result<Tables>
  {
    var found := DestinationIdByCode(t.catalog.dictionary, DestinationCode(d.destination));
    if found.None? then Failure(AttributeError("Destination", "destination_id"))
    else InsertQuoteDestination(t, quoteId, found.value, d.airfreightPerKg, d.arrivalDate, d.minWeight, d.maxWeight, parseDate)
  }

  /** The destination loop; the first failure ends it. */
  function InsertDestinations(t: Tables, quoteId: int, ds: seq<DestinationInput>,
                              parseDate: string -> Option<Date>): Result<Tables>
    decreases |ds|
  {
    if ds == [] then Success(t)
    else
      var t1 :- DestinationStep(t, quoteId, ds[0], parseDate);
      InsertDestinations(t1, quoteId, ds[1..], parseDate)
  }

  /** The product loop; the first failure ends it. */
  function InsertProducts(t: Tables, quoteId: int, ps: seq<ProductInput>): Result<Tables>
    decreases |ps|
  {
    if ps == [] then Success(t)
    else
      var row :- ProductRow(t.catalog, quoteId, ps[0]);
      InsertProducts(InsertQuoteProduct(t, row), quoteId, ps[1..])
  }

  // ------------------------------------------------- what the loops produce

  /** The rows the destinations resolve to, in order, or the first failure. */
  function DestinationRows(c: Catalog, quoteId: int, ds: seq<DestinationInput>,
                           parseDate: string -> Option<Date>): Result<seq<QuoteDestination>>
    decreases |ds|
  {
    if ds == [] then Success([])
    else
      var row :- DestinationRow(c, quoteId, ds[0], parseDate);
      var rest :- DestinationRows(c, quoteId, ds[1..], parseDate);
      Success([row] + rest)
  }

  /** The rows the products resolve to, in order, or the first failure. */
  function ProductRows(c: Catalog, quoteId: int, ps: seq<ProductInput>): Result<seq<QuoteProduct>>
    decreases |ps|
  {
    if ps == [] then Success([])
    else
      var row :- ProductRow(c, quoteId, ps[0]);
      var rest :- ProductRows(c, quoteId, ps[1..]);
      Success([row] + rest)
  }

  /** The destination loop fails exactly when some destination does not
      resolve, and otherwise appends the resolved rows and changes nothing
      else. */
  lemma {:induction false} InsertDestinationsAppends(t: Tables, quoteId: int, ds: seq<DestinationInput>,
                                                    parseDate: string -> Option<Date>)
    ensures var rows := DestinationRows(t.catalog, quoteId, ds, parseDate);
      InsertDestinations(t, quoteId, ds, parseDate)
        == if rows.Success? then Success(t.(quoteDestinations := t.quoteDestinations + rows.value))
           else Failure(rows.error)
    decreases |ds|
  {
    if ds != [] {
      var first := DestinationRow(t.catalog, quoteId, ds[0], parseDate);
      if first.Success? {
        var t1 := t.(quoteDestinations := t.quoteDestinations + [first.value]);
        assert DestinationStep(t, quoteId, ds[0], parseDate) == Success(t1);
        assert InsertDestinations(t, quoteId, ds, parseDate) == InsertDestinations(t1, quoteId, ds[1..], parseDate);
        InsertDestinationsAppends(t1, quoteId, ds[1..], parseDate);
        var rest := DestinationRows(t.catalog, quoteId, ds[1..], parseDate);
        if rest.Success? {
          assert DestinationRows(t.catalog, quoteId, ds, parseDate) == Success([first.value] + rest.value);
          assert t1.quoteDestinations + rest.value == t.quoteDestinations + ([first.value] + rest.value);
        } else {
          assert DestinationRows(t.catalog, quoteId, ds, parseDate) == Failure(rest.error);
        }
      } else {
        assert DestinationStep(t, quoteId, ds[0], parseDate) == Failure(first.error);
      }
    } else {
      assert t.quoteDestinations + [] == t.quoteDestinations;
    }
  }

  /** The same for products. */
  lemma {:induction false} InsertProductsAppends(t: Tables, quoteId: int, ps: seq<ProductInput>)
    ensures var rows := ProductRows(t.catalog, quoteId, ps);
      InsertProducts(t, quoteId, ps)
        == if rows.Success? then Success(t.(quoteProducts := t.quoteProducts + rows.value))
           else Failure(rows.error)
    decreases |ps|
  {
    if ps != [] {
      var first := ProductRow(t.catalog, quoteId, ps[0]);
      if first.Failure? {
        assert ProductRows(t.catalog, quoteId, ps) == Failure(first.error);
      } else {
        var t1 := InsertQuoteProduct(t, first.value);
        assert t1.catalog == t.catalog;
        assert InsertProducts(t, quoteId, ps) == InsertProducts(t1, quoteId, ps[1..]);
        InsertProductsAppends(t1, quoteId, ps[1..]);
        var rest := ProductRows(t.catalog, quoteId, ps[1..]);
        if rest.Success? {
          assert ProductRows(t.catalog, quoteId, ps) == Success([first.value] + rest.value);
          assert t1.quoteProducts + rest.value == t.quoteProducts + ([first.value] + rest.value);
        } else {
          assert ProductRows(t.catalog, quoteId, ps) == Failure(rest.error);
        }
      }
    } else {
      assert t.quoteProducts + [] == t.quoteProducts;
    }
  }

  /** The destinations resolve exactly when each of them does, and then
      the i-th row is the i-th destination's. */
  lemma {:induction false} DestinationRowsEach(c: Catalog, quoteId: int, ds: seq<DestinationInput>,
                                              parseDate: string -> Option<Date>)
    ensures DestinationRows(c, quoteId, ds, parseDate).Success? <==>
      forall i :: 0 <= i < |ds| ==> DestinationRow(c, quoteId, ds[i], parseDate).Success?
    ensures DestinationRows(c, quoteId, ds, parseDate).Success? ==>
      var rows := DestinationRows(c, quoteId, ds, parseDate).value;
      |rows| == |ds| && forall i :: 0 <= i < |ds| ==> DestinationRow(c, quoteId, ds[i], parseDate) == Success(rows[i])
    decreases |ds|
  {
    if ds != [] {
      DestinationRowsEach(c, quoteId, ds[1..], parseDate);
      assert forall i :: 1 <= i < |ds| ==> ds[i] == ds[1..][i - 1];
    }
  }

  /** The same for products. */
  lemma {:induction false} ProductRowsEach(c: Catalog, quoteId: int, ps: seq<ProductInput>)
    ensures ProductRows(c, quoteId, ps).Success? <==>
      forall i :: 0 <= i < |ps| ==> ProductRow(c, quoteId, ps[i]).Success?
    ensures ProductRows(c, quoteId, ps).Success? ==>
      var rows := ProductRows(c, quoteId, ps).value;
      |rows| == |ps| && forall i :: 0 <= i < |ps| ==> ProductRow(c, quoteId, ps[i]) == Success(rows[i])
    decreases |ps|
  {
    if ps != [] {
      ProductRowsEach(c, quoteId, ps[1..]);
      assert forall i :: 1 <= i < |ps| ==> ps[i] == ps[1..][i - 1];
    }
  }

  /** A failure is the error of the first destination that does not
      resolve; the ones after it are never tried. */
  lemma {:induction false} FirstFailingDestination(c: Catalog, quoteId: int, ds: seq<DestinationInput>,
                                                  parseDate: string -> Option<Date>) returns (k: nat)
    requires DestinationRows(c, quoteId, ds, parseDate).Failure?
    ensures k < |ds|
    ensures forall j :: 0 <= j < k ==> DestinationRow(c, quoteId, ds[j], parseDate).Success?
    ensures DestinationRow(c, quoteId, ds[k], parseDate) == Failure(DestinationRows(c, quoteId, ds, parseDate).error)
    decreases |ds|
  {
    if DestinationRow(c, quoteId, ds[0], parseDate).Failure? {
      k := 0;
    } else {
      var k1 := FirstFailingDestination(c, quoteId, ds[1..], parseDate);
      k := k1 + 1;
      assert forall j :: 1 <= j < k ==> ds[j] == ds[1..][j - 1];
      assert ds[k] == ds[1..][k1];
    }
  }

  /** The same for products. */
  lemma {:induction false} FirstFailingProduct(c: Catalog, quoteId: int, ps: seq<ProductInput>) returns (k: nat)
    requires ProductRows(c, quoteId, ps).Failure?
    ensures k < |ps|
    ensures forall j :: 0 <= j < k ==> ProductRow(c, quoteId, ps[j]).Success?
    ensures ProductRow(c, quoteId, ps[k]) == Failure(ProductRows(c, quoteId, ps).error)
    decreases |ps|
  {
    if ProductRow(c, quoteId, ps[0]).Failure? {
      k := 0;
    } else {
      var k1 := FirstFailingProduct(c, quoteId, ps[1..]);
      k := k1 + 1;
      assert forall j :: 1 <= j < k ==> ps[j] == ps[1..][j - 1];
      assert ps[k] == ps[1..][k1];
    }
  }

  /** Conversely, when every destination before the k-th resolves and the
      k-th does not, the k-th's error is the outcome. */
  lemma {:induction false} DestinationsStopAt(c: Catalog, quoteId: int, ds: seq<DestinationInput>,
                                             parseDate: string -> Option<Date>, k: nat)
    requires k < |ds|
    requires forall j :: 0 <= j < k ==> DestinationRow(c, quoteId, ds[j], parseDate).Success?
    requires DestinationRow(c, quoteId, ds[k], parseDate).Failure?
    ensures DestinationRows(c, quoteId, ds, parseDate) == Failure(DestinationRow(c, quoteId, ds[k], parseDate).error)
    decreases k
  {
    if k > 0 {
      assert forall j :: 1 <= j <= k ==> ds[j] == ds[1..][j - 1];
      DestinationsStopAt(c, quoteId, ds[1..], parseDate, k - 1);
    }
  }

  /** The same for products. */
  lemma {:induction false} ProductsStopAt(c: Catalog, quoteId: int, ps: seq<ProductInput>, k: nat)
    requires k < |ps|
    requires forall j :: 0 <= j < k ==> ProductRow(c, quoteId, ps[j]).Success?
    requires ProductRow(c, quoteId, ps[k]).Failure?
    ensures ProductRows(c, quoteId, ps) == Failure(ProductRow(c, quoteId, ps[k]).error)
    decreases k
  {
    if k > 0 {
      assert forall j :: 1 <= j <= k ==> ps[j] == ps[1..][j - 1];
      ProductsStopAt(c, quoteId, ps[1..], k - 1);
    }
  }

  // ------------------------------------------------------- the transaction

  /** The body of the `try` in `create_quote`, over the transaction's
      tables: vendor lookup, header INSERT, destinations, products. */
  function Execute(t: Tables, q: QuoteSubmission, parseDate: string -> Option<Date>, createdAtDefault: Option<DateTime>): Result<Tables> {
    var vendor := VendorIdByName(t.catalog.vendors, q.vendorName);
    if vendor.None? then Failure(HTTPException(404, Text("Vendor not found")))
    else
      var t1 :- InsertQuote(t, q.id, vendor.value, q.quoteValidTill, q.notes, q.priceNegotiable, q.exclusiveOffer, parseDate, createdAtDefault);
      var t2 :- InsertDestinations(t1, q.id, q.destinations, parseDate);
      InsertProducts(t2, q.id, q.products)
  }

  /** What the endpoint answers for an outcome of the `try` body: the
      success body echoing the caller's id, or 500 whatever was raised. */
  function QuoteResponse(r: Result<Tables>, q: QuoteSubmission): (resp: Response<QuoteCreated>)
    ensures resp.Ok? <==> r.Success?
    ensures resp.Ok? ==> resp.body.message == "Quote created successfully"
    ensures resp.Ok? ==> resp.body.quoteId == q.id && resp.body.id == q.id
    ensures resp.Error? ==> resp.status == 500 && resp.detail == Wrapped("Error creating quote: ", r.error)
  {
    if r.Success? then Ok(QuoteCreated("Quote created successfully", q.id, q.id))
    else Error(500, Wrapped("Error creating quote: ", r.error))
  }

  /** Everything the submission needs resolves: an active vendor of that
      name, a valid date, an unused id, and every child's references. */
  ghost predicate Accepted(t: Tables, q: QuoteSubmission, parseDate: string -> Option<Date>) {
    VendorIdByName(t.catalog.vendors, q.vendorName).Some?
    && parseDate(q.quoteValidTill).Some?
    && !HasQuote(t, q.id)
    && (forall i :: 0 <= i < |q.destinations| ==> DestinationRow(t.catalog, q.id, q.destinations[i], parseDate).Success?)
    && (forall i :: 0 <= i < |q.products| ==> ProductRow(t.catalog, q.id, q.products[i]).Success?)
  }

  /** The header row the transaction inserts. */
  function Header(t: Tables, q: QuoteSubmission, parseDate: string -> Option<Date>, createdAtDefault: Option<DateTime>): Quote
    requires VendorIdByName(t.catalog.vendors, q.vendorName).Some?
  {
    Quote(q.id, VendorIdByName(t.catalog.vendors, q.vendorName).value, parseDate(q.quoteValidTill), Some(q.notes),
          Some(q.priceNegotiable), Some(q.exclusiveOffer), createdAtDefault)
  }

  /** The transaction succeeds exactly when the submission is accepted, and
      then the tables gain the header, the destinations' rows and the
      products' rows, in submission order, and nothing else changes. */
  lemma ExecuteOutcome(t: Tables, q: QuoteSubmission, parseDate: string -> Option<Date>, createdAtDefault: Option<DateTime>)
    ensures Execute(t, q, parseDate, createdAtDefault).Success? <==> Accepted(t, q, parseDate)
    ensures Execute(t, q, parseDate, createdAtDefault).Success? ==>
      && DestinationRows(t.catalog, q.id, q.destinations, parseDate).Success?
      && ProductRows(t.catalog, q.id, q.products).Success?
      && Execute(t, q, parseDate, createdAtDefault).value == t.(
        quotes := t.quotes + [Header(t, q, parseDate, createdAtDefault)],
        quoteDestinations := t.quoteDestinations + DestinationRows(t.catalog, q.id, q.destinations, parseDate).value,
        quoteProducts := t.quoteProducts + ProductRows(t.catalog, q.id, q.products).value)
  {
    DestinationRowsEach(t.catalog, q.id, q.destinations, parseDate);
    ProductRowsEach(t.catalog, q.id, q.products);
    var vendor := VendorIdByName(t.catalog.vendors, q.vendorName);
    if vendor.Some? {
      var h := InsertQuote(t, q.id, vendor.value, q.quoteValidTill, q.notes, q.priceNegotiable, q.exclusiveOffer, parseDate, createdAtDefault);
      if h.Success? {
        var t1 := h.value;
        InsertDestinationsAppends(t1, q.id, q.destinations, parseDate);
        var d := InsertDestinations(t1, q.id, q.destinations, parseDate);
        if d.Success? {
          InsertProductsAppends(d.value, q.id, q.products);
        }
      }
    }
  }

  /** A committed quote has one destination row per submitted destination
      and one product row per submitted product, each the resolution of
      its own input. */
  lemma ExecuteRowsInOrder(t: Tables, q: QuoteSubmission, parseDate: string -> Option<Date>, createdAtDefault: Option<DateTime>)
    requires Execute(t, q, parseDate, createdAtDefault).Success?
    ensures var u := Execute(t, q, parseDate, createdAtDefault).value;
      && |u.quoteDestinations| == |t.quoteDestinations| + |q.destinations|
      && (forall i :: 0 <= i < |q.destinations| ==>
            DestinationRow(t.catalog, q.id, q.destinations[i], parseDate) == Success(u.quoteDestinations[|t.quoteDestinations| + i]))
      && |u.quoteProducts| == |t.quoteProducts| + |q.products|
      && (forall i :: 0 <= i < |q.products| ==>
            ProductRow(t.catalog, q.id, q.products[i]) == Success(u.quoteProducts[|t.quoteProducts| + i]))
  {
    ExecuteOutcome(t, q, parseDate, createdAtDefault);
    DestinationRowsEach(t.catalog, q.id, q.destinations, parseDate);
    ProductRowsEach(t.catalog, q.id, q.products);
  }

  /** A missing vendor is answered with 500, not 404: the broad `except`
      catches the HTTPException raised for it. */
  lemma MissingVendorIsServerError(t: Tables, q: QuoteSubmission, parseDate: string -> Option<Date>, createdAtDefault: Option<DateTime>)
    requires VendorIdByName(t.catalog.vendors, q.vendorName).None?
    ensures QuoteResponse(Execute(t, q, parseDate, createdAtDefault), q)
      == Error(500, Wrapped("Error creating quote: ", HTTPException(404, Text("Vendor not found"))))
  {
  }

  /** The first destination whose code does not resolve ends the request
      with 500 carrying the AttributeError of `destination.destination_id`,
      provided everything before it went through. */
  lemma UnknownDestinationIsAttributeError(t: Tables, q: QuoteSubmission, parseDate: string -> Option<Date>,
                                           createdAtDefault: Option<DateTime>, k: nat)
    requires VendorIdByName(t.catalog.vendors, q.vendorName).Some? && parseDate(q.quoteValidTill).Some? && !HasQuote(t, q.id)
    requires k < |q.destinations|
    requires forall j :: 0 <= j < k ==> DestinationRow(t.catalog, q.id, q.destinations[j], parseDate).Success?
    requires DestinationIdByCode(t.catalog.dictionary, DestinationCode(q.destinations[k].destination)).None?
    ensures QuoteResponse(Execute(t, q, parseDate, createdAtDefault), q)
      == Error(500, Wrapped("Error creating quote: ", AttributeError("Destination", "destination_id")))
  {
    var t1 := InsertQuote(t, q.id, VendorIdByName(t.catalog.vendors, q.vendorName).value, q.quoteValidTill, q.notes,
                          q.priceNegotiable, q.exclusiveOffer, parseDate, createdAtDefault).value;
    DestinationsStopAt(t.catalog, q.id, q.destinations, parseDate, k);
    InsertDestinationsAppends(t1, q.id, q.destinations, parseDate);
  }

  /** The first product whose fish, cut or grade is missing ends the request
      with 500 carrying that lookup's 404, provided everything before it
      went through. */
  lemma UnknownProductIsServerError(t: Tables, q: QuoteSubmission, parseDate: string -> Option<Date>,
                                    createdAtDefault: Option<DateTime>, k: nat)
    requires k < |q.products|
    requires Accepted(t, q.(products := q.products[..k]), parseDate)
    requires ProductRow(t.catalog, q.id, q.products[k]).Failure?
    ensures ProductRow(t.catalog, q.id, q.products[k]).error.HTTPException?
    ensures ProductRow(t.catalog, q.id, q.products[k]).error.status == 404
    ensures QuoteResponse(Execute(t, q, parseDate, createdAtDefault), q)
      == Error(500, Wrapped("Error creating quote: ", ProductRow(t.catalog, q.id, q.products[k]).error))
  {
    var vid := VendorIdByName(t.catalog.vendors, q.vendorName).value;
    var t1 := InsertQuote(t, q.id, vid, q.quoteValidTill, q.notes, q.priceNegotiable, q.exclusiveOffer, parseDate, createdAtDefault).value;
    DestinationRowsEach(t.catalog, q.id, q.destinations, parseDate);
    InsertDestinationsAppends(t1, q.id, q.destinations, parseDate);
    var t2 := InsertDestinations(t1, q.id, q.destinations, parseDate).value;
    assert forall j :: 0 <= j < k ==> q.products[j] == q.products[..k][j];
    ProductsStopAt(t.catalog, q.id, q.products, k);
    InsertProductsAppends(t2, q.id, q.products);
  }

  /** A caller-supplied id that is already taken violates the primary key:
      the request fails with 500 and nothing is written. */
  lemma DuplicateIdIsServerError(t: Tables, q: QuoteSubmission, parseDate: string -> Option<Date>, createdAtDefault: Option<DateTime>)
    requires VendorIdByName(t.catalog.vendors, q.vendorName).Some? && parseDate(q.quoteValidTill).Some?
    requires HasQuote(t, q.id)
    ensures QuoteResponse(Execute(t, q, parseDate, createdAtDefault), q)
      == Error(500, Wrapped("Error creating quote: ", UniqueViolation("quote", q.id)))
  {
  }

  /** The nextQuoteId hint that GET /vendors returns is never taken, so a
      submission that uses it cannot fail on the primary key. */
  lemma NextQuoteIdIsFree(t: Tables)
    ensures !HasQuote(t, NextQuoteId(t.quotes))
  {
    forall x | x in t.quotes ensures x.id != NextQuoteId(t.quotes) {
      assert x.id < NextQuoteId(t.quotes);
    }
  }

  /** A committed quote keeps the quote ids unique. */
  lemma ExecuteKeepsQuoteKeys(t: Tables, q: QuoteSubmission, parseDate: string -> Option<Date>, createdAtDefault: Option<DateTime>)
    requires QuoteKeysUnique(t)
    requires Execute(t, q, parseDate, createdAtDefault).Success?
    ensures QuoteKeysUnique(Execute(t, q, parseDate, createdAtDefault).value)
  {
    ExecuteOutcome(t, q, parseDate, createdAtDefault);
    var u := Execute(t, q, parseDate, createdAtDefault).value;
    forall i, j | 0 <= i < j < |u.quotes| ensures u.quotes[i].id != u.quotes[j].id {
      if j == |t.quotes| {
        assert u.quotes[i] in t.quotes;
      } else {
        assert u.quotes[i] == t.quotes[i] && u.quotes[j] == t.quotes[j];
      }
    }
  }

  // --------------------------------------------------------- the endpoint

  /** The destination loop of the `try` body, statement by statement; a
      raise is an early return of the exception. */
  method RunDestinations(db: Db, quoteId: int, ds: seq<DestinationInput>, parseDate: string -> Option<Date>)
    returns (r: Result<()>)
    modifies db
    ensures db.committed == old(db.committed)
    ensures var e := InsertDestinations(old(db.pending), quoteId, ds, parseDate);
      (e.Success? ==> r.Success? && db.pending == e.value) && (e.Failure? ==> r == Failure(e.error))
  {
    var i := 0;
    while i < |ds|
      invariant 0 <= i <= |ds|
      invariant db.committed == old(db.committed)
      invariant InsertDestinations(db.pending, quoteId, ds[i..], parseDate) == InsertDestinations(old(db.pending), quoteId, ds, parseDate)
    {
      assert ds[i..][0] == ds[i] && ds[i..][1..] == ds[i + 1..];
      var d := ds[i];
      var code := DestinationCode(d.destination);
      var found := DestinationIdByCode(db.pending.catalog.dictionary, code);
      if found.None? {
        return Failure(AttributeError("Destination", "destination_id"));
      }
      var s := db.InsertQuoteDestination(quoteId, found.value, d.airfreightPerKg, d.arrivalDate, d.minWeight, d.maxWeight, parseDate);
      if s.Failure? {
        return Failure(s.error);
      }
      i := i + 1;
    }
    return Success(());
  }

  /** The product loop of the `try` body. */
  method RunProducts(db: Db, quoteId: int, ps: seq<ProductInput>) returns (r: Result<()>)
    modifies db
    ensures db.committed == old(db.committed)
    ensures var e := InsertProducts(old(db.pending), quoteId, ps);
      (e.Success? ==> r.Success? && db.pending == e.value) && (e.Failure? ==> r == Failure(e.error))
  {
    var i := 0;
    while i < |ps|
      invariant 0 <= i <= |ps|
      invariant db.committed == old(db.committed)
      invariant InsertProducts(db.pending, quoteId, ps[i..]) == InsertProducts(old(db.pending), quoteId, ps)
    {
      assert ps[i..][0] == ps[i] && ps[i..][1..] == ps[i + 1..];
      var p := ps[i];
      var fish := FishIdByName(db.pending.catalog.fishSpecies, p.fishCommonName);
      if fish.None? {
        return Failure(HTTPException(404, Text("Fish not found: " + p.fishCommonName)));
      }
      var cut := CutIdByName(db.pending.catalog.fishCuts, p.cutName);
      if cut.None? {
        return Failure(HTTPException(404, Text("Cut not found: " + p.cutName)));
      }
      var grade := GradeIdByName(db.pending.catalog.fishGrades, p.gradeName);
      if grade.None? {
        return Failure(HTTPException(404, Text("Grade not found: " + p.gradeName)));
      }
      db.InsertQuoteProduct(QuoteProduct(quoteId, fish.value, p.weightRange, cut.value, grade.value, p.pricePerKg, p.quantity));
      i := i + 1;
    }
    return Success(());
  }

  /** The whole `try` body on the connection's transaction. */
  method RunTransaction(db: Db, q: QuoteSubmission, parseDate: string -> Option<Date>, createdAtDefault: Option<DateTime>)
    returns (r: Result<()>)
    modifies db
    ensures db.committed == old(db.committed)
    ensures var e := Execute(old(db.pending), q, parseDate, createdAtDefault);
      (e.Success? ==> r.Success? && db.pending == e.value) && (e.Failure? ==> r == Failure(e.error))
  {
    var vendor := VendorIdByName(db.pending.catalog.vendors, q.vendorName);
    if vendor.None? {
      return Failure(HTTPException(404, Text("Vendor not found")));
    }
    var h := db.InsertQuote(q.id, vendor.value, q.quoteValidTill, q.notes, q.priceNegotiable, q.exclusiveOffer, parseDate, createdAtDefault);
    if h.Failure? {
      return Failure(h.error);
    }
    r := RunDestinations(db, q.id, q.destinations, parseDate);
    if r.Failure? {
      return;
    }
    r := RunProducts(db, q.id, q.products);
  }

  /** `create_quote`: all or nothing. On success the committed tables are
      what the transaction built; on any failure they are exactly as before.
      Either way the transaction is closed and the connection taken from
      the pool is given back once. */
  method CreateQuote(db: Db, pool: Pool, q: QuoteSubmission, parseDate: string -> Option<Date>, createdAtDefault: Option<DateTime>)
    returns (resp: Response<QuoteCreated>)
    requires db.Idle()
    modifies db, pool
    ensures var e := Execute(old(db.committed), q, parseDate, createdAtDefault);
      (e.Success? ==> db.committed == e.value) && (e.Failure? ==> db.committed == old(db.committed))
    ensures db.Idle()
    ensures resp == QuoteResponse(Execute(old(db.committed), q, parseDate, createdAtDefault), q)
    ensures pool.acquired == old(pool.acquired) + 1 && pool.released == old(pool.released) + 1
  {
    pool.GetConnection();
    var r := RunTransaction(db, q, parseDate, createdAtDefault);
    if r.Success? {
      db.Commit();
      resp := Ok(QuoteCreated("Quote created successfully", q.id, q.id));
    } else {
      db.Rollback();
      resp := Error(500, Wrapped("Error creating quote: ", r.error));
    }
    pool.ReleaseConnection();
  }
}
