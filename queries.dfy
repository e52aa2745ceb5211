/** The meaning of every SQL statement the API issues, as pure functions
    over the tables. A SELECT yields its result rows in order (storage order
    where the statement has no ORDER BY); `fetchone` is `First`. */
module Queries {
  import opened Common
  import opened Tables
  import opened PyStrings
  import opened Ordering

  /** psycopg2's `cursor.fetchone()`: the first result row, if any. */
  function First<T>(rows: seq<T>): Option<T> {
    if rows == [] then None else Some(rows[0])
  }

  // ---------------------------------------------------------------- vendors

  /** `fetchone()` of GET_VENDOR_BY_NAME: the id of the first active vendor
      with exactly that name, in table order. */
  function VendorIdByName(vendors: seq<Vendor>, name: string): Option<int> {
    if vendors == [] then None
    else if vendors[0].name == name && vendors[0].active then Some(vendors[0].id)
    else VendorIdByName(vendors[1..], name)
  }

  /** GET_VENDOR_BY_NAME finds a vendor exactly when an active vendor has
      that name, and what it finds is one: an inactive vendor or one whose
      name differs only in case is not found. */
  lemma {:induction false} VendorIdByNameMatches(vendors: seq<Vendor>, name: string)
    ensures VendorIdByName(vendors, name).Some? <==> exists v :: v in vendors && v.name == name && v.active
    ensures VendorIdByName(vendors, name).Some? ==>
      exists v :: v in vendors && v.name == name && v.active && v.id == VendorIdByName(vendors, name).value
  {
    if vendors != [] {
      VendorIdByNameMatches(vendors[1..], name);
      assert forall v :: v in vendors <==> v == vendors[0] || v in vendors[1..];
    }
  }

  /** `MAX(id)` over a non-empty quote table. */
  function MaxQuoteId(qs: seq<Quote>): (m: int)
    requires qs != []
    ensures forall q :: q in qs ==> q.id <= m
    ensures exists q :: q in qs && q.id == m
  {
    if |qs| == 1 then qs[0].id
    else
      var rest := MaxQuoteId(qs[1..]);
      assert forall q :: q in qs ==> q == qs[0] || q in qs[1..];
      if qs[0].id >= rest then qs[0].id else rest
  }

  /** `COALESCE((SELECT MAX(id) + 1 FROM quote), 1)`: an id above every
      existing quote id, one above the largest, or 1 for an empty table. */
  function NextQuoteId(qs: seq<Quote>): (n: int)
    ensures qs == [] ==> n == 1
    ensures forall q :: q in qs ==> q.id < n
    ensures qs != [] ==> exists q :: q in qs && n == q.id + 1
  {
    if qs == [] then 1 else MaxQuoteId(qs) + 1
  }

  /** One row of GET_VENDOR_BY_CODE. PostgreSQL folds the unquoted alias
      nextQuoteId to the key `nextquoteid`. */
  datatype VendorByCodeRow = VendorByCodeRow(id: int, code: string, name: string, country: string, nextQuoteId: int)

  function VendorByCodeRowOf(v: Vendor, next: int): VendorByCodeRow {
    VendorByCodeRow(v.id, v.code, v.name, v.country, next)
  }

  /** GET_VENDOR_BY_CODE: the active vendors with exactly that code, each
      with the next-id hint. */
  function VendorsByCode(t: Tables, code: string): (r: seq<VendorByCodeRow>)
    ensures forall row :: row in r <==>
      exists v :: v in t.catalog.vendors && v.code == code && v.active && row == VendorByCodeRowOf(v, NextQuoteId(t.quotes))
    ensures r == [] <==> !exists v :: v in t.catalog.vendors && v.code == code && v.active
  {
    var m := Filter(t.catalog.vendors, (v: Vendor) => v.code == code && v.active);
    var next := NextQuoteId(t.quotes);
    assert m != [] ==> m[0] in m;
    Map(m, (v: Vendor) => VendorByCodeRowOf(v, next))
  }

  // ------------------------------------------------------------- dictionary

  /** The id/code/name/description shape of GET_DICTIONARY_BY_CATEGORY. */
  datatype DictionaryRow = DictionaryRow(id: int, code: string, name: string, description: Option<string>)

  function DictionaryRowOf(e: DictionaryEntry): DictionaryRow {
    DictionaryRow(e.id, e.code, e.name, e.description)
  }

  predicate EntryNameLe(a: DictionaryEntry, b: DictionaryEntry) {
    LexLe(a.name, b.name)
  }

  lemma EntryNameLeTotalPreorder()
    ensures TotalPreorder(EntryNameLe)
  {
    forall a: DictionaryEntry, b: DictionaryEntry ensures EntryNameLe(a, b) || EntryNameLe(b, a) {
      LexLeTotal(a.name, b.name);
    }
    forall a: DictionaryEntry, b: DictionaryEntry, c: DictionaryEntry | EntryNameLe(a, b) && EntryNameLe(b, c)
      ensures EntryNameLe(a, c)
    {
      LexLeTransitive(a.name, b.name, c.name);
    }
  }

  /** The `WHERE category = %s AND active = true` rows, in table order. */
  function ActiveInCategory(entries: seq<DictionaryEntry>, category: string): (r: seq<DictionaryEntry>)
    ensures forall e :: e in r <==> e in entries && e.category == category && e.active
  {
    if entries == [] then []
    else
      var rest := ActiveInCategory(entries[1..], category);
      assert forall e :: e in entries <==> e == entries[0] || e in entries[1..];
      if entries[0].category == category && entries[0].active then [entries[0]] + rest else rest
  }

  /** GET_DICTIONARY_BY_CATEGORY: exactly the active entries of the
      category, in id/code/name/description shape, ordered by name. */
  function DictionaryByCategory(c: Catalog, category: string): (r: seq<DictionaryRow>)
    ensures forall i, j :: 0 <= i < j < |r| ==> LexLe(r[i].name, r[j].name)
    ensures forall row :: row in r <==>
      exists e :: e in c.dictionary && e.category == category && e.active && row == DictionaryRowOf(e)
  {
    var m := ActiveInCategory(c.dictionary, category);
    var sorted := SortBy(m, EntryNameLe);
    EntryNameLeTotalPreorder();
    SameElements(m, sorted);
    Map(sorted, DictionaryRowOf)
  }

  /** Two sequences with the same multiset hold the same elements. */
  lemma SameElements<T>(a: seq<T>, b: seq<T>)
    requires multiset(a) == multiset(b)
    ensures forall x :: x in a <==> x in b
  {
    forall x ensures x in a <==> x in b {
      assert x in a <==> x in multiset(a);
      assert x in b <==> x in multiset(b);
    }
  }

  /** `fetchone()` of GET_DICTIONARY_BY_CODE: the id of the first active
      DESTINATION entry with exactly that code. */
  function DestinationIdByCode(entries: seq<DictionaryEntry>, code: string): Option<int> {
    if entries == [] then None
    else if entries[0].category == "DESTINATION" && entries[0].code == code && entries[0].active then Some(entries[0].id)
    else DestinationIdByCode(entries[1..], code)
  }

  /** GET_DICTIONARY_BY_CODE matches only active entries of category
      DESTINATION. */
  lemma {:induction false} DestinationIdByCodeMatches(entries: seq<DictionaryEntry>, code: string)
    ensures DestinationIdByCode(entries, code).Some? <==>
      exists e :: e in entries && e.category == "DESTINATION" && e.code == code && e.active
    ensures DestinationIdByCode(entries, code).Some? ==>
      exists e :: e in entries && e.category == "DESTINATION" && e.code == code && e.active
                 && e.id == DestinationIdByCode(entries, code).value
  {
    if entries != [] {
      DestinationIdByCodeMatches(entries[1..], code);
      assert forall e :: e in entries <==> e == entries[0] || e in entries[1..];
    }
  }

  // ------------------------------------------------------------------- fish

  datatype FishTypeRow = FishTypeRow(commonName: string, scientificName: string)

  predicate SpeciesIdLe(a: FishSpecies, b: FishSpecies) {
    a.id <= b.id
  }

  predicate IsActiveSpecies(f: FishSpecies) {
    f.active
  }

  /** The active species, ordered by id (the row set behind GET_FISH_TYPES). */
  function ActiveSpeciesById(c: Catalog): (r: seq<FishSpecies>)
    ensures forall i, j :: 0 <= i < j < |r| ==> r[i].id <= r[j].id
    ensures forall f :: f in r <==> f in c.fishSpecies && f.active
    ensures forall f: FishSpecies :: f.active ==> multiset(r)[f] == multiset(c.fishSpecies)[f]
  {
    var m := Filter(c.fishSpecies, IsActiveSpecies);
    var r := SortBy(m, SpeciesIdLe);
    forall f: FishSpecies | f.active ensures multiset(m)[f] == multiset(c.fishSpecies)[f] {
      FilterCounts(c.fishSpecies, IsActiveSpecies, f);
    }
    assert TotalPreorder(SpeciesIdLe);
    assert forall f :: f in r <==> f in multiset(r);
    assert forall f :: f in m <==> f in multiset(m);
    assert forall i, j :: 0 <= i < j < |r| ==> SpeciesIdLe(r[i], r[j]);
    r
  }

  /** GET_FISH_TYPES: common and scientific name of each active species,
      in id order. */
  function FishTypes(c: Catalog): (r: seq<FishTypeRow>)
    ensures |r| == |ActiveSpeciesById(c)|
    ensures forall i :: 0 <= i < |r| ==>
      r[i] == FishTypeRow(ActiveSpeciesById(c)[i].commonName, ActiveSpeciesById(c)[i].scientificName)
  {
    var s := ActiveSpeciesById(c);
    Map(s, (f: FishSpecies) => FishTypeRow(f.commonName, f.scientificName))
  }

  /** `ORDER BY name` of a list of names. */
  function SortNames(names: seq<string>): (r: seq<string>)
    ensures forall i, j :: 0 <= i < j < |r| ==> LexLe(r[i], r[j])
    ensures multiset(r) == multiset(names)
  {
    var r := SortBy(names, LexLe);
    forall a, b ensures LexLe(a, b) || LexLe(b, a) { LexLeTotal(a, b); }
    forall a, b, c | LexLe(a, b) && LexLe(b, c) ensures LexLe(a, c) { LexLeTransitive(a, b, c); }
    r
  }

  function CutName(c: FishCut): string { c.name }

  function GradeName(g: FishGrade): string { g.name }

  /** GET_FISH_CUTS: the name of every cut (no activity filter), by name. */
  function FishCutNames(c: Catalog): (r: seq<string>)
    ensures forall i, j :: 0 <= i < j < |r| ==> LexLe(r[i], r[j])
    ensures multiset(r) == multiset(Map(c.fishCuts, CutName))
  {
    SortNames(Map(c.fishCuts, CutName))
  }

  /** GET_FISH_GRADES: the name of every grade (no activity filter), by name. */
  function FishGradeNames(c: Catalog): (r: seq<string>)
    ensures forall i, j :: 0 <= i < j < |r| ==> LexLe(r[i], r[j])
    ensures multiset(r) == multiset(Map(c.fishGrades, GradeName))
  {
    SortNames(Map(c.fishGrades, GradeName))
  }

  /** `fetchone()` of GET_FISH_BY_NAME: the id of the first active species
      with that common name. */
  function FishIdByName(species: seq<FishSpecies>, name: string): Option<int> {
    if species == [] then None
    else if species[0].commonName == name && species[0].active then Some(species[0].id)
    else FishIdByName(species[1..], name)
  }

  lemma {:induction false} FishIdByNameMatches(species: seq<FishSpecies>, name: string)
    ensures FishIdByName(species, name).Some? <==> exists f :: f in species && f.commonName == name && f.active
    ensures FishIdByName(species, name).Some? ==>
      exists f :: f in species && f.commonName == name && f.active && f.id == FishIdByName(species, name).value
  {
    if species != [] {
      FishIdByNameMatches(species[1..], name);
      assert forall f :: f in species <==> f == species[0] || f in species[1..];
    }
  }

  /** `fetchone()` of GET_CUT_BY_NAME, which has no activity filter. */
  function CutIdByName(cuts: seq<FishCut>, name: string): Option<int> {
    if cuts == [] then None
    else if cuts[0].name == name then Some(cuts[0].id)
    else CutIdByName(cuts[1..], name)
  }

  lemma {:induction false} CutIdByNameMatches(cuts: seq<FishCut>, name: string)
    ensures CutIdByName(cuts, name).Some? <==> exists x :: x in cuts && x.name == name
    ensures CutIdByName(cuts, name).Some? ==>
      exists x :: x in cuts && x.name == name && x.id == CutIdByName(cuts, name).value
  {
    if cuts != [] {
      CutIdByNameMatches(cuts[1..], name);
      assert forall x :: x in cuts <==> x == cuts[0] || x in cuts[1..];
    }
  }

  /** `fetchone()` of GET_GRADE_BY_NAME, which has no activity filter. */
  function GradeIdByName(grades: seq<FishGrade>, name: string): Option<int> {
    if grades == [] then None
    else if grades[0].name == name then Some(grades[0].id)
    else GradeIdByName(grades[1..], name)
  }

  lemma {:induction false} GradeIdByNameMatches(grades: seq<FishGrade>, name: string)
    ensures GradeIdByName(grades, name).Some? <==> exists g :: g in grades && g.name == name
    ensures GradeIdByName(grades, name).Some? ==>
      exists g :: g in grades && g.name == name && g.id == GradeIdByName(grades, name).value
  {
    if grades != [] {
      GradeIdByNameMatches(grades[1..], name);
      assert forall g :: g in grades <==> g == grades[0] || g in grades[1..];
    }
  }

  // ---------------------------------------------------------------- inserts

  /** INSERT_QUOTE. PostgreSQL converts the date literal first (`parseDate`
      stands for its date input routine) and then enforces the primary key.
      The statement names six columns and leaves `created_at` out, so the
      column takes the schema's default, `createdAtDefault` (None when the
      schema has no default and the column is NULL). */
  function InsertQuote(t: Tables, id: int, vendorId: int, validTill: string, notes: string,
                       negotiable: bool, exclusive: bool,
                       parseDate: string -> Option<Date>, createdAtDefault: Option<DateTime>): Result<Tables>
  {
    var d := parseDate(validTill);
    if d.None? then Failure(InvalidDate(validTill))
    else if HasQuote(t, id) then Failure(UniqueViolation("quote", id))
    else Success(t.(quotes := t.quotes + [Quote(id, vendorId, d, Some(notes), Some(negotiable), Some(exclusive), createdAtDefault)]))
  }

  /** INSERT_QUOTE_DESTINATION. The arrival-date literal is the one refusal
      modelled; the others the driver or the columns can raise are left out. */
  function InsertQuoteDestination(t: Tables, quoteId: int, destinationId: int, airfreight: Decimal,
                                  arrival: string, minWeight: Decimal, maxWeight: Decimal,
                                  parseDate: string -> Option<Date>): Result<Tables>
  {
    var d := parseDate(arrival);
    if d.None? then Failure(InvalidDate(arrival))
    else Success(t.(quoteDestinations := t.quoteDestinations
                    + [QuoteDestination(quoteId, destinationId, airfreight, d.value, minWeight, maxWeight)]))
  }

  /** INSERT_QUOTE_PRODUCT. No refusal is modelled: the driver's and the
      columns' refusals are left out. */
  function InsertQuoteProduct(t: Tables, row: QuoteProduct): Tables {
    t.(quoteProducts := t.quoteProducts + [row])
  }

  // ------------------------------------------------------------ email reads

  /** One row of GET_VENDOR_QUOTE_FOR_EMAIL; the vendor columns come from a
      LEFT JOIN and are NULL when the quote's vendor row is missing. */
  datatype QuoteEmailRow = QuoteEmailRow(
    quoteId: int, vendorName: Option<string>, countryOfOrigin: Option<string>,
    quoteValidTill: Option<Date>, fishType: string, notes: Option<string>,
    priceNegotiable: Option<bool>, exclusiveOffer: Option<bool>, createdAt: Option<DateTime>,
    vendorCode: Option<string>, contactEmail: Option<string>, isEmailEnabled: Option<bool>)

  /** The common name of every species joined (inner join) to a product of
      the quote, with repeats, in product order. */
  function ProductFishNames(products: seq<QuoteProduct>, species: seq<FishSpecies>, quoteId: int): seq<string> {
    if products == [] then []
    else
      var p := products[0];
      var here := if p.quoteId == quoteId
        then var m := Filter(species, (f: FishSpecies) => f.id == p.fishId);
             Map(m, (f: FishSpecies) => f.commonName)
        else [];
      here + ProductFishNames(products[1..], species, quoteId)
  }

  /** `DISTINCT` inside an aggregate: PostgreSQL sorts the values and keeps
      one of each. */
  function DistinctNames(names: seq<string>): (r: seq<string>)
    ensures forall x :: x in r <==> x in names
    ensures forall i, j :: 0 <= i < j < |r| ==> LexLe(r[i], r[j]) && r[i] != r[j]
  {
    var sorted := SortNames(names);
    var r := Dedup(sorted);
    assert forall x :: x in sorted <==> x in multiset(sorted);
    assert forall x :: x in names <==> x in multiset(names);
    assert SortedBy(sorted, LexLe);
    DedupSorted(sorted, LexLe);
    forall a, b | LexLe(a, b) && LexLe(b, a) ensures a == b { LexLeAntisymmetric(a, b); }
    forall a, b, c | LexLe(a, b) && LexLe(b, c) ensures LexLe(a, c) { LexLeTransitive(a, b, c); }
    SortedAdjacentDistinct(r, LexLe);
    r
  }

  /** The fish_type column: `string_agg(DISTINCT common_name, ', ')` over the
      quote's products, or 'N/A' when that aggregate is NULL (no rows). */
  function FishTypeSummary(t: Tables, quoteId: int): string {
    var names := ProductFishNames(t.quoteProducts, t.catalog.fishSpecies, quoteId);
    if names == [] then "N/A" else Join(DistinctNames(names), ", ")
  }

  function EmailRowOf(q: Quote, v: Option<Vendor>, fishType: string): QuoteEmailRow {
    QuoteEmailRow(
      q.id,
      if v.Some? then Some(v.value.name) else None,
      if v.Some? then Some(v.value.country) else None,
      q.validTill, fishType, q.notes, q.priceNegotiable, q.exclusiveOffer, q.createdAt,
      if v.Some? then Some(v.value.code) else None,
      if v.Some? then v.value.contactEmail else None,
      if v.Some? then v.value.emailEnabled else None)
  }

  /** The first vendor row, in table order, that the quote's vendor_id
      names; None when there is none. */
  function FirstVendor(q: Quote, vendors: seq<Vendor>): (r: Option<Vendor>)
    ensures r.Some? <==> exists v :: v in vendors && v.id == q.vendorId
    ensures r.Some? ==> r.value in vendors && r.value.id == q.vendorId
  {
    var m := Filter(vendors, (v: Vendor) => v.id == q.vendorId);
    if m == [] then None
    else
      assert m[0] in m;
      Some(m[0])
  }

  /** The rows one quote contributes to a LEFT JOIN with vendors: one per
      matching vendor, or a single row of NULL vendor columns. */
  function LeftJoinVendor(q: Quote, vendors: seq<Vendor>, fishType: string): (r: seq<QuoteEmailRow>)
    ensures r != []
    ensures r[0] == EmailRowOf(q, FirstVendor(q, vendors), fishType)
  {
    var m := Filter(vendors, (v: Vendor) => v.id == q.vendorId);
    if m == [] then [EmailRowOf(q, None, fishType)]
    else Map(m, (v: Vendor) => EmailRowOf(q, Some(v), fishType))
  }

  function EmailRows(qs: seq<Quote>, t: Tables, quoteId: int): seq<QuoteEmailRow> {
    if qs == [] then []
    else
      (if qs[0].id == quoteId then LeftJoinVendor(qs[0], t.catalog.vendors, FishTypeSummary(t, quoteId)) else [])
      + EmailRows(qs[1..], t, quoteId)
  }

  /** GET_VENDOR_QUOTE_FOR_EMAIL. */
  function QuoteEmailRows(t: Tables, quoteId: int): seq<QuoteEmailRow> {
    EmailRows(t.quotes, t, quoteId)
  }

  lemma {:induction false} EmailRowsMatch(qs: seq<Quote>, t: Tables, quoteId: int)
    ensures EmailRows(qs, t, quoteId) != [] <==> exists q :: q in qs && q.id == quoteId
  {
    if qs != [] {
      EmailRowsMatch(qs[1..], t, quoteId);
      assert forall q :: q in qs <==> q == qs[0] || q in qs[1..];
    }
  }

  /** GET_VENDOR_QUOTE_FOR_EMAIL answers some row exactly when a quote has
      that id: an empty answer, the endpoints' "Quote not found", means no
      such quote. */
  lemma QuoteEmailRowsMatch(t: Tables, quoteId: int)
    ensures QuoteEmailRows(t, quoteId) != [] <==> HasQuote(t, quoteId)
  {
    EmailRowsMatch(t.quotes, t, quoteId);
  }

  lemma {:induction false} EmailRowsFirst(qs: seq<Quote>, t: Tables, quoteId: int, k: nat)
    requires k < |qs| && qs[k].id == quoteId
    requires forall j :: 0 <= j < k ==> qs[j].id != quoteId
    ensures EmailRows(qs, t, quoteId) != []
    ensures EmailRows(qs, t, quoteId)[0]
         == EmailRowOf(qs[k], FirstVendor(qs[k], t.catalog.vendors), FishTypeSummary(t, quoteId))
  {
    if k > 0 {
      EmailRowsFirst(qs[1..], t, quoteId, k - 1);
    }
  }

  /** The row the endpoints read (`fetchone`) is that of the first quote
      with the id, joined to its vendor when one exists: its contact email
      and email flag are that vendor's, and NULL for a missing vendor. */
  lemma QuoteEmailRowsFirst(t: Tables, quoteId: int, k: nat)
    requires k < |t.quotes| && t.quotes[k].id == quoteId
    requires forall j :: 0 <= j < k ==> t.quotes[j].id != quoteId
    ensures QuoteEmailRows(t, quoteId) != []
    ensures var row := QuoteEmailRows(t, quoteId)[0];
            var v := FirstVendor(t.quotes[k], t.catalog.vendors);
            && row == EmailRowOf(t.quotes[k], v, FishTypeSummary(t, quoteId))
            && row.contactEmail == (if v.Some? then v.value.contactEmail else None)
            && row.isEmailEnabled == (if v.Some? then v.value.emailEnabled else None)
  {
    EmailRowsFirst(t.quotes, t, quoteId, k);
  }

  /** One row of GET_QUOTE_DESTINATIONS. */
  datatype DestinationReadRow = DestinationReadRow(
    destination: string, airfreightPerKg: Decimal, arrivalDate: Date, minWeight: Decimal, maxWeight: Decimal)

  /** The row a quote_destination row and its dictionary entry give. */
  function DestinationReadOf(qd: QuoteDestination, d: DictionaryEntry): DestinationReadRow {
    DestinationReadRow(d.name, qd.airfreightPerKg, qd.arrivalDate, qd.minWeight, qd.maxWeight)
  }

  function DestinationMatches(qd: QuoteDestination, dictionary: seq<DictionaryEntry>): seq<DestinationReadRow> {
    var m := Filter(dictionary, (d: DictionaryEntry) => d.id == qd.destinationId);
    Map(m, (d: DictionaryEntry) => DestinationReadOf(qd, d))
  }

  function DestinationJoin(qds: seq<QuoteDestination>, dictionary: seq<DictionaryEntry>, quoteId: int): seq<DestinationReadRow> {
    if qds == [] then []
    else
      (if qds[0].quoteId == quoteId then DestinationMatches(qds[0], dictionary) else [])
      + DestinationJoin(qds[1..], dictionary, quoteId)
  }

  /** GET_QUOTE_DESTINATIONS: an inner join with the dictionary, with no
      category or activity filter. */
  function QuoteDestinationRows(t: Tables, quoteId: int): seq<DestinationReadRow> {
    DestinationJoin(t.quoteDestinations, t.catalog.dictionary, quoteId)
  }

  /** One row of GET_QUOTE_PRODUCTS. */
  datatype ProductReadRow = ProductReadRow(
    fishType: string, cutName: string, gradeName: string, weightRange: string,
    pricePerKg: Decimal, quantity: int)

  /** The row a quote_product row and its species, cut and grade give. */
  function ProductReadOf(p: QuoteProduct, f: FishSpecies, c: FishCut, g: FishGrade): ProductReadRow {
    ProductReadRow(f.commonName, c.name, g.name, p.weightRange, p.pricePerKg, p.quantity)
  }

  function GradeMatches(p: QuoteProduct, f: FishSpecies, c: FishCut, gs: seq<FishGrade>): seq<ProductReadRow> {
    Map(gs, (g: FishGrade) => ProductReadOf(p, f, c, g))
  }

  function CutMatches(p: QuoteProduct, f: FishSpecies, cs: seq<FishCut>, gs: seq<FishGrade>): seq<ProductReadRow> {
    if cs == [] then [] else GradeMatches(p, f, cs[0], gs) + CutMatches(p, f, cs[1..], gs)
  }

  function FishMatches(p: QuoteProduct, fs: seq<FishSpecies>, cs: seq<FishCut>, gs: seq<FishGrade>): seq<ProductReadRow> {
    if fs == [] then [] else CutMatches(p, fs[0], cs, gs) + FishMatches(p, fs[1..], cs, gs)
  }

  /** The rows one product contributes to the three-way inner join. */
  function ProductMatches(p: QuoteProduct, t: Tables): seq<ProductReadRow> {
    FishMatches(p,
      Filter(t.catalog.fishSpecies, (f: FishSpecies) => f.id == p.fishId),
      Filter(t.catalog.fishCuts, (c: FishCut) => c.id == p.cut),
      Filter(t.catalog.fishGrades, (g: FishGrade) => g.id == p.grade))
  }

  function ProductJoin(ps: seq<QuoteProduct>, t: Tables, quoteId: int): seq<ProductReadRow> {
    if ps == [] then []
    else
      (if ps[0].quoteId == quoteId then ProductMatches(ps[0], t) else [])
      + ProductJoin(ps[1..], t, quoteId)
  }

  /** GET_QUOTE_PRODUCTS: an inner join with species, cut and grade, with no
      activity filter. */
  function QuoteProductRows(t: Tables, quoteId: int): seq<ProductReadRow> {
    ProductJoin(t.quoteProducts, t, quoteId)
  }

  // ------------------------------------------------ email reads: properties

  /** A product of the quote and a species it names by id. */
  predicate JoinsSpecies(p: QuoteProduct, f: FishSpecies, quoteId: int) {
    p.quoteId == quoteId && f.id == p.fishId
  }

  /** The names the fish_type aggregate sees are exactly those of the
      species joined to some product of the quote. */
  lemma {:induction false} ProductFishNamesMatch(products: seq<QuoteProduct>, species: seq<FishSpecies>,
                                                 quoteId: int, x: string)
    ensures x in ProductFishNames(products, species, quoteId) <==>
      exists p, f :: p in products && f in species && JoinsSpecies(p, f, quoteId) && f.commonName == x
  {
    if products != [] {
      var p := products[0];
      ProductFishNamesMatch(products[1..], species, quoteId, x);
      assert forall q :: q in products <==> q == p || q in products[1..];
      if p.quoteId == quoteId {
        var m := Filter(species, (f: FishSpecies) => f.id == p.fishId);
        assert x in Map(m, (f: FishSpecies) => f.commonName) <==>
          exists f :: f in species && JoinsSpecies(p, f, quoteId) && f.commonName == x;
      }
    }
  }

  /** fish_type is 'N/A' exactly when no product of the quote joins a
      species; otherwise it is the distinct joined names, sorted, separated
      by ", ". */
  lemma FishTypeSummaryMeaning(t: Tables, quoteId: int)
    ensures var names := ProductFishNames(t.quoteProducts, t.catalog.fishSpecies, quoteId);
      && (names == [] <==>
            !exists p, f :: p in t.quoteProducts && f in t.catalog.fishSpecies && JoinsSpecies(p, f, quoteId))
      && (names == [] ==> FishTypeSummary(t, quoteId) == "N/A")
      && (names != [] ==> FishTypeSummary(t, quoteId) == Join(DistinctNames(names), ", "))
      && (forall x :: x in DistinctNames(names) <==>
            exists p, f :: p in t.quoteProducts && f in t.catalog.fishSpecies && JoinsSpecies(p, f, quoteId)
                           && f.commonName == x)
  {
    var names := ProductFishNames(t.quoteProducts, t.catalog.fishSpecies, quoteId);
    forall x ensures x in names <==> exists p, f :: p in t.quoteProducts && f in t.catalog.fishSpecies
                                                    && JoinsSpecies(p, f, quoteId) && f.commonName == x {
      ProductFishNamesMatch(t.quoteProducts, t.catalog.fishSpecies, quoteId, x);
    }
    if names != [] {
      assert names[0] in names;
    }
    if exists p, f :: p in t.quoteProducts && f in t.catalog.fishSpecies && JoinsSpecies(p, f, quoteId) {
      var p, f :| p in t.quoteProducts && f in t.catalog.fishSpecies && JoinsSpecies(p, f, quoteId);
      assert f.commonName in names;
    }
  }

  /** GET_QUOTE_DESTINATIONS as a set of rows: exactly the rows built from
      a quote_destination row of the quote and a dictionary entry with its
      destination id. */
  lemma {:induction false} DestinationJoinMatch(qds: seq<QuoteDestination>, dictionary: seq<DictionaryEntry>,
                                                quoteId: int, r: DestinationReadRow)
    ensures r in DestinationJoin(qds, dictionary, quoteId) <==>
      exists qd, d :: qd in qds && d in dictionary && qd.quoteId == quoteId && d.id == qd.destinationId
                      && r == DestinationReadOf(qd, d)
  {
    if qds != [] {
      DestinationJoinMatch(qds[1..], dictionary, quoteId, r);
      assert forall q :: q in qds <==> q == qds[0] || q in qds[1..];
    }
  }

  lemma {:induction false} DestinationJoinAppend(a: seq<QuoteDestination>, b: seq<QuoteDestination>,
                                                 dictionary: seq<DictionaryEntry>, quoteId: int)
    ensures DestinationJoin(a + b, dictionary, quoteId)
         == DestinationJoin(a, dictionary, quoteId) + DestinationJoin(b, dictionary, quoteId)
  {
    if a == [] {
      assert a + b == b;
    } else {
      assert (a + b)[0] == a[0] && (a + b)[1..] == a[1..] + b;
      DestinationJoinAppend(a[1..], b, dictionary, quoteId);
    }
  }

  /** The inner join drops a quote_destination row whose destination id
      matches no dictionary entry: the answer is as if it were absent. */
  lemma UnmatchedDestinationAddsNothing(qds: seq<QuoteDestination>, dictionary: seq<DictionaryEntry>,
                                        quoteId: int, i: int)
    requires 0 <= i < |qds|
    requires forall d :: d in dictionary ==> d.id != qds[i].destinationId
    ensures DestinationJoin(qds, dictionary, quoteId) == DestinationJoin(qds[..i] + qds[i + 1..], dictionary, quoteId)
  {
    var pre, one, post := qds[..i], [qds[i]], qds[i + 1..];
    assert qds == (pre + one) + post;
    assert DestinationMatches(qds[i], dictionary) == [];
    DestinationJoinAppend(pre + one, post, dictionary, quoteId);
    DestinationJoinAppend(pre, one, dictionary, quoteId);
    DestinationJoinAppend(pre, post, dictionary, quoteId);
  }

  /** A product of the quote with a species, cut and grade it names by id. */
  predicate JoinsProduct(p: QuoteProduct, f: FishSpecies, c: FishCut, g: FishGrade, quoteId: int) {
    p.quoteId == quoteId && f.id == p.fishId && c.id == p.cut && g.id == p.grade
  }

  lemma {:induction false} CutMatchesMatch(p: QuoteProduct, f: FishSpecies, cs: seq<FishCut>, gs: seq<FishGrade>,
                                           r: ProductReadRow)
    ensures r in CutMatches(p, f, cs, gs) <==> exists c, g :: c in cs && g in gs && r == ProductReadOf(p, f, c, g)
  {
    if cs != [] {
      CutMatchesMatch(p, f, cs[1..], gs, r);
      assert forall c :: c in cs <==> c == cs[0] || c in cs[1..];
    }
  }

  lemma {:induction false} FishMatchesMatch(p: QuoteProduct, fs: seq<FishSpecies>, cs: seq<FishCut>, gs: seq<FishGrade>,
                                            r: ProductReadRow)
    ensures r in FishMatches(p, fs, cs, gs) <==>
      exists f, c, g :: f in fs && c in cs && g in gs && r == ProductReadOf(p, f, c, g)
  {
    if fs != [] {
      CutMatchesMatch(p, fs[0], cs, gs, r);
      FishMatchesMatch(p, fs[1..], cs, gs, r);
      assert forall f :: f in fs <==> f == fs[0] || f in fs[1..];
    }
  }

  /** GET_QUOTE_PRODUCTS as a set of rows: exactly the rows built from a
      quote_product row of the quote and a species, cut and grade with its
      ids. */
  lemma {:induction false} ProductJoinMatch(ps: seq<QuoteProduct>, t: Tables, quoteId: int, r: ProductReadRow)
    ensures r in ProductJoin(ps, t, quoteId) <==>
      exists p, f, c, g :: p in ps && f in t.catalog.fishSpecies && c in t.catalog.fishCuts && g in t.catalog.fishGrades
                           && JoinsProduct(p, f, c, g, quoteId) && r == ProductReadOf(p, f, c, g)
  {
    if ps != [] {
      var p := ps[0];
      FishMatchesMatch(p,
        Filter(t.catalog.fishSpecies, (f: FishSpecies) => f.id == p.fishId),
        Filter(t.catalog.fishCuts, (c: FishCut) => c.id == p.cut),
        Filter(t.catalog.fishGrades, (g: FishGrade) => g.id == p.grade), r);
      ProductJoinMatch(ps[1..], t, quoteId, r);
      assert forall q :: q in ps <==> q == ps[0] || q in ps[1..];
    }
  }

  lemma {:induction false} ProductJoinAppend(a: seq<QuoteProduct>, b: seq<QuoteProduct>, t: Tables, quoteId: int)
    ensures ProductJoin(a + b, t, quoteId) == ProductJoin(a, t, quoteId) + ProductJoin(b, t, quoteId)
  {
    if a == [] {
      assert a + b == b;
    } else {
      assert (a + b)[0] == a[0] && (a + b)[1..] == a[1..] + b;
      ProductJoinAppend(a[1..], b, t, quoteId);
    }
  }

  /** The three-way inner join drops a quote_product row whose species,
      cut or grade is missing: the answer is as if it were absent. */
  lemma UnmatchedProductAddsNothing(ps: seq<QuoteProduct>, t: Tables, quoteId: int, i: int)
    requires 0 <= i < |ps|
    requires || (forall f :: f in t.catalog.fishSpecies ==> f.id != ps[i].fishId)
             || (forall c :: c in t.catalog.fishCuts ==> c.id != ps[i].cut)
             || (forall g :: g in t.catalog.fishGrades ==> g.id != ps[i].grade)
    ensures ProductJoin(ps, t, quoteId) == ProductJoin(ps[..i] + ps[i + 1..], t, quoteId)
  {
    var pre, one, post := ps[..i], [ps[i]], ps[i + 1..];
    assert ps == (pre + one) + post;
    var rows := ProductJoin(one, t, quoteId);
    if rows != [] {
      ProductJoinMatch(one, t, quoteId, rows[0]);
    }
    ProductJoinAppend(pre + one, post, t, quoteId);
    ProductJoinAppend(pre, one, t, quoteId);
    ProductJoinAppend(pre, post, t, quoteId);
  }

  /** CHECK_EMAIL_LOG_TABLE returns a row exactly when the table exists. */
  predicate EmailLogTableExists(t: Tables) {
    t.emailLog.Some?
  }

  /** INSERT_EMAIL_LOG; `sent_at` is `NOW()`. */
  function InsertEmailLog(t: Tables, quoteId: int, vendorEmail: string, status: string, now: DateTime): Tables
    requires EmailLogTableExists(t)
  {
    t.(emailLog := Some(t.emailLog.value + [EmailLogEntry(quoteId, vendorEmail, status, now)]))
  }
}
