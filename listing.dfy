/** The read-only endpoints: GET /dictionary/{category}, GET /vendors/{code}
    and GET /fish/types, /fish/cut, /fish/grade. Each takes a connection
    from the pool, runs one SELECT, answers 404 when it returns nothing, and
    gives the connection back whatever happens. */
module Listing {
  import opened Common
  import opened Tables
  import opened PyStrings
  import opened Queries
  import opened Database

  /** `if not rows: raise HTTPException(404, detail)` then `return rows`. */
  function RowsOr404<T>(rows: seq<T>, detail: string): (resp: Response<seq<T>>)
    ensures resp.Ok? <==> rows != []
    ensures resp.Ok? ==> resp.body == rows
    ensures resp.Error? ==> resp == Error(404, Text(detail))
  {
    if rows == [] then Error(404, Text(detail)) else Ok(rows)
  }

  // ------------------------------------------------------------- dictionary

  /** GET /dictionary/{category}: the entries of the upper-cased category;
      an empty category is a 404 that speaks of destinations whatever the
      category was. */
  function DictionaryResponse(c: Catalog, category: string): (resp: Response<seq<DictionaryRow>>)
    ensures resp.Ok? <==> exists e :: e in c.dictionary && e.category == Upper(category) && e.active
    ensures resp.Ok? ==> resp.body == DictionaryByCategory(c, Upper(category))
    ensures resp.Ok? ==> forall i, j :: 0 <= i < j < |resp.body| ==> LexLe(resp.body[i].name, resp.body[j].name)
    ensures resp.Ok? ==> forall row :: row in resp.body <==>
              exists e :: e in c.dictionary && e.category == Upper(category) && e.active && row == DictionaryRowOf(e)
    ensures resp.Error? ==> resp == Error(404, Text("Destination not found"))
  {
    var rows := DictionaryByCategory(c, Upper(category));
    assert rows != [] ==> rows[0] in rows;
    assert forall e :: e in c.dictionary && e.category == Upper(category) && e.active ==> DictionaryRowOf(e) in rows;
    RowsOr404(rows, "Destination not found")
  }

  /** `category.upper()` makes the endpoint blind to the case of ASCII
      letters: "destination" and "Destination" answer as "DESTINATION". */
  lemma DictionaryIgnoresCase(c: Catalog, a: string, b: string)
    requires SameIgnoringCase(a, b)
    ensures DictionaryResponse(c, a) == DictionaryResponse(c, b)
  {
    CaseVariantsAgree(a, b);
  }

  method GetDictionary(db: Db, pool: Pool, category: string) returns (resp: Response<seq<DictionaryRow>>)
    modifies pool
    ensures resp == DictionaryResponse(db.committed.catalog, category)
    ensures pool.acquired == old(pool.acquired) + 1 && pool.released == old(pool.released) + 1
  {
    pool.GetConnection();
    var rows := DictionaryByCategory(db.committed.catalog, Upper(category));
    if rows == [] {
      resp := Error(404, Text("Destination not found"));
    } else {
      resp := Ok(rows);
    }
    pool.ReleaseConnection();
  }

  // ---------------------------------------------------------------- vendors

  /** GET /vendors/{code}: the first active vendor with exactly that code,
      with the next-id hint, or 404. */
  function VendorResponse(t: Tables, code: string): (resp: Response<VendorByCodeRow>)
    ensures resp.Ok? <==> exists v :: v in t.catalog.vendors && v.code == code && v.active
    ensures resp.Ok? ==> exists v :: v in t.catalog.vendors && v.code == code && v.active
                                    && resp.body == VendorByCodeRowOf(v, NextQuoteId(t.quotes))
    ensures resp.Error? ==> resp == Error(404, Text("Vendor not found"))
  {
    var rows := VendorsByCode(t, code);
    if rows == [] then Error(404, Text("Vendor not found"))
    else
      assert rows[0] in rows;
      Ok(rows[0])
  }

  /** The hint a vendor page shows is an id no quote has yet. */
  lemma VendorHintIsUnused(t: Tables, code: string)
    requires VendorResponse(t, code).Ok?
    ensures forall q :: q in t.quotes ==> q.id != VendorResponse(t, code).body.nextQuoteId
  {
  }

  method GetVendor(db: Db, pool: Pool, code: string) returns (resp: Response<VendorByCodeRow>)
    modifies pool
    ensures resp == VendorResponse(db.committed, code)
    ensures pool.acquired == old(pool.acquired) + 1 && pool.released == old(pool.released) + 1
  {
    pool.GetConnection();
    var rows := VendorsByCode(db.committed, code);
    if rows == [] {
      resp := Error(404, Text("Vendor not found"));
    } else {
      resp := Ok(rows[0]);
    }
    pool.ReleaseConnection();
  }

  // ------------------------------------------------------------------- fish

  /** GET /fish/types: the active species, or a 404 that (as written)
      speaks of a vendor. */
  function FishTypesResponse(c: Catalog): (resp: Response<seq<FishTypeRow>>)
    ensures resp.Ok? <==> exists f :: f in c.fishSpecies && f.active
    ensures resp.Ok? ==> resp.body == FishTypes(c)
    ensures resp.Ok? ==> |resp.body| == |ActiveSpeciesById(c)|
    ensures resp.Ok? ==> forall i :: 0 <= i < |resp.body| ==>
              resp.body[i] == FishTypeRow(ActiveSpeciesById(c)[i].commonName, ActiveSpeciesById(c)[i].scientificName)
    ensures resp.Error? ==> resp == Error(404, Text("Vendor not found"))
  {
    var s := ActiveSpeciesById(c);
    assert s != [] ==> s[0] in s;
    RowsOr404(FishTypes(c), "Vendor not found")
  }

  /** GET /fish/cut: every cut name, or the same 404 when there are none. */
  function FishCutsResponse(c: Catalog): (resp: Response<seq<string>>)
    ensures resp.Ok? <==> c.fishCuts != []
    ensures resp.Ok? ==> resp.body == FishCutNames(c)
    ensures resp.Ok? ==> forall i, j :: 0 <= i < j < |resp.body| ==> LexLe(resp.body[i], resp.body[j])
    ensures resp.Ok? ==> multiset(resp.body) == multiset(Ordering.Map(c.fishCuts, CutName))
    ensures resp.Error? ==> resp == Error(404, Text("Vendor not found"))
  {
    var r := FishCutNames(c);
    assert |r| == |multiset(r)|;
    RowsOr404(r, "Vendor not found")
  }

  /** GET /fish/grade: every grade name, or the same 404 when there are none. */
  function FishGradesResponse(c: Catalog): (resp: Response<seq<string>>)
    ensures resp.Ok? <==> c.fishGrades != []
    ensures resp.Ok? ==> resp.body == FishGradeNames(c)
    ensures resp.Ok? ==> forall i, j :: 0 <= i < j < |resp.body| ==> LexLe(resp.body[i], resp.body[j])
    ensures resp.Ok? ==> multiset(resp.body) == multiset(Ordering.Map(c.fishGrades, GradeName))
    ensures resp.Error? ==> resp == Error(404, Text("Vendor not found"))
  {
    var r := FishGradeNames(c);
    assert |r| == |multiset(r)|;
    RowsOr404(r, "Vendor not found")
  }

  method GetFishTypes(db: Db, pool: Pool) returns (resp: Response<seq<FishTypeRow>>)
    modifies pool
    ensures resp == FishTypesResponse(db.committed.catalog)
    ensures pool.acquired == old(pool.acquired) + 1 && pool.released == old(pool.released) + 1
  {
    pool.GetConnection();
    var rows := FishTypes(db.committed.catalog);
    if rows == [] {
      resp := Error(404, Text("Vendor not found"));
    } else {
      resp := Ok(rows);
    }
    pool.ReleaseConnection();
  }

  method GetFishCuts(db: Db, pool: Pool) returns (resp: Response<seq<string>>)
    modifies pool
    ensures resp == FishCutsResponse(db.committed.catalog)
    ensures pool.acquired == old(pool.acquired) + 1 && pool.released == old(pool.released) + 1
  {
    pool.GetConnection();
    var rows := FishCutNames(db.committed.catalog);
    if rows == [] {
      resp := Error(404, Text("Vendor not found"));
    } else {
      resp := Ok(rows);
    }
    pool.ReleaseConnection();
  }

  method GetFishGrades(db: Db, pool: Pool) returns (resp: Response<seq<string>>)
    modifies pool
    ensures resp == FishGradesResponse(db.committed.catalog)
    ensures pool.acquired == old(pool.acquired) + 1 && pool.released == old(pool.released) + 1
  {
    pool.GetConnection();
    var rows := FishGradeNames(db.committed.catalog);
    if rows == [] {
      resp := Error(404, Text("Vendor not found"));
    } else {
      resp := Ok(rows);
    }
    pool.ReleaseConnection();
  }
}
