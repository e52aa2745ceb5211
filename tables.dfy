/** The relational schema the API reads and writes, as in-memory tables:
    one sequence of rows per table, in storage order. */
module Tables {
  import opened Common

  /** A PostgreSQL `numeric` value: `units` * 10^-`scale`. */
  datatype Decimal = Decimal(units: int, scale: nat)

  /** A PostgreSQL `date` (read back as a Python `date`). */
  datatype Date = Date(year: int, month: int, day: int)

  /** A PostgreSQL `timestamp` (read back as a Python `datetime`). */
  datatype DateTime = DateTime(date: Date, hour: int, minute: int, second: int, microsecond: int)

  datatype Vendor = Vendor(
    id: int, code: string, name: string, country: string,
    contactEmail: Option<string>, active: bool, emailEnabled: Option<bool>)

  /** A category-scoped code/name pair; destinations use category DESTINATION. */
  datatype DictionaryEntry = DictionaryEntry(
    id: int, category: string, code: string, name: string,
    description: Option<string>, active: bool)

  datatype FishSpecies = FishSpecies(id: int, commonName: string, scientificName: string, active: bool)

  datatype FishCut = FishCut(id: int, name: string)

  datatype FishGrade = FishGrade(id: int, name: string)

  /** A quote header; columns that seed data may leave NULL are optional. */
  datatype Quote = Quote(
    id: int, vendorId: int, validTill: Option<Date>, notes: Option<string>,
    priceNegotiable: Option<bool>, exclusiveOffer: Option<bool>, createdAt: Option<DateTime>)

  datatype QuoteDestination = QuoteDestination(
    quoteId: int, destinationId: int, airfreightPerKg: Decimal, arrivalDate: Date,
    minWeight: Decimal, maxWeight: Decimal)

  /** `cut` and `grade` hold the ids of a fish_cut and a fish_grade row. */
  datatype QuoteProduct = QuoteProduct(
    quoteId: int, fishId: int, weightRange: string, cut: int, grade: int,
    pricePerKg: Decimal, quantity: int)

  datatype EmailLogEntry = EmailLogEntry(quoteId: int, vendorEmail: string, status: string, sentAt: DateTime)

  /** The reference tables, which the API only reads. */
  datatype Catalog = Catalog(
    vendors: seq<Vendor>,
    dictionary: seq<DictionaryEntry>,
    fishSpecies: seq<FishSpecies>,
    fishCuts: seq<FishCut>,
    fishGrades: seq<FishGrade>)

  /** The whole database. `emailLog` is None when the email_log table does
      not exist (it is optional in deployments). */
  datatype Tables = Tables(
    catalog: Catalog,
    quotes: seq<Quote>,
    quoteDestinations: seq<QuoteDestination>,
    quoteProducts: seq<QuoteProduct>,
    emailLog: Option<seq<EmailLogEntry>>)

  /** The primary key of the quote table. */
  predicate QuoteKeysUnique(t: Tables) {
    forall i, j :: 0 <= i < j < |t.quotes| ==> t.quotes[i].id != t.quotes[j].id
  }

  predicate HasQuote(t: Tables, id: int) {
    exists q :: q in t.quotes && q.id == id
  }
}
