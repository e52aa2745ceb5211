/** The database as the API sees it through one pooled connection: the
    committed tables, and the tables as the open transaction sees them.
    Every INSERT changes only the transaction's view; `Commit` publishes it
    and `Rollback` discards it. */
module Database {
  import opened Common
  import opened Tables
  import Queries

  /** The connection pool, observed only through how many connections were
      handed out and how many were given back. */
  class Pool {
    var acquired: nat
    var released: nat

    constructor()
      ensures acquired == 0 && released == 0
    {
      acquired := 0;
      released := 0;
    }

    /** No connection is out. */
    predicate Balanced()
      reads this
    {
      acquired == released
    }

    /** `get_connection()`. */
    method GetConnection()
      modifies this
      ensures acquired == old(acquired) + 1 && released == old(released)
    {
      acquired := acquired + 1;
    }

    /** `release_connection(conn)`. */
    method ReleaseConnection()
      modifies this
      ensures released == old(released) + 1 && acquired == old(acquired)
    {
      released := released + 1;
    }
  }

  class Db {
    var committed: Tables
    var pending: Tables

    constructor(t: Tables)
      ensures committed == t && pending == t
    {
      committed := t;
      pending := t;
    }

    /** The connection holds no uncommitted writes. */
    predicate Idle()
      reads this
    {
      pending == committed
    }

    /** `cur.execute(INSERT_QUOTE, ...)`; a refused statement leaves the
        transaction's tables as they were. */
    method InsertQuote(id: int, vendorId: int, validTill: string, notes: string,
                       negotiable: bool, exclusive: bool,
                       parseDate: string -> Option<Date>, createdAtDefault: Option<DateTime>) returns (r: Result<()>)
      modifies this
      ensures committed == old(committed)
      ensures var e := Queries.InsertQuote(old(pending), id, vendorId, validTill, notes, negotiable, exclusive, parseDate, createdAtDefault);
        (e.Success? ==> r.Success? && pending == e.value)
        && (e.Failure? ==> r == Failure(e.error) && pending == old(pending))
    {
      var e := Queries.InsertQuote(pending, id, vendorId, validTill, notes, negotiable, exclusive, parseDate, createdAtDefault);
      if e.Success? {
        pending := e.value;
        r := Success(());
      } else {
        r := Failure(e.error);
      }
    }

    /** `cur.execute(INSERT_QUOTE_DESTINATION, ...)`. */
    method InsertQuoteDestination(quoteId: int, destinationId: int, airfreight: Decimal,
                                  arrival: string, minWeight: Decimal, maxWeight: Decimal,
                                  parseDate: string -> Option<Date>) returns (r: Result<()>)
      modifies this
      ensures committed == old(committed)
      ensures var e := Queries.InsertQuoteDestination(old(pending), quoteId, destinationId, airfreight, arrival, minWeight, maxWeight, parseDate);
        (e.Success? ==> r.Success? && pending == e.value)
        && (e.Failure? ==> r == Failure(e.error) && pending == old(pending))
    {
      var e := Queries.InsertQuoteDestination(pending, quoteId, destinationId, airfreight, arrival, minWeight, maxWeight, parseDate);
      if e.Success? {
        pending := e.value;
        r := Success(());
      } else {
        r := Failure(e.error);
      }
    }

    /** `cur.execute(INSERT_QUOTE_PRODUCT, ...)`. */
    method InsertQuoteProduct(row: QuoteProduct)
      modifies this
      ensures committed == old(committed)
      ensures pending == Queries.InsertQuoteProduct(old(pending), row)
    {
      pending := Queries.InsertQuoteProduct(pending, row);
    }

    /** `cur.execute(INSERT_EMAIL_LOG, ...)`. */
    method InsertEmailLog(quoteId: int, vendorEmail: string, status: string, now: DateTime)
      requires Queries.EmailLogTableExists(pending)
      modifies this
      ensures committed == old(committed)
      ensures pending == Queries.InsertEmailLog(old(pending), quoteId, vendorEmail, status, now)
    {
      pending := Queries.InsertEmailLog(pending, quoteId, vendorEmail, status, now);
    }

    /** `conn.commit()`. */
    method Commit()
      modifies this
      ensures committed == old(pending) && pending == old(pending)
    {
      committed := pending;
    }

    /** `conn.rollback()`. */
    method Rollback()
      modifies this
      ensures pending == old(committed) && committed == old(committed)
    {
      pending := committed;
    }
  }
}
