/** Small value types shared by every module of the inventory model. */
module Common {

  /** Python's `None` versus a present value. */
  datatype Option<+T> = None | Some(value: T)

  /** The two kinds of sqlite3 exception the data-access code catches. */
  datatype Fault = IntegrityError(detail: string) | DatabaseError(detail: string)

  /** The category argument of Flask's `flash`. */
  datatype Category = Info | Error

  /** One flashed message, shown on the next rendered page. */
  datatype Flash = Flash(message: string, category: Category)

  /**
   * The three copies of the web layer: Blueprints is routes/ with utils/,
   * Monolith is app/app.py, Legacy is app/main.py. Their single-beverage
   * and location handlers differ in the endpoints they redirect to and in
   * some error texts; Legacy also has its own column loop in the query
   * builder and returns False from a failing read. Their listing pages
   * differ too: four fixed pages, one dashboard driven by a `filter`
   * argument, and one unfiltered dashboard (see ListingRoutes).
   */
  datatype Layout = Blueprints | Monolith | Legacy
}

/** The messages the data-access code flashes when sqlite3 raises. */
module Messages {
  import opened Common

  /**
   * The error text of utils/ and app/app.py: the same two wordings appear in
   * every handler that catches a sqlite3 exception, whatever it was saving.
   */
  function SaveFailure(fault: Fault): string
  {
    match fault
    case IntegrityError(d) =>
      "An error occurred. Location wasn't saved due to a database integrity error: " + d
    case DatabaseError(d) => "A database error occured. Location wasn't saved. " + d
  }
}
