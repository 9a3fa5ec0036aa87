/**
 * The two tables of the inventory and the rows read back from them.
 * A table is a map from its INTEGER PRIMARY KEY to the rest of the row.
 */
module Schema {
  import opened Common

  /** A row of `beverages`, without its key `beverageId`. */
  datatype Beverage = Beverage(
    name: string,        // beverageName
    locationId: int,     // beverageLocationId; 0 means finished / not stored
    year: string,        // beverageYear, as the form sent it
    purchaseDate: string,
    drinkBefore: string,
    notes: string)

  /** The whole store: `locations` (locationId -> locationName) and `beverages`. */
  datatype Db = Db(locations: map<int, string>, beverages: map<int, Beverage>)

  /**
   * The row `get_beverage` returns: the beverage's columns joined with its
   * location's, whose two columns are NULL (None) when no location row has
   * the beverage's location id (always so for the sentinel 0).
   */
  datatype BeverageRow = BeverageRow(
    id: int, name: string, year: string, purchaseDate: string, drinkBefore: string,
    notes: string, locationId: Option<int>, locationName: Option<string>)

  /**
   * A row of the beverage listings: beverageId, beverageName, beverageYear,
   * locationId, locationName, the last two from the LEFT JOIN.
   */
  datatype ListRow = ListRow(
    id: int, name: string, year: string, locationId: Option<int>, locationName: Option<string>)

  /** A row of the location listing. */
  datatype LocationRow = LocationRow(id: int, name: string)

  lemma {:induction false} LargestKeyExists(keys: set<int>)
    requires keys != {}
    ensures exists m :: m in keys && forall k :: k in keys ==> k <= m
    decreases keys
  {
    var x := PickKey(keys);
    var rest := keys - {x};
    if rest == {} {
      forall k | k in keys
        ensures k == x
      {
        assert k !in rest;
      }
    } else {
      LargestKeyExists(rest);
      var m :| m in rest && forall k :: k in rest ==> k <= m;
      var top := if m < x then x else m;
      assert forall k :: k in keys ==> k in rest || k == x;
      assert top in keys && forall k :: k in keys ==> k <= top;
    }
  }

  /** Some key of a non-empty key set. */
  lemma PickKey(keys: set<int>) returns (x: int)
    requires keys != {}
    ensures x in keys
  {
    if forall y :: y !in keys {
      assert false;
    }
    var xs :| xs in keys;
    x := xs;
  }

  /**
   * The key SQLite gives a row inserted without one into a table whose key
   * is an INTEGER PRIMARY KEY: one more than the largest key in use, or 1
   * when the table is empty.
   */
  function NextRowId(keys: set<int>): (id: int)
    ensures id !in keys
    ensures forall k :: k in keys ==> k < id
    ensures keys == {} ==> id == 1
    ensures keys != {} ==> id - 1 in keys
  {
    if keys == {} then 1
    else
      LargestKeyExists(keys);
      var m :| m in keys && forall k :: k in keys ==> k <= m;
      m + 1
  }
}

/** What the handlers receive from and give back to the web layer. */
module Web {
  import opened Common
  import opened Schema

  /**
   * The six fields of the add and edit forms. `location` is None when the
   * field is the empty string; otherwise it is the location id chosen.
   */
  datatype Form = Form(
    location: Option<int>, name: string, year: string,
    purchaseDate: string, drinkBefore: string, notes: string)

  datatype Request = Get | Post(form: Form)

  /** A rendered page and the record it shows. */
  datatype View = AddForm | EditForm(beverage: BeverageRow) | Details(beverage: BeverageRow)

  /** How a handler answers: a redirect, a rendered page, or `abort(404)`. */
  datatype Response =
    | Redirect(flashes: seq<Flash>, endpoint: string)
    | Render(flashes: seq<Flash>, view: View)
    | NotFound

  /** The endpoint every beverage mutation redirects to. */
  function BeveragesHome(layout: Layout): string
  {
    if layout == Blueprints then "beverages_bp.index" else "dashboard"
  }

  /** The endpoint every location handler redirects to. */
  function LocationsHome(layout: Layout): string
  {
    if layout == Blueprints then "locations_bp.index" else "locations"
  }

  /** The beverage record a valid form describes. */
  function Record(form: Form): Beverage
    requires form.location.Some?
  {
    Beverage(form.name, form.location.value, form.year, form.purchaseDate, form.drinkBefore, form.notes)
  }
}
