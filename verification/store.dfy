/**
 * The SQLite store behind every connection, with the data-access helpers of
 * utils/beverage.py and utils/locations.py (copied into app/app.py and
 * app/main.py). Opening and closing connections is not modelled: each
 * method acts on the two tables directly.
 */
module Store {
  import opened Common
  import opened Schema
  import opened Filters
  import opened Ordering
  import opened Inventory
  import QueryBuilder

  /**
   * One step of the scan: after beverage `k` is visited, the rows kept are
   * those selected among the visited keys, whether or not `k` matched.
   */
  lemma ScanStep(db: Db, f: Filter, seen: set<int>, k: int, kept: multiset<ListRow>, next: multiset<ListRow>)
    requires k in db.beverages && k !in seen
    requires kept == multiset(SelectedAmong(db, f, seen))
    requires next == if Matches(f, db.beverages[k]) then kept + multiset{RowOf(db, k)} else kept
    ensures next == multiset(SelectedAmong(db, f, seen + {k}))
  {
    SelectedAmongStep(db, f, seen, k);
    var a := SelectedAmong(db, f, seen);
    if Matches(f, db.beverages[k]) {
      assert multiset(a + {RowOf(db, k)}) == multiset(a) + multiset{RowOf(db, k)};
    }
  }

  class Database {
    var locations: map<int, string>
    var beverages: map<int, Beverage>

    /** The two tables as a value. */
    function State(): Db
      reads this
    {
      Db(locations, beverages)
    }

    constructor (initial: Db)
      ensures State() == initial
    {
      locations := initial.locations;
      beverages := initial.beverages;
    }

    /**
     * The engine's answer to a beverage listing query with a LEFT JOIN: it
     * visits the beverages in no particular order and keeps the matching
     * ones ordered by name, ties in visiting order.
     */
    method Select(filter: Filter) returns (rows: seq<ListRow>)
      ensures IsListing(rows, State(), filter)
    {
      var db := State();
      var todo := db.beverages.Keys;
      rows := [];
      while todo != {}
        invariant todo <= db.beverages.Keys
        invariant SortedBy(rows, RowName)
        invariant multiset(rows) == multiset(SelectedAmong(db, filter, db.beverages.Keys - todo))
        decreases todo
      {
        if forall y :: y !in todo {
          assert false;
        }
        var k :| k in todo;
        ghost var kept := multiset(rows);
        if Matches(filter, db.beverages[k]) {
          rows := InsertByKey(rows, RowOf(db, k), RowName);
        }
        ScanStep(db, filter, db.beverages.Keys - todo, k, kept, multiset(rows));
        assert db.beverages.Keys - todo + {k} == db.beverages.Keys - (todo - {k});
        todo := todo - {k};
      }
      assert db.beverages.Keys - todo == db.beverages.Keys;
    }

    /**
     * `get_beverages` when the query runs: the text sent (built by the
     * accumulation loop, the WHERE fragment being the one the filter's
     * callers write) and the rows returned. Every caller joins with
     * LEFT JOIN.
     */
    method GetBeverages(columns: seq<string>, filter: Filter) returns (sql: string, rows: seq<ListRow>)
      ensures sql == QueryBuilder.Query(columns, "LEFT JOIN", WhereFor(filter))
      ensures IsListing(rows, State(), filter)
    {
      sql := QueryBuilder.BuildQuery(columns, "LEFT JOIN", WhereFor(filter));
      rows := Select(filter);
    }

    /**
     * `get_beverages` of app/main.py when the query runs: the text its own
     * column loop builds, none when no column is given (the source then
     * fails on the unbound column text before any query is sent), and the
     * rows returned.
     */
    method GetBeveragesLegacy(columns: seq<string>, filter: Filter) returns (sql: Option<string>, rows: seq<ListRow>)
      ensures sql == QueryBuilder.LegacyQuery(columns, "LEFT JOIN", WhereFor(filter))
      ensures sql.Some? <==> columns != []
      ensures sql.Some? ==> IsListing(rows, State(), filter)
      ensures sql.None? ==> rows == []
    {
      sql := QueryBuilder.BuildLegacyQuery(columns, "LEFT JOIN", WhereFor(filter));
      rows := [];
      if sql.Some? {
        rows := Select(filter);
      }
    }

    /** `get_all_locations`: every location, ordered by name. */
    method GetAllLocations() returns (rows: seq<LocationRow>)
      ensures IsLocationListing(rows, State())
    {
      var todo := locations.Keys;
      rows := [];
      while todo != {}
        invariant todo <= locations.Keys
        invariant SortedBy(rows, LocationRowName)
        invariant multiset(rows) == multiset(set k | k in locations && k !in todo :: LocationRow(k, locations[k]))
        decreases todo
      {
        if forall y :: y !in todo {
          assert false;
        }
        var k :| k in todo;
        ghost var done := set j | j in locations && j !in todo :: LocationRow(j, locations[j]);
        ghost var next := set j | j in locations && j !in todo - {k} :: LocationRow(j, locations[j]);
        assert LocationRow(k, locations[k]) !in done;
        assert next == done + {LocationRow(k, locations[k])};
        rows := InsertByKey(rows, LocationRow(k, locations[k]), LocationRowName);
        todo := todo - {k};
      }
      assert (set k | k in locations && k !in todo :: LocationRow(k, locations[k])) == LocationRows(State());
    }

    /** `create_location`, with `fault` standing for what sqlite3 raised, if anything. */
    method CreateLocation(layout: Layout, name: string, fault: Option<Fault>) returns (flashes: seq<Flash>)
      modifies this
      ensures Effect(State(), flashes) == Inventory.CreateLocation(old(State()), layout, name, fault)
    {
      if fault.Some? {
        flashes := [Flash(CreateFailure(layout, fault.value), Error)];
      } else {
        var id := NextRowId(locations.Keys);
        locations := locations[id := name];
        flashes := [Flash(name + " has been added.", Info)];
      }
    }

    /** `update_location`, with `fault` standing for what sqlite3 raised, if anything. */
    method UpdateLocation(layout: Layout, id: int, newName: string, fault: Option<Fault>) returns (flashes: seq<Flash>)
      modifies this
      ensures Effect(State(), flashes) == Inventory.UpdateLocation(old(State()), layout, id, newName, fault)
    {
      if fault.Some? {
        flashes := [Flash(UpdateFailure(layout, fault.value), Error)];
      } else {
        if id in locations {
          locations := locations[id := newName];
        }
        flashes := [Flash(newName + " has been updated.", Info)];
      }
    }
  }
}
