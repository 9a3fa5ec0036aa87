/**
 * The beverage listing pages: routes/beverages.py (index, stored, finished,
 * all), the filtered dashboard of app/app.py and the unfiltered dashboard
 * of app/main.py. Each only picks a filter and runs the listing query.
 */
module ListingRoutes {
  import opened Common
  import opened Schema
  import opened Filters
  import opened Store
  import Inventory
  import QueryBuilder

  /** The columns every listing page asks for. */
  const ListColumns: seq<string> := ["beverageId", "beverageName", "beverageYear", "locationId", "locationName"]

  /** `index`: the beverages in storage. */
  method Index(store: Database) returns (sql: string, rows: seq<ListRow>)
    ensures sql == QueryBuilder.Query(ListColumns, "LEFT JOIN", "beverageLocationId != 0")
    ensures Inventory.IsListing(rows, store.State(), LocNonZero)
  {
    sql, rows := store.GetBeverages(ListColumns, LocNonZero);
  }

  /** `stored`: the same page as `index`. */
  method Stored(store: Database) returns (sql: string, rows: seq<ListRow>)
    ensures sql == QueryBuilder.Query(ListColumns, "LEFT JOIN", "beverageLocationId != 0")
    ensures Inventory.IsListing(rows, store.State(), LocNonZero)
  {
    sql, rows := Index(store);
  }

  /** `finished`: the beverages marked finished. */
  method Finished(store: Database) returns (sql: string, rows: seq<ListRow>)
    ensures sql == QueryBuilder.Query(ListColumns, "LEFT JOIN", "beverageLocationId = 0")
    ensures Inventory.IsListing(rows, store.State(), LocIsZero)
  {
    sql, rows := store.GetBeverages(ListColumns, LocIsZero);
  }

  /** `all`: every beverage, with the default join and no WHERE fragment. */
  method AllBeverages(store: Database) returns (sql: string, rows: seq<ListRow>)
    ensures sql == QueryBuilder.Query(ListColumns, QueryBuilder.DefaultJoin, QueryBuilder.DefaultWhere)
    ensures Inventory.IsListing(rows, store.State(), All)
  {
    sql, rows := store.GetBeverages(ListColumns, All);
  }

  /**
   * The filter app/app.py's dashboard takes from its `filter` query
   * argument: "all" lists everything, "not_stored" the finished beverages,
   * anything else (or no argument) the stored ones.
   */
  function DashboardFilter(arg: Option<string>): (f: Filter)
    ensures f == All <==> arg == Some("all")
    ensures f == LocIsZero <==> arg == Some("not_stored")
    ensures f != All && f != LocIsZero ==> f == LocNonZero
  {
    if arg == Some("all") then All
    else if arg == Some("not_stored") then LocIsZero
    else LocNonZero
  }

  /** `dashboard` of app/app.py. */
  method Dashboard(store: Database, arg: Option<string>) returns (sql: string, rows: seq<ListRow>)
    ensures sql == QueryBuilder.Query(ListColumns, "LEFT JOIN", WhereFor(DashboardFilter(arg)))
    ensures Inventory.IsListing(rows, store.State(), DashboardFilter(arg))
  {
    if arg == Some("all") {
      sql, rows := store.GetBeverages(ListColumns, All);
    } else if arg == Some("not_stored") {
      sql, rows := store.GetBeverages(ListColumns, LocIsZero);
    } else {
      sql, rows := store.GetBeverages(ListColumns, LocNonZero);
    }
  }

  /**
   * `dashboard` of app/main.py: every beverage, unfiltered, with the query
   * built by that file's own column loop. It is the same text the other
   * copies send for the `all` listing.
   */
  method LegacyDashboard(store: Database) returns (sql: Option<string>, rows: seq<ListRow>)
    ensures sql == QueryBuilder.LegacyQuery(ListColumns, QueryBuilder.DefaultJoin, QueryBuilder.DefaultWhere)
    ensures sql == Some(QueryBuilder.Query(ListColumns, QueryBuilder.DefaultJoin, QueryBuilder.DefaultWhere))
    ensures Inventory.IsListing(rows, store.State(), All)
  {
    sql, rows := store.GetBeveragesLegacy(ListColumns, All);
    ListColumnsAgree(QueryBuilder.DefaultWhere);
  }

  /** For the listing columns both builders send the same query, whatever the fragment. */
  lemma ListColumnsAgree(where: string)
    ensures QueryBuilder.LegacyQuery(ListColumns, "LEFT JOIN", where)
      == Some(QueryBuilder.Query(ListColumns, "LEFT JOIN", where))
  {
    assert QueryBuilder.EndsClean(ListColumns[|ListColumns| - 1]);
    QueryBuilder.VariantsAgree(ListColumns, "LEFT JOIN", where);
  }
}
