# Kaellare beverage inventory — a Dafny model

Kaellare is a small Flask application that tracks beverages (bottles of wine
and the like) and the storage locations that hold them, in two SQLite tables,
`locations` and `beverages`. The web layer is a set of handlers that validate
a form, run one parameterised statement, flash a message and redirect; the
listing pages go through one query builder, `get_beverages`, which assembles a
SELECT from a tuple of column names, a join keyword and a raw WHERE fragment,
and always orders by beverage name. A beverage whose location id is the
sentinel 0 is "finished".

The repository carries the web layer three times: the blueprint layout
(`routes/` over `utils/`), the single-file `app/app.py`, and the older
`app/main.py`. They differ in several ways:

- the endpoints they redirect to;
- the texts of their error flashes;
- in `app/main.py`, the column loop of the query builder and the way a
  failing read query is reported;
- the listing pages. `routes/beverages.py` has four pages (index, stored,
  finished, all). `app/app.py` has one dashboard that picks its filter from
  a `filter` argument. `app/main.py` has one unfiltered dashboard. All of
  them are in `ListingRoutes`.

The handlers take the copy as a parameter `Layout` (`Blueprints`,
`Monolith`, `Legacy`) for the endpoints and texts. The app/main.py listings
run that file's own column loop (`Store.Database.GetBeveragesLegacy`), and
`QueryBuilder.VariantsAgree` shows that loop sends the same text for every
column list the handlers pass.

The project is organised as follows:

- `common.dfy`: the shared value types (`Option`, the sqlite3 faults, flash
  messages, the layout) and the shared error text.
- `query_builder.dfy`: the query builder (`QueryBuilder`), both loop
  variants, as imperative methods proved against functions on strings. It
  also holds the inverse that reads the WHERE fragment back from a query, and
  the tail that reports a failing read.
- `ordering.dfy`: `ORDER BY ... ASC` under SQLite's BINARY collation
  (`Ordering.NameLe`, code-point lexicographic order). It also holds the
  insertion step used to build a sorted answer.
- `schema.dfy`: the rows of the two tables, SQLite's rowid rule for a new
  row (`Schema.NextRowId`), and the request and response values of the web
  layer (`Web`).
- `filters.dfy`: the four WHERE fragments the handlers actually pass
  (`Filters.WhereFor`) and the rows each one selects (`Filters.Matches`).
- `inventory.dfy`: every handler and data-access helper as a transition
  from the store before the request to the store after it and the
  response (`Inventory`).
- `store.dfy`: the two tables as the fields of a class
  (`Store.Database`). Its methods run the queries and statements step by
  step and are proved to compute what `Inventory` says.
- `beverage_routes.dfy`, `location_routes.dfy`, `listing_routes.dfy`: the
  handlers as methods over a `Store.Database`, each proved equal to its
  `Inventory` transition or to a sorted answer of its listing query.
- `properties.dfy`: what the handlers guarantee together:
  - the stored and finished listings partition the full one;
  - finishing a beverage is idempotent and moves it between listings;
  - the dependents guard keeps every location reference valid;
  - two end-to-end scenarios.

Two behaviours of the code are worth noting:

- Neither `create_location` nor `update_location` checks the name. Only
  the `add_location` handler refuses an empty name. `edit_location` passes
  an empty name through.
- Renaming a location, or saving the edit form of a beverage, under an id
  that has no row changes nothing and still flashes "... has been updated.".

## Model

| member | source | states |
|---|---|---|
| QueryBuilder.BuildQuery | utils/beverage.py:49-69 | the accumulate-then-`rstrip(", ")` loop yields exactly the query `Query(columns, join, where)`; the loop invariant ties the partial text to the columns seen so far |
| QueryBuilder.BuildLegacyQuery | app/main.py:67-85 | the first-column-then-", "-column loop yields `LegacyQuery(...)`, which has no query (the unbound name) when there are no columns |
| QueryBuilder.RStrip | utils/beverage.py:55-56 | the result is a prefix of the input that does not end in ',' or ' ', and every character removed is one of those two |
| QueryBuilder.ColumnText | utils/beverage.py:51-56 | the column text never ends in a separator character |
| QueryBuilder.AccumulatedIsJoined | utils/beverage.py:51-53 | accumulating "col, " for each column gives the columns joined by ", " followed by one ", " |
| QueryBuilder.RStripSeparator | utils/beverage.py:55-56 | stripping a text that ends cleanly followed by ", " gives back that text |
| QueryBuilder.ColumnTextIsJoined | utils/beverage.py:51-56 | when the last column does not end in ',' or ' ', the column text is the columns joined by ", " in caller order, duplicates kept |
| QueryBuilder.ColumnTextEmpty | utils/beverage.py:51-56 | no columns give an empty column list (an invalid SELECT) |
| QueryBuilder.VariantsAgree | app/main.py:70-85 | the app/main.py builder and the utils/beverage.py builder send the same query whenever the last column ends cleanly |
| QueryBuilder.DefaultQueryText | utils/beverage.py:32 | with the default arguments the query selects "beverageId, beverageName" with a LEFT JOIN, no WHERE clause and the fixed ordering |
| QueryBuilder.WhereRoundTrip | utils/beverage.py:58-69 | the WHERE fragment is carried verbatim after " WHERE " and can be read back from the query: parsing inverts building |
| QueryBuilder.WhereAbsentIff | utils/beverage.py:58-62 | a query has no WHERE clause exactly when the fragment is empty |
| QueryBuilder.FetchResult | utils/beverage.py:71-82 | a successful read returns its rows and flashes nothing; a failing read flashes one error and then raises (utils/, app/app.py) or returns False (app/main.py) |
| Ordering.NameLeTotal | utils/beverage.py:68 | the BINARY collation order on names is total |
| Ordering.NameLeTransitive | utils/beverage.py:68 | the BINARY collation order is transitive |
| Ordering.NameLeAntisymmetric | utils/beverage.py:68 | two names ordered both ways are equal |
| Ordering.InsertByKey | utils/beverage.py:68 | inserting a row into a name-sorted sequence keeps it sorted and adds exactly that row |
| Schema.NextRowId | utils/locations.py:54-58 | a new row's id is fresh, larger than every existing id, 1 in an empty table and one more than the largest id otherwise |
| Filters.Decimal | routes/locations.py:65 | the decimal text of an id is non-empty, all digits, one digit exactly below 10 |
| Filters.DecimalValue | routes/locations.py:65 | the decimal text of an id denotes that id: reading its digits from left to right gives the id back |
| Filters.DecimalInjective | routes/locations.py:65 | different ids give different decimal texts |
| Filters.SameWhereSameRows | routes/beverages.py:10-50 | two filters with the same WHERE text select the same beverages |
| Inventory.Lookup | utils/beverage.py:9-30 | a beverage is found exactly when its id has a row; the row carries its six fields, and the location columns are present exactly when its location exists |
| Inventory.LocationName | utils/locations.py:24-41 | a location's name is found exactly when its id has a row |
| Inventory.RowOf | utils/beverage.py:64-69 | the listing row of a beverage carries its id, name and year; its LEFT JOIN location columns are present exactly when the beverage's location exists, and then hold that id and that location's name |
| Inventory.SelectedAmongStep | utils/beverage.py:71-72 | taking one more beverage into account adds its row exactly when it matches the filter |
| Inventory.CreateLocation | utils/locations.py:43-70 | on success a row under the next rowid holds the name, no other row changes and "<name> has been added." is flashed; on a fault nothing changes and the error text is flashed |
| Inventory.UpdateLocation | utils/locations.py:72-102 | on success row `id`, and only it, is renamed and "<name> has been updated." is flashed even when `id` has no row; on a fault nothing changes |
| Inventory.Invalid | routes/beverage.py:33-36 | a form is valid exactly when it has a location and a name; the location is checked first |
| Inventory.AddBeverage | routes/beverage.py:12-53 | GET and invalid POSTs write nothing; a valid POST inserts exactly one row with the form's fields under the next rowid and redirects with "<name> has been saved." |
| Inventory.ViewBeverage | routes/beverage.py:56-68 | 404 exactly when the id has no row; otherwise the details of the joined record |
| Inventory.EditBeverage | routes/beverage.py:71-113 | a valid POST overwrites row `id` only, reporting the update even with no such row; GET or an invalid POST writes nothing and shows the form, or 404; a GET shows it without a flash, an invalid POST with the location or name error |
| Inventory.FinishBeverage | routes/beverage.py:116-137 | 404 with no write when the id has no row; otherwise only the location id of that row becomes 0 |
| Inventory.DeleteBeverage | routes/beverage.py:140-160 | 404 with no write when the id has no row; otherwise exactly that row goes |
| Inventory.AddLocation | routes/locations.py:22-36 | an empty name is refused with "Name is required."; any other name is created; always a redirect to the location listing |
| Inventory.EditLocation | routes/locations.py:39-52 | the name is passed unchecked to the rename; the beverages are untouched; on success the row is renamed and "<name> has been updated." flashed, on a fault nothing changes and the copy's error text is flashed; always a redirect to the location listing |
| Inventory.DeleteLocation | routes/locations.py:55-89 | refused while some beverage is held by the location; otherwise exactly that location row goes (or nothing, on a fault); beverages are never touched |
| Inventory.HoldsIffSelected | routes/locations.py:65-66 | the guard's query returns a row exactly when some beverage is held by the location |
| Store.Database.Select | utils/beverage.py:71-72 | the rows returned are a name-ordered answer of the filtered LEFT JOIN query: each matching beverage once |
| Store.Database.GetBeverages | utils/beverage.py:32-82 | returns the query text the builder makes for the filter's WHERE fragment and a name-ordered answer of that query |
| Store.Database.GetBeveragesLegacy | app/main.py:67-94 | returns the text app/main.py's own column loop builds (none exactly when no column is given, and then no rows) and otherwise a name-ordered answer of that query |
| Store.Database.GetAllLocations | utils/locations.py:8-22 | returns every location once, ordered by name |
| Store.Database.CreateLocation | utils/locations.py:43-70 | the new tables and the flashes are those of `Inventory.CreateLocation` |
| Store.Database.UpdateLocation | utils/locations.py:72-102 | the new tables and the flashes are those of `Inventory.UpdateLocation` |
| BeverageRoutes.AddBeverage | routes/beverage.py:12-53 | the new tables and the response are those of `Inventory.AddBeverage` |
| BeverageRoutes.ViewBeverage | routes/beverage.py:56-68 | the response is that of `Inventory.ViewBeverage` |
| BeverageRoutes.EditBeverage | routes/beverage.py:71-113 | the new tables and the response are those of `Inventory.EditBeverage` |
| BeverageRoutes.FinishBeverage | routes/beverage.py:116-137 | the new tables and the response are those of `Inventory.FinishBeverage` |
| BeverageRoutes.DeleteBeverage | routes/beverage.py:140-160 | the new tables and the response are those of `Inventory.DeleteBeverage` |
| LocationRoutes.Index | routes/locations.py:10-19 | lists every location once, ordered by name |
| LocationRoutes.AddLocation | routes/locations.py:22-36 | the new tables and the response are those of `Inventory.AddLocation` |
| LocationRoutes.EditLocation | routes/locations.py:39-52 | the new tables and the response are those of `Inventory.EditLocation` |
| LocationRoutes.Dependents | routes/locations.py:65 | the guard's query text is the "beverageLocationId = <id>" listing query over the one column beverageId, built by the copy's own loop (in app/main.py the same text as elsewhere); it returns a name-ordered answer of the "beverageLocationId = <id>" listing, fetched through utils/beverage.py or, in the app/main.py copy (app/main.py:218), through that file's own builder |
| LocationRoutes.DeleteLocation | routes/locations.py:55-89 | counting the rows of the "beverageLocationId = <id>" listing (built by app/main.py's own loop in that copy) decides as `Inventory.DeleteLocation` does, and the new tables and response are its |
| ListingRoutes.Index | routes/beverages.py:10-26 | the stored beverages (location id not 0), ordered by name, and the query text that selects them |
| ListingRoutes.Stored | routes/beverages.py:28-30 | the same page as the index |
| ListingRoutes.Finished | routes/beverages.py:33-41 | the finished beverages (location id 0), ordered by name |
| ListingRoutes.AllBeverages | routes/beverages.py:44-50 | every beverage, ordered by name, with the default join and no WHERE clause |
| ListingRoutes.DashboardFilter | app/app.py:205-225 | "all" selects everything, "not_stored" the finished beverages, any other argument or none the stored ones |
| ListingRoutes.Dashboard | app/app.py:195-227 | the listing and query text for the filter the `filter` argument selects |
| ListingRoutes.LegacyDashboard | app/main.py:96-101 | every beverage, ordered by name; the query is the one app/main.py's column loop builds, and it equals the default-join, no-WHERE text the other copies send |
| ListingRoutes.ListColumnsAgree | app/main.py:70-85 | for the five listing columns the app/main.py builder and the utils/beverage.py builder send the same query, whatever the fragment |
| Properties.FinishIdempotent | routes/beverage.py:116-137 | marking a beverage finished twice leaves the store as marking it once |
| Properties.FiltersPartition | routes/beverages.py:10-50 | the finished and stored selections are disjoint and together are the full selection |
| Properties.ListingsPartition | routes/beverages.py:10-50 | any answers of the finished and stored listings together hold exactly the rows of the full listing |
| Properties.NoRepeats | utils/beverage.py:71-72 | an answer of a listing query holds no row twice |
| Properties.ListingHasEachBeverageOnce | routes/beverages.py:44-50 | the full LEFT JOIN listing names every beverage exactly once, whatever its location |
| Properties.FinishMovesBetweenListings | routes/beverage.py:116-137 | finishing a beverage moves it from the stored listing to the finished one and leaves every other row where it was |
| Properties.DeleteLocationKeepsReferences | routes/locations.py:55-89 | the dependents guard never leaves a beverage pointing at a deleted location |
| Properties.OtherMutationsKeepReferences | routes/beverage.py:116-160 | finishing or deleting a beverage, and adding or renaming a location, keep every location reference valid |
| Properties.AddBeverageKeepsReferences | routes/beverage.py:12-53 | adding a beverage whose form names an existing location or 0 keeps every location reference valid |
| Properties.EditBeverageKeepsReferences | routes/beverage.py:71-113 | saving the edit form with a location that exists, or 0, keeps every location reference valid |
| Properties.AddLocationListed | routes/locations.py:22-36 | a location added with a non-empty name appears in the location listing, which grows by exactly one row |
| Properties.StoreThenFinishScenario | routes/beverage.py:116-137 | add "Kitchen", store "Merlot" there: the stored listing is exactly Merlot in the Kitchen; after finishing it the finished listing is Merlot and the stored one is empty |
| Properties.DependentsScenario | routes/locations.py:55-89 | the Kitchen cannot be deleted while Merlot is in it, and can once Merlot is deleted |

## Left out

- Process start-up: the secret key, the `.env` file, `init_db.py` and the
  schema bootstrap are outside the model. The tables start as whatever
  `Db` value the store is constructed with.
- Connections: opening, committing and closing connections, including the
  connection `finish_beverage` opens before its lookup, are left out.
  `utils/db.py` is not part of this model.
- Flask plumbing: templates, `url_for`, the request object and the flash
  queue are values (`Web.Request`, `Web.Response`, `Common.Flash`). A
  flash queued in the same request before a 404 is not carried.
- Endpoint resolution: app.py:13-14 registers only the `beverage_bp` and
  `locations_bp` blueprints, so `url_for("beverages_bp.index")` in
  routes/beverage.py cannot be built in the blueprint application.
  `Web.BeveragesHome(Blueprints)` records the endpoint the handlers name
  and does not model that failure.
- The forms' location drop-down: the add and edit forms also list every
  location. `Web.View` does not carry that list; `Store.Database.GetAllLocations`
  models the query.
- SQLite type affinity: the form's location field is an `Option<int>`
  (`None` for the empty string the handlers reject); the other fields are
  kept as text.
- NULL semantics beyond the LEFT JOIN: only the location columns of a
  listing or lookup row can be missing.
- The INNER JOIN result and projections other than the listing columns.
  Every caller passes "LEFT JOIN", and `Schema.ListRow` always carries the
  five listing columns.
- Arbitrary WHERE fragments: only the four fragments the handlers pass are
  given row semantics (`Filters.WhereFor`). The query builder itself takes
  any fragment. SQL injection through such a fragment is not modelled.
- Faults of the read queries in the state model: the handlers' listings
  assume the query runs. `QueryBuilder.FetchResult` models what a failing
  read returns. In app/main.py, `len(False)` in `delete_location` would
  raise on such a fault.
- Faults of the beverage statements: the beverage INSERT, UPDATE and DELETE
  have no error handling in the source. Their faults are not modelled.
- Concurrency: the race between the fetch and the write in
  `finish_beverage` and `delete_beverage` needs concurrent requests. The
  model has none.
- Store.Database.GetBeveragesLegacy: with no column app/main.py raises on
  the unbound column text before any query is sent. The model returns no
  query and no rows and does not model the raise. Every handler passes at
  least one column.
- Rowid exhaustion: when the largest rowid is 2^63-1, SQLite picks a random
  unused id. `Schema.NextRowId` always returns the largest id plus one.
- Listing tie order: rows with equal names may come in any order, as in
  SQLite. The listing specifications fix only the order by name and the
  multiset of rows.
