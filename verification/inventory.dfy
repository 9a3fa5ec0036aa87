/**
 * The inventory as a state machine: each handler of the web layer, and each
 * data-access helper it calls, as a function from the store before the
 * request to the store after it and the response. Flask's flash, redirect
 * and abort become values of Web.Response.
 */
module Inventory {
  import opened Common
  import opened Schema
  import opened Web
  import opened Filters
  import opened Ordering
  import Messages

  // ----- reads -------------------------------------------------------------

  /**
   * `get_beverage`: the beverage joined with its location, or None where the
   * source aborts with 404.
   */
  function Lookup(db: Db, id: int): (r: Option<BeverageRow>)
    ensures r.Some? <==> id in db.beverages
    ensures r.Some? ==> var b := db.beverages[id];
      && r.value.id == id && r.value.name == b.name && r.value.year == b.year
      && r.value.purchaseDate == b.purchaseDate && r.value.drinkBefore == b.drinkBefore
      && r.value.notes == b.notes
      && (r.value.locationId.Some? <==> b.locationId in db.locations)
      && (r.value.locationId.Some? ==> r.value.locationId.value == b.locationId)
      && (r.value.locationName.Some? <==> b.locationId in db.locations)
      && (r.value.locationName.Some? ==> r.value.locationName.value == db.locations[b.locationId])
  {
    if id !in db.beverages then None
    else
      var b := db.beverages[id];
      var here := b.locationId in db.locations;
      Some(BeverageRow(id, b.name, b.year, b.purchaseDate, b.drinkBefore, b.notes,
        if here then Some(b.locationId) else None,
        if here then Some(db.locations[b.locationId]) else None))
  }

  /** `get_location`: the location's name, or None; it never aborts. */
  function LocationName(db: Db, id: int): (r: Option<string>)
    ensures r.Some? <==> id in db.locations
    ensures r.Some? ==> r.value == db.locations[id]
  {
    if id in db.locations then Some(db.locations[id]) else None
  }

  /** The listing row of beverage `k`, LEFT JOINed with its location. */
  function RowOf(db: Db, k: int): (r: ListRow)
    requires k in db.beverages
    ensures r.id == k && r.name == db.beverages[k].name && r.year == db.beverages[k].year
    ensures r.locationId.Some? <==> db.beverages[k].locationId in db.locations
    ensures r.locationId.Some? ==> r.locationId.value == db.beverages[k].locationId
    ensures r.locationName.Some? <==> db.beverages[k].locationId in db.locations
    ensures r.locationName.Some? ==> r.locationName.value == db.locations[db.beverages[k].locationId]
  {
    var b := db.beverages[k];
    var here := b.locationId in db.locations;
    ListRow(k, b.name, b.year,
      if here then Some(b.locationId) else None,
      if here then Some(db.locations[b.locationId]) else None)
  }

  /** The rows a filtered listing query selects among the beverages keyed in `keys`. */
  function SelectedAmong(db: Db, f: Filter, keys: set<int>): set<ListRow>
  {
    set k | k in keys && k in db.beverages && Matches(f, db.beverages[k]) :: RowOf(db, k)
  }

  /** Taking one more beverage key into account adds its row when it matches, and only then. */
  lemma SelectedAmongStep(db: Db, f: Filter, keys: set<int>, k: int)
    requires k in db.beverages && k !in keys
    ensures RowOf(db, k) !in SelectedAmong(db, f, keys)
    ensures SelectedAmong(db, f, keys + {k})
      == SelectedAmong(db, f, keys) + (if Matches(f, db.beverages[k]) then {RowOf(db, k)} else {})
  {
  }

  /** The rows a filtered listing query selects: one per matching beverage. */
  function Selected(db: Db, f: Filter): set<ListRow>
  {
    SelectedAmong(db, f, db.beverages.Keys)
  }

  function RowName(r: ListRow): string { r.name }

  /**
   * `rows` is an answer of the listing query with filter `f`: the selected
   * rows, each once, ordered by beverage name (ties in any order).
   */
  ghost predicate IsListing(rows: seq<ListRow>, db: Db, f: Filter)
  {
    SortedBy(rows, RowName) && multiset(rows) == multiset(Selected(db, f))
  }

  function LocationRows(db: Db): set<LocationRow>
  {
    set k | k in db.locations :: LocationRow(k, db.locations[k])
  }

  function LocationRowName(r: LocationRow): string { r.name }

  /** `rows` is an answer of `get_all_locations`: every location, ordered by name. */
  ghost predicate IsLocationListing(rows: seq<LocationRow>, db: Db)
  {
    SortedBy(rows, LocationRowName) && multiset(rows) == multiset(LocationRows(db))
  }

  // ----- utils/locations.py ----------------------------------------------

  /** The outcome of a data-access helper: the new store and what it flashed. */
  datatype Effect = Effect(db: Db, flashes: seq<Flash>)

  function CreateFailure(layout: Layout, fault: Fault): string
  {
    if layout == Legacy then "An error occurred. Location wasn't saved." else Messages.SaveFailure(fault)
  }

  function UpdateFailure(layout: Layout, fault: Fault): string
  {
    if layout == Legacy then "An error occurred. Location wasn't updated." else Messages.SaveFailure(fault)
  }

  function DeleteFailure(layout: Layout, fault: Fault): string
  {
    if layout == Legacy then "An error occurred. The location wasn't deleted." else Messages.SaveFailure(fault)
  }

  /**
   * `create_location`: inserts a location row under the next free key.
   * `fault` is what sqlite3 raised, if anything; then nothing is committed.
   * The helper itself does not check the name.
   */
  function CreateLocation(db: Db, layout: Layout, name: string, fault: Option<Fault>): (e: Effect)
    ensures e.db.beverages == db.beverages
    ensures fault.Some? ==> e.db == db && e.flashes == [Flash(CreateFailure(layout, fault.value), Error)]
    ensures fault.None? ==>
      var id := NextRowId(db.locations.Keys);
      && id !in db.locations
      && e.db.locations.Keys == db.locations.Keys + {id}
      && e.db.locations[id] == name
      && (forall k :: k in db.locations ==> e.db.locations[k] == db.locations[k])
      && e.flashes == [Flash(name + " has been added.", Info)]
  {
    match fault
    case Some(err) => Effect(db, [Flash(CreateFailure(layout, err), Error)])
    case None =>
      var id := NextRowId(db.locations.Keys);
      Effect(db.(locations := db.locations[id := name]), [Flash(name + " has been added.", Info)])
  }

  /**
   * `update_location`: renames location `id`. An id with no row changes
   * nothing and is still reported as updated.
   */
  function UpdateLocation(db: Db, layout: Layout, id: int, newName: string, fault: Option<Fault>): (e: Effect)
    ensures e.db.beverages == db.beverages
    ensures fault.Some? ==> e.db == db && e.flashes == [Flash(UpdateFailure(layout, fault.value), Error)]
    ensures fault.None? ==>
      && e.db.locations.Keys == db.locations.Keys
      && (id in db.locations ==> e.db.locations[id] == newName)
      && (forall k :: k in db.locations && k != id ==> e.db.locations[k] == db.locations[k])
      && e.flashes == [Flash(newName + " has been updated.", Info)]
    ensures fault.None? && id !in db.locations ==> e.db == db
  {
    match fault
    case Some(err) => Effect(db, [Flash(UpdateFailure(layout, err), Error)])
    case None =>
      var locations := if id in db.locations then db.locations[id := newName] else db.locations;
      Effect(db.(locations := locations), [Flash(newName + " has been updated.", Info)])
  }

  // ----- routes/beverage.py ----------------------------------------------

  /** The validation message for a form, location checked before name; None when valid. */
  function Invalid(form: Form, nameMessage: string): (m: Option<string>)
    ensures m.None? <==> form.location.Some? && form.name != ""
    ensures form.location.None? ==> m == Some("Location is required.")
    ensures form.location.Some? && form.name == "" ==> m == Some(nameMessage)
  {
    if form.location.None? then Some("Location is required.")
    else if form.name == "" then Some(nameMessage)
    else None
  }

  datatype Transition = Transition(db: Db, response: Response)

  /**
   * `add_beverage`: a GET shows the form; a POST missing its location, or
   * else its name, shows the form again with an error and writes nothing;
   * a valid POST inserts one beverage carrying the six fields under the next
   * free key and redirects to the beverage listing.
   */
  function AddBeverage(db: Db, layout: Layout, req: Request): (t: Transition)
    ensures t.db.locations == db.locations
    ensures req.Get? ==> t == Transition(db, Render([], AddForm))
    ensures req.Post? && req.form.location.None? ==>
      t == Transition(db, Render([Flash("Location is required.", Error)], AddForm))
    ensures req.Post? && req.form.location.Some? && req.form.name == "" ==>
      t == Transition(db, Render([Flash("Name is required", Error)], AddForm))
    ensures t.db != db ==> req.Post? && req.form.location.Some? && req.form.name != ""
    ensures req.Post? && req.form.location.Some? && req.form.name != "" ==>
      var id := NextRowId(db.beverages.Keys);
      && id !in db.beverages
      && t.db.beverages.Keys == db.beverages.Keys + {id}
      && t.db.beverages[id] == Record(req.form)
      && (forall k :: k in db.beverages ==> t.db.beverages[k] == db.beverages[k])
      && t.response == Redirect([Flash(req.form.name + " has been saved.", Info)], BeveragesHome(layout))
  {
    match req
    case Get => Transition(db, Render([], AddForm))
    case Post(form) =>
      match Invalid(form, "Name is required")
      case Some(m) => Transition(db, Render([Flash(m, Error)], AddForm))
      case None =>
        var id := NextRowId(db.beverages.Keys);
        Transition(db.(beverages := db.beverages[id := Record(form)]),
          Redirect([Flash(form.name + " has been saved.", Info)], BeveragesHome(layout)))
  }

  /** `view_beverage`: the record, or 404. */
  function ViewBeverage(db: Db, id: int): (t: Transition)
    ensures t.db == db
    ensures t.response.NotFound? <==> id !in db.beverages
    ensures id in db.beverages ==> t.response == Render([], Details(Lookup(db, id).value))
  {
    match Lookup(db, id)
    case None => Transition(db, NotFound)
    case Some(row) => Transition(db, Render([], Details(row)))
  }

  /**
   * `edit_beverage`: a valid POST overwrites the six fields of row `id` and
   * nothing else, and reports the update even when no row has that id; a
   * GET or an invalid POST shows the edit form for the record, or 404.
   */
  function EditBeverage(db: Db, layout: Layout, id: int, req: Request): (t: Transition)
    ensures t.db.locations == db.locations
    ensures t.db.beverages.Keys == db.beverages.Keys
    ensures forall k :: k in db.beverages && k != id ==> t.db.beverages[k] == db.beverages[k]
    ensures req.Post? && req.form.location.Some? && req.form.name != "" ==>
      && (id in db.beverages ==> t.db.beverages[id] == Record(req.form))
      && t.response == Redirect([Flash(req.form.name + " has been updated.", Info)], BeveragesHome(layout))
    ensures !(req.Post? && req.form.location.Some? && req.form.name != "") ==>
      && t.db == db
      && (id !in db.beverages ==> t.response == NotFound)
      && (id in db.beverages ==> t.response.Render? && t.response.view == EditForm(Lookup(db, id).value))
    ensures req.Get? && id in db.beverages ==> t.response == Render([], EditForm(Lookup(db, id).value))
    ensures req.Post? && req.form.location.None? && id in db.beverages ==>
      t.response.flashes == [Flash("Location is required.", Error)]
    ensures req.Post? && req.form.location.Some? && req.form.name == "" && id in db.beverages ==>
      t.response.flashes == [Flash("Name if required", Error)]
    ensures id !in db.beverages ==> t.db == db
  {
    var problem := if req.Post? then Invalid(req.form, "Name if required") else Some("");
    if req.Post? && problem.None? then
      var beverages := if id in db.beverages then db.beverages[id := Record(req.form)] else db.beverages;
      Transition(db.(beverages := beverages),
        Redirect([Flash(req.form.name + " has been updated.", Info)], BeveragesHome(layout)))
    else
      var flashes := if req.Post? then [Flash(problem.value, Error)] else [];
      match Lookup(db, id)
      case None => Transition(db, NotFound)
      case Some(row) => Transition(db, Render(flashes, EditForm(row)))
  }

  /**
   * `finish_beverage`: 404 before any write when the id is missing;
   * otherwise the row's location id becomes the sentinel 0 and nothing else
   * changes.
   */
  function FinishBeverage(db: Db, layout: Layout, id: int): (t: Transition)
    ensures t.db.locations == db.locations
    ensures id !in db.beverages ==> t == Transition(db, NotFound)
    ensures id in db.beverages ==>
      && t.db.beverages.Keys == db.beverages.Keys
      && t.db.beverages[id].locationId == 0
      && t.db.beverages[id] == db.beverages[id].(locationId := t.db.beverages[id].locationId)
      && (forall k :: k in db.beverages && k != id ==> t.db.beverages[k] == db.beverages[k])
      && t.response == Redirect([Flash(db.beverages[id].name + " has been marked as finished.", Info)],
                                BeveragesHome(layout))
  {
    match Lookup(db, id)
    case None => Transition(db, NotFound)
    case Some(row) =>
      var b := db.beverages[id];
      Transition(db.(beverages := db.beverages[id := b.(locationId := 0)]),
        Redirect([Flash(row.name + " has been marked as finished.", Info)], BeveragesHome(layout)))
  }

  /** `delete_beverage`: 404 when the id is missing; otherwise exactly that row goes. */
  function DeleteBeverage(db: Db, layout: Layout, id: int): (t: Transition)
    ensures t.db.locations == db.locations
    ensures id !in db.beverages ==> t == Transition(db, NotFound)
    ensures id in db.beverages ==>
      && t.db.beverages.Keys == db.beverages.Keys - {id}
      && (forall k :: k in t.db.beverages ==> t.db.beverages[k] == db.beverages[k])
      && t.response == Redirect([Flash(db.beverages[id].name + " has been deleted.", Info)],
                                BeveragesHome(layout))
  {
    match Lookup(db, id)
    case None => Transition(db, NotFound)
    case Some(row) =>
      Transition(db.(beverages := db.beverages - {id}),
        Redirect([Flash(row.name + " has been deleted.", Info)], BeveragesHome(layout)))
  }

  // ----- routes/locations.py ---------------------------------------------

  /** `add_location`: an empty name is refused; any other goes to `create_location`. */
  function AddLocation(db: Db, layout: Layout, name: string, fault: Option<Fault>): (t: Transition)
    ensures t.response.Redirect? && t.response.endpoint == LocationsHome(layout)
    ensures t.db.beverages == db.beverages
    ensures name == "" ==> t.db == db && t.response.flashes == [Flash("Name is required.", Error)]
    ensures name != "" ==>
      var e := CreateLocation(db, layout, name, fault);
      t.db == e.db && t.response.flashes == e.flashes
  {
    if name == "" then Transition(db, Redirect([Flash("Name is required.", Error)], LocationsHome(layout)))
    else
      var e := CreateLocation(db, layout, name, fault);
      Transition(e.db, Redirect(e.flashes, LocationsHome(layout)))
  }

  /** `edit_location`: the name goes to `update_location` unchecked, even when empty. */
  function EditLocation(db: Db, layout: Layout, id: int, name: string, fault: Option<Fault>): (t: Transition)
    ensures t.response.Redirect? && t.response.endpoint == LocationsHome(layout)
    ensures t.db.beverages == db.beverages
    ensures fault.Some? ==> t.db == db
    ensures t.db.locations.Keys == db.locations.Keys
    ensures fault.None? && id in db.locations ==> t.db.locations[id] == name
    ensures forall k :: k in db.locations && k != id ==> t.db.locations[k] == db.locations[k]
    ensures fault.None? ==> t.response.flashes == [Flash(name + " has been updated.", Info)]
    ensures fault.Some? ==> t.response.flashes == [Flash(UpdateFailure(layout, fault.value), Error)]
  {
    var e := UpdateLocation(db, layout, id, name, fault);
    Transition(e.db, Redirect(e.flashes, LocationsHome(layout)))
  }

  /** Some beverage has `location` as its location id. */
  predicate Holds(db: Db, location: int)
  {
    exists k :: k in db.beverages && db.beverages[k].locationId == location
  }

  /**
   * `delete_location`: refused while the listing query for
   * "beverageLocationId = <id>" returns any row; otherwise the location row
   * goes (if the statement succeeds). The beverages are never touched.
   */
  function DeleteLocation(db: Db, layout: Layout, id: nat, fault: Option<Fault>): (t: Transition)
    ensures t.response.Redirect? && t.response.endpoint == LocationsHome(layout)
    ensures t.db.beverages == db.beverages
    ensures Holds(db, id) ==>
      t == Transition(db, Redirect([Flash("You can't delete a location that still holds beverages.", Error)],
                                   LocationsHome(layout)))
    ensures !Holds(db, id) && fault.Some? ==>
      t.db == db && t.response.flashes == [Flash(DeleteFailure(layout, fault.value), Error)]
    ensures !Holds(db, id) && fault.None? ==>
      && t.db.locations.Keys == db.locations.Keys - {id}
      && (forall k :: k in t.db.locations ==> t.db.locations[k] == db.locations[k])
      && t.response.flashes == [Flash("The location has been deleted.", Info)]
  {
    HoldsIffSelected(db, id);
    if Selected(db, LocEq(id)) != {} then
      Transition(db, Redirect([Flash("You can't delete a location that still holds beverages.", Error)],
                              LocationsHome(layout)))
    else
      match fault
      case Some(err) => Transition(db, Redirect([Flash(DeleteFailure(layout, err), Error)], LocationsHome(layout)))
      case None =>
        Transition(db.(locations := db.locations - {id}),
          Redirect([Flash("The location has been deleted.", Info)], LocationsHome(layout)))
  }

  /** The guard's query returns a row exactly when some beverage is held by the location. */
  lemma HoldsIffSelected(db: Db, id: nat)
    ensures Holds(db, id) <==> Selected(db, LocEq(id)) != {}
  {
    if Holds(db, id) {
      var k :| k in db.beverages && db.beverages[k].locationId == id;
      assert RowOf(db, k) in Selected(db, LocEq(id));
    }
  }
}
