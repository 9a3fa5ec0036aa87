/**
 * The location handlers (routes/locations.py, and their copies in app/app.py
 * and app/main.py). Every one of them ends in a redirect to the location
 * listing.
 */
module LocationRoutes {
  import opened Common
  import opened Schema
  import opened Web
  import opened Filters
  import opened Store
  import Inventory
  import QueryBuilder

  /** The location listing page. */
  method Index(store: Database) returns (rows: seq<LocationRow>)
    ensures Inventory.IsLocationListing(rows, store.State())
  {
    rows := store.GetAllLocations();
  }

  /** `add_location`. */
  method AddLocation(store: Database, layout: Layout, name: string, fault: Option<Fault>) returns (resp: Response)
    modifies store
    ensures Inventory.Transition(store.State(), resp) == Inventory.AddLocation(old(store.State()), layout, name, fault)
  {
    if name == "" {
      resp := Redirect([Flash("Name is required.", Error)], LocationsHome(layout));
    } else {
      var flashes := store.CreateLocation(layout, name, fault);
      resp := Redirect(flashes, LocationsHome(layout));
    }
  }

  /** `edit_location`. */
  method EditLocation(store: Database, layout: Layout, id: nat, name: string, fault: Option<Fault>) returns (resp: Response)
    modifies store
    ensures Inventory.Transition(store.State(), resp) == Inventory.EditLocation(old(store.State()), layout, id, name, fault)
  {
    var flashes := store.UpdateLocation(layout, id, name, fault);
    resp := Redirect(flashes, LocationsHome(layout));
  }

  /**
   * The guard's query of `delete_location`: the beverages listed under the
   * filter "beverageLocationId = <id>", fetched through the copy's own
   * `get_beverages`. Both builders send the same text for this one column.
   */
  method Dependents(store: Database, layout: Layout, id: nat) returns (sql: Option<string>, beverages: seq<ListRow>)
    ensures layout == Legacy ==> sql == QueryBuilder.LegacyQuery(["beverageId"], "LEFT JOIN", WhereFor(LocEq(id)))
    ensures sql == Some(QueryBuilder.Query(["beverageId"], "LEFT JOIN", WhereFor(LocEq(id))))
    ensures Inventory.IsListing(beverages, store.State(), LocEq(id))
  {
    if layout == Legacy {
      sql, beverages := store.GetBeveragesLegacy(["beverageId"], LocEq(id));
      assert QueryBuilder.EndsClean(["beverageId"][0]);
      QueryBuilder.VariantsAgree(["beverageId"], "LEFT JOIN", WhereFor(LocEq(id)));
    } else {
      var text;
      text, beverages := store.GetBeverages(["beverageId"], LocEq(id));
      sql := Some(text);
    }
  }

  /**
   * `delete_location`: list the beverages whose location id is `id`; refuse
   * if there is any, else delete the location row.
   */
  method DeleteLocation(store: Database, layout: Layout, id: nat, fault: Option<Fault>) returns (resp: Response)
    modifies store
    ensures Inventory.Transition(store.State(), resp) == Inventory.DeleteLocation(old(store.State()), layout, id, fault)
  {
    var sql, beverages := Dependents(store, layout, id);
    assert |multiset(beverages)| == |beverages|;
    if |beverages| != 0 {
      resp := Redirect([Flash("You can't delete a location that still holds beverages.", Error)], LocationsHome(layout));
      return;
    }
    if fault.Some? {
      resp := Redirect([Flash(Inventory.DeleteFailure(layout, fault.value), Error)], LocationsHome(layout));
      return;
    }
    store.locations := store.locations - {id};
    resp := Redirect([Flash("The location has been deleted.", Info)], LocationsHome(layout));
  }
}
