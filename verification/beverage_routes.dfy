/**
 * The handlers for one beverage (routes/beverage.py, and their copies in
 * app/app.py and app/main.py). Each runs its checks and statements on the
 * store step by step and is proved to behave as the matching transition of
 * the Inventory model.
 */
module BeverageRoutes {
  import opened Common
  import opened Schema
  import opened Web
  import opened Store
  import Inventory

  /** `add_beverage` (GET and POST). */
  method AddBeverage(store: Database, layout: Layout, req: Request) returns (resp: Response)
    modifies store
    ensures Inventory.Transition(store.State(), resp) == Inventory.AddBeverage(old(store.State()), layout, req)
  {
    if req.Post? {
      var form := req.form;
      if form.location.None? {
        resp := Render([Flash("Location is required.", Error)], AddForm);
        return;
      } else if form.name == "" {
        resp := Render([Flash("Name is required", Error)], AddForm);
        return;
      } else {
        var id := NextRowId(store.beverages.Keys);
        store.beverages := store.beverages[id := Record(form)];
        resp := Redirect([Flash(form.name + " has been saved.", Info)], BeveragesHome(layout));
        return;
      }
    }
    resp := Render([], AddForm);
  }

  /** `view_beverage`. */
  method ViewBeverage(store: Database, id: nat) returns (resp: Response)
    ensures resp == Inventory.ViewBeverage(store.State(), id).response
  {
    var beverage := Inventory.Lookup(store.State(), id);
    if beverage.None? {
      return NotFound;
    }
    resp := Render([], Details(beverage.value));
  }

  /** `edit_beverage` (GET and POST). */
  method EditBeverage(store: Database, layout: Layout, id: nat, req: Request) returns (resp: Response)
    modifies store
    ensures Inventory.Transition(store.State(), resp) == Inventory.EditBeverage(old(store.State()), layout, id, req)
  {
    var flashes: seq<Flash> := [];
    if req.Post? {
      var form := req.form;
      if form.location.None? {
        flashes := [Flash("Location is required.", Error)];
      } else if form.name == "" {
        flashes := [Flash("Name if required", Error)];
      } else {
        if id in store.beverages {
          store.beverages := store.beverages[id := Record(form)];
        }
        resp := Redirect([Flash(form.name + " has been updated.", Info)], BeveragesHome(layout));
        return;
      }
    }
    var beverage := Inventory.Lookup(store.State(), id);
    if beverage.None? {
      return NotFound;
    }
    resp := Render(flashes, EditForm(beverage.value));
  }

  /** `finish_beverage`: fetch (or 404), then set the location id to 0. */
  method FinishBeverage(store: Database, layout: Layout, id: nat) returns (resp: Response)
    modifies store
    ensures Inventory.Transition(store.State(), resp) == Inventory.FinishBeverage(old(store.State()), layout, id)
  {
    var beverage := Inventory.Lookup(store.State(), id);
    if beverage.None? {
      return NotFound;
    }
    store.beverages := store.beverages[id := store.beverages[id].(locationId := 0)];
    resp := Redirect([Flash(beverage.value.name + " has been marked as finished.", Info)], BeveragesHome(layout));
  }

  /** `delete_beverage`: fetch (or 404), then delete the row. */
  method DeleteBeverage(store: Database, layout: Layout, id: nat) returns (resp: Response)
    modifies store
    ensures Inventory.Transition(store.State(), resp) == Inventory.DeleteBeverage(old(store.State()), layout, id)
  {
    var beverage := Inventory.Lookup(store.State(), id);
    if beverage.None? {
      return NotFound;
    }
    store.beverages := store.beverages - {id};
    resp := Redirect([Flash(beverage.value.name + " has been deleted.", Info)], BeveragesHome(layout));
  }
}
