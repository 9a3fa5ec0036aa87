/** What the handlers guarantee together: listings, the finished sentinel, the dependents guard. */
module Properties {
  import opened Common
  import opened Schema
  import opened Web
  import opened Filters
  import opened Inventory

  /** Marking a beverage finished twice leaves the store as marking it once. */
  lemma FinishIdempotent(db: Db, layout: Layout, id: int)
    ensures var once := FinishBeverage(db, layout, id).db;
      FinishBeverage(once, layout, id).db == once
  {
    var once := FinishBeverage(db, layout, id).db;
    if id in db.beverages {
      assert once.beverages[id := once.beverages[id].(locationId := 0)] == once.beverages;
    }
  }

  /** The finished and the stored listings never share a row, and together they are the full listing. */
  lemma FiltersPartition(db: Db)
    ensures Selected(db, LocIsZero) !! Selected(db, LocNonZero)
    ensures Selected(db, LocIsZero) + Selected(db, LocNonZero) == Selected(db, All)
  {
  }

  /**
   * Any answers of the finished, the stored and the unfiltered listing
   * queries: the first two together hold exactly the rows of the third,
   * whatever order ties come in.
   */
  lemma ListingsPartition(db: Db, finished: seq<ListRow>, stored: seq<ListRow>, all: seq<ListRow>)
    requires IsListing(finished, db, LocIsZero)
    requires IsListing(stored, db, LocNonZero)
    requires IsListing(all, db, All)
    ensures multiset(finished) + multiset(stored) == multiset(all)
  {
    FiltersPartition(db);
    DisjointUnionMultiset(Selected(db, LocIsZero), Selected(db, LocNonZero));
  }

  lemma DisjointUnionMultiset<T>(a: set<T>, b: set<T>)
    requires a !! b
    ensures multiset(a + b) == multiset(a) + multiset(b)
  {
    forall x
      ensures multiset(a + b)[x] == (multiset(a) + multiset(b))[x]
    {
      if x in a { assert x !in b; }
    }
  }

  /** A sequence with the multiset of a set holds no element twice. */
  lemma NoRepeats<T>(rows: seq<T>, s: set<T>)
    requires multiset(rows) == multiset(s)
    ensures forall i, j :: 0 <= i < j < |rows| ==> rows[i] != rows[j]
  {
    forall i, j | 0 <= i < j < |rows|
      ensures rows[i] != rows[j]
    {
      assert rows == rows[..j] + rows[j..];
      assert rows[i] in multiset(rows[..j]);
      assert rows[j] in multiset(rows[j..]);
      assert multiset(s)[rows[j]] <= 1;
    }
  }

  /**
   * The LEFT JOIN against the location key lists every beverage exactly
   * once, held by a missing location (or by the sentinel 0) or not.
   */
  lemma ListingHasEachBeverageOnce(db: Db, rows: seq<ListRow>)
    requires IsListing(rows, db, All)
    ensures forall i, j :: 0 <= i < j < |rows| ==> rows[i].id != rows[j].id
    ensures forall k :: k in db.beverages <==> exists i :: 0 <= i < |rows| && rows[i].id == k
  {
    var s := Selected(db, All);
    forall i | 0 <= i < |rows|
      ensures rows[i] in s
    {
      assert rows[i] in multiset(rows);
    }
    NoRepeats(rows, s);
    assert forall x, y :: x in s && y in s && x.id == y.id ==> x == y;
    forall k | k in db.beverages
      ensures exists i :: 0 <= i < |rows| && rows[i].id == k
    {
      assert RowOf(db, k) in s;
      assert RowOf(db, k) in multiset(rows);
      var i :| 0 <= i < |rows| && rows[i] == RowOf(db, k);
    }
  }

  /**
   * After a beverage is marked finished it leaves the stored listing and
   * joins the finished one (with no location columns unless a location 0
   * exists); every other beverage stays where it was.
   */
  lemma FinishMovesBetweenListings(db: Db, layout: Layout, id: int)
    requires id in db.beverages
    ensures var after := FinishBeverage(db, layout, id).db;
      && Selected(after, LocNonZero) == Selected(db, LocNonZero) - {RowOf(db, id)}
      && Selected(after, LocIsZero) == Selected(db, LocIsZero) - {RowOf(db, id)} + {RowOf(after, id)}
  {
    var after := FinishBeverage(db, layout, id).db;
    assert forall k :: k in db.beverages && k != id ==> RowOf(after, k) == RowOf(db, k);
    forall r | r in Selected(db, LocNonZero) - {RowOf(db, id)}
      ensures r in Selected(after, LocNonZero)
    {
      var k :| k in db.beverages && Matches(LocNonZero, db.beverages[k]) && RowOf(db, k) == r;
      assert k != id;
    }
    forall r | r in Selected(db, LocIsZero) - {RowOf(db, id)}
      ensures r in Selected(after, LocIsZero)
    {
      var k :| k in db.beverages && Matches(LocIsZero, db.beverages[k]) && RowOf(db, k) == r;
      assert k != id;
    }
  }

  /** Every beverage is finished (sentinel 0) or held by an existing location. */
  ghost predicate ReferencesValid(db: Db)
  {
    forall k :: k in db.beverages ==> db.beverages[k].locationId == 0 || db.beverages[k].locationId in db.locations
  }

  /**
   * The dependents guard keeps every beverage's location in the table:
   * deleting a location never leaves a beverage pointing at a missing one.
   */
  lemma DeleteLocationKeepsReferences(db: Db, layout: Layout, id: nat, fault: Option<Fault>)
    requires ReferencesValid(db)
    ensures ReferencesValid(DeleteLocation(db, layout, id, fault).db)
  {
    var after := DeleteLocation(db, layout, id, fault).db;
    forall k | k in after.beverages
      ensures after.beverages[k].locationId == 0 || after.beverages[k].locationId in after.locations
    {
      if after.locations != db.locations {
        assert !Holds(db, id);
        assert db.beverages[k].locationId != id;
      }
    }
  }

  /** Finishing, deleting a beverage, or adding or renaming a location keep the references valid. */
  lemma OtherMutationsKeepReferences(db: Db, layout: Layout, id: int, name: string, fault: Option<Fault>)
    requires ReferencesValid(db)
    ensures ReferencesValid(FinishBeverage(db, layout, id).db)
    ensures ReferencesValid(DeleteBeverage(db, layout, id).db)
    ensures ReferencesValid(AddLocation(db, layout, name, fault).db)
    ensures ReferencesValid(EditLocation(db, layout, id, name, fault).db)
  {
  }

  /** Adding a beverage keeps the references valid when the form names an existing location or 0. */
  lemma AddBeverageKeepsReferences(db: Db, layout: Layout, req: Request)
    requires ReferencesValid(db)
    requires req.Post? && req.form.location.Some? ==>
      req.form.location.value == 0 || req.form.location.value in db.locations
    ensures ReferencesValid(AddBeverage(db, layout, req).db)
  {
  }

  /** Saving the edit form keeps the references valid when the form names an existing location or 0. */
  lemma EditBeverageKeepsReferences(db: Db, layout: Layout, id: int, req: Request)
    requires ReferencesValid(db)
    requires req.Post? && req.form.location.Some? ==>
      req.form.location.value == 0 || req.form.location.value in db.locations
    ensures ReferencesValid(EditBeverage(db, layout, id, req).db)
  {
  }

  /**
   * A location created with a valid name shows up in the location listing,
   * which grows by exactly one row.
   */
  lemma AddLocationListed(db: Db, layout: Layout, name: string)
    requires name != ""
    ensures var after := AddLocation(db, layout, name, None).db;
      && LocationRow(NextRowId(db.locations.Keys), name) in LocationRows(after)
      && |LocationRows(after)| == |LocationRows(db)| + 1
  {
    var id := NextRowId(db.locations.Keys);
    var after := AddLocation(db, layout, name, None).db;
    assert after.locations == db.locations[id := name];
    var old_rows, new_rows := LocationRows(db), LocationRows(after);
    forall r | r in new_rows
      ensures r in old_rows + {LocationRow(id, name)}
    {
      var k :| k in after.locations && r == LocationRow(k, after.locations[k]);
      if k != id { assert k in db.locations; }
    }
    forall r | r in old_rows
      ensures r in new_rows && r.id != id
    {
      var k :| k in db.locations && r == LocationRow(k, db.locations[k]);
      assert after.locations[k] == db.locations[k];
    }
    assert LocationRow(id, name) in new_rows;
    assert new_rows == old_rows + {LocationRow(id, name)};
  }

  /**
   * A scenario on an empty store: add "Kitchen", add "Merlot" there; the
   * stored listing holds exactly Merlot in the Kitchen; after Merlot is
   * marked finished it is the finished listing and the stored one is empty.
   */
  lemma StoreThenFinishScenario()
    ensures
      var db0 := Db(map[], map[]);
      var db1 := AddLocation(db0, Blueprints, "Kitchen", None).db;
      var merlot := Form(Some(1), "Merlot", "2020", "", "", "");
      var db2 := AddBeverage(db1, Blueprints, Post(merlot)).db;
      var db3 := FinishBeverage(db2, Blueprints, 1).db;
      && Selected(db2, LocNonZero) == {ListRow(1, "Merlot", "2020", Some(1), Some("Kitchen"))}
      && Selected(db3, LocIsZero) == {ListRow(1, "Merlot", "2020", None, None)}
      && Selected(db3, LocNonZero) == {}
  {
    var db0 := Db(map[], map[]);
    var db1 := AddLocation(db0, Blueprints, "Kitchen", None).db;
    assert db1.locations == map[1 := "Kitchen"];
    var merlot := Form(Some(1), "Merlot", "2020", "", "", "");
    var db2 := AddBeverage(db1, Blueprints, Post(merlot)).db;
    assert db2.beverages == map[1 := Record(merlot)];
    assert Selected(db2, LocNonZero) == {RowOf(db2, 1)};
    var db3 := FinishBeverage(db2, Blueprints, 1).db;
    assert db3.beverages == map[1 := Record(merlot).(locationId := 0)];
    assert Selected(db3, LocIsZero) == {RowOf(db3, 1)};
  }

  /**
   * A scenario: the Kitchen cannot be deleted while Merlot is kept there;
   * once Merlot is deleted, deleting the Kitchen empties the location table.
   */
  lemma DependentsScenario()
    ensures
      var db1 := Db(map[1 := "Kitchen"], map[]);
      var db2 := AddBeverage(db1, Blueprints, Post(Form(Some(1), "Merlot", "2020", "", "", ""))).db;
      var refused := DeleteLocation(db2, Blueprints, 1, None);
      var db3 := DeleteBeverage(db2, Blueprints, 1).db;
      && refused.db == db2
      && refused.response.flashes == [Flash("You can't delete a location that still holds beverages.", Error)]
      && DeleteLocation(db3, Blueprints, 1, None).db.locations == map[]
  {
    var db1 := Db(map[1 := "Kitchen"], map[]);
    var db2 := AddBeverage(db1, Blueprints, Post(Form(Some(1), "Merlot", "2020", "", "", ""))).db;
    assert db2.beverages.Keys == {1} && db2.beverages[1].locationId == 1;
    assert Holds(db2, 1);
    var db3 := DeleteBeverage(db2, Blueprints, 1).db;
    assert db3.beverages == map[];
    assert !Holds(db3, 1);
  }
}
