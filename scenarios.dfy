/** Concrete runs of the calculator and the id rule over the seed catalogue. */
module Scenarios {
  import opened Types
  import opened Text
  import opened Sums
  import Ids
  import opened SeedData
  import opened UseStore
  import opened RecipePage
  import InventoryPage

  lemma SeedWellFormed()
    ensures WellFormed(InitialInventory)
  {
    SeedData.SeedInventoryQuantities();
  }

  /** The unit spellings of the seed catalogue and the formula each selects. */
  lemma SeedUnits()
    ensures Lower("kg") == "kg" && Lower("Kg") == "kg" && Lower("Liter") == "liter" && Lower("pcs") == "pcs"
  {
  }

  /** The ice cube is stocked in "Kg", which the calculator treats like "kg": 20 g cost 300. */
  lemma IceCubeUsesKgFormula()
    ensures PerThousand(InitialInventory[2].uom)
    ensures UnitCost(20.0, InitialInventory[2]) == 300.0
  {
    SeedUnits();
  }

  /** Ingredient r of the seed recipe finds seed item r. */
  lemma SeedFind(r: nat)
    requires r < 6
    ensures Find(InitialInventory, ClassicIcedCoffee.items[r].itemId) == Some(InitialInventory[r])
  {
    SeedData.SeedInventoryIds();
    SeedData.SeedRecipeReferencesExist();
    FindFirstMatch(InitialInventory, ClassicIcedCoffee.items[r].itemId, r);
  }

  /** The six formulas at the seed quantities. */
  lemma SeedUnitCosts()
    ensures SafeDivisor(InitialInventory[3])
    ensures UnitCost(15.0, InitialInventory[0]) == 900.0
    ensures UnitCost(150.0, InitialInventory[1]) == 4500.0
    ensures UnitCost(20.0, InitialInventory[2]) == 300.0
    ensures UnitCost(1.0, InitialInventory[3]) == 500.0
    ensures UnitCost(20.0, InitialInventory[4]) == 2000.0
    ensures UnitCost(50.0, InitialInventory[5]) == 250.0
  {
    SeedUnits();
  }

  /** Six ingredients whose shares are known give that list of shares. */
  lemma CostsOfSix(items: seq<RecipeItem>, inventory: seq<InventoryItem>, c: seq<real>)
    requires WellFormed(inventory) && |items| == 6 && |c| == 6
    requires forall r :: 0 <= r < 6 ==> IngredientCost(items[r], inventory) == c[r]
    ensures Costs(items, inventory) == c
  {
  }

  /** Each ingredient's share of the seed recipe. */
  lemma SeedCosts()
    ensures WellFormed(InitialInventory)
    ensures Costs(ClassicIcedCoffee.items, InitialInventory) == [900.0, 4500.0, 300.0, 500.0, 2000.0, 250.0]
  {
    SeedWellFormed();
    var items, inv := ClassicIcedCoffee.items, InitialInventory;
    var c := [900.0, 4500.0, 300.0, 500.0, 2000.0, 250.0];
    forall r | 0 <= r < 6
      ensures IngredientCost(items[r], inv) == c[r]
    {
      SeedIngredientCost(r);
    }
    CostsOfSix(items, inv, c);
  }

  lemma SeedIngredientCost(r: nat)
    requires r < 6
    ensures WellFormed(InitialInventory)
    ensures IngredientCost(ClassicIcedCoffee.items[r], InitialInventory) == [900.0, 4500.0, 300.0, 500.0, 2000.0, 250.0][r]
  {
    SeedWellFormed();
    SeedFind(r);
    SeedUnitCosts();
  }

  lemma SumOfSix(a: real, b: real, c: real, d: real, e: real, f: real)
    ensures Sum([a, b, c, d, e, f]) == a + b + c + d + e + f
  {
    SumSnoc([], a);
    assert [] + [a] == [a];
    SumSnoc([a], b);
    assert [a] + [b] == [a, b];
    SumSnoc([a, b], c);
    assert [a, b] + [c] == [a, b, c];
    SumSnoc([a, b, c], d);
    assert [a, b, c] + [d] == [a, b, c, d];
    SumSnoc([a, b, c, d], e);
    assert [a, b, c, d] + [e] == [a, b, c, d, e];
    SumSnoc([a, b, c, d, e], f);
    assert [a, b, c, d, e] + [f] == [a, b, c, d, e, f];
  }

  /** The seed recipe costs 8450 per cup and earns 16550. */
  lemma SeedCogs()
    ensures WellFormed(InitialInventory)
    ensures Cogs(ClassicIcedCoffee.items, InitialInventory) == 8450.0
    ensures Profit(ClassicIcedCoffee.sellingPrice, Cogs(ClassicIcedCoffee.items, InitialInventory)) == 16550.0
  {
    SeedCosts();
    SumOfSix(900.0, 4500.0, 300.0, 500.0, 2000.0, 250.0);
  }

  /** Sugar and milk alone: 900 + 4500. */
  lemma SugarAndMilk()
    ensures WellFormed(InitialInventory[..2])
    ensures Cogs([RecipeItem(1, 15.0), RecipeItem(2, 150.0)], InitialInventory[..2]) == 5400.0
  {
    SeedUnits();
    var inv := InitialInventory[..2];
    var items := [RecipeItem(1, 15.0), RecipeItem(2, 150.0)];
    assert Find(inv, 1) == Some(inv[0]);
    assert Find(inv, 2) == Some(inv[1]);
    assert Costs(items, inv) == [900.0, 4500.0];
    SumSnoc([], 900.0);
    assert [] + [900.0] == [900.0];
    SumSnoc([900.0], 4500.0);
    assert [900.0] + [4500.0] == [900.0, 4500.0];
  }

  /** One cup out of a pack of ten costing 5000 costs 500. */
  lemma OneCupOfTen()
    ensures UnitCost(1.0, InitialInventory[3]) == 500.0
  {
    SeedUnits();
  }

  /** Whatever the catalogue, deleting the item of the fourth ingredient takes that ingredient's share off the cost. */
  lemma DeleteFourth(items: seq<RecipeItem>, inventory: seq<InventoryItem>, c: seq<real>)
    requires WellFormed(inventory) && |items| == 6 && Costs(items, inventory) == c
    requires forall r :: 0 <= r < 6 ==> items[r].itemId == r + 1
    ensures WellFormed(Remove(inventory, ItemId, 4))
    ensures Cogs(items, Remove(inventory, ItemId, 4)) == c[0] + c[1] + c[2] + c[4] + c[5]
  {
    CostsAfterRemove(items, inventory, 4);
    assert Costs(items, Remove(inventory, ItemId, 4)) == [c[0], c[1], c[2], 0.0, c[4], c[5]];
    SumOfSix(c[0], c[1], c[2], 0.0, c[4], c[5]);
  }

  /** Deleting the plastic cup leaves the recipe pointing at it, and the cup then costs nothing: 8450 - 500. */
  lemma DeleteLeavesDanglingIngredient()
    ensures WellFormed(Remove(InitialInventory, ItemId, 4))
    ensures Cogs(ClassicIcedCoffee.items, Remove(InitialInventory, ItemId, 4)) == 7950.0
  {
    SeedCosts();
    DeleteFourth(ClassicIcedCoffee.items, InitialInventory, [900.0, 4500.0, 300.0, 500.0, 2000.0, 250.0]);
  }

  /** With ids 1..n in order, deleting id 1 leaves the others in place. */
  lemma {:induction false} RemoveFirstOfDense(s: seq<InventoryItem>)
    requires |s| > 0 && forall i :: 0 <= i < |s| ==> s[i].id == i + 1
    ensures Remove(s, ItemId, 1) == s[1..]
  {
    assert s == [s[0]] + s[1..];
    RemoveAppend([s[0]], s[1..], ItemId, 1);
    RemoveNoMatch(s[1..], ItemId, 1);
    assert Remove([s[0]], ItemId, 1) == [] by {
      assert [s[0]][1..] == [];
    }
  }

  /**
   * After deleting item 1 from a catalogue with ids 1..n, the written rule
   * hands out n, which the last item still holds; the corrected rule gives n + 1.
   */
  lemma IdCollisionAfterDelete(s: seq<InventoryItem>, item: InventoryItem)
    requires |s| > 1 && forall i :: 0 <= i < |s| ==> s[i].id == i + 1
    ensures var rest := Remove(s, ItemId, 1);
      Ids.AssignIdAsWritten(None, Ids.KeysOf(rest, ItemId)) == |s| == rest[|rest| - 1].id
      && DistinctKeys(rest, ItemId)
      && !DistinctKeys(rest + [item.(id := Ids.AssignIdAsWritten(None, Ids.KeysOf(rest, ItemId)))], ItemId)
      && Ids.AssignId(None, Ids.KeysOf(rest, ItemId)) == |s| + 1
  {
    RemoveFirstOfDense(s);
    DenseTailCollides(s, item);
    DenseTailMax(s);
  }

  lemma DenseTailCollides(s: seq<InventoryItem>, item: InventoryItem)
    requires |s| > 1 && forall i :: 0 <= i < |s| ==> s[i].id == i + 1
    ensures DistinctKeys(s[1..], ItemId) && s[1..][|s| - 2].id == |s|
    ensures !DistinctKeys(s[1..] + [item.(id := |s|)], ItemId)
  {
    var rest := s[1..];
    var added := rest + [item.(id := |s|)];
    assert added[|rest| - 1].id == added[|rest|].id;
  }

  lemma DenseTailMax(s: seq<InventoryItem>)
    requires |s| > 1 && forall i :: 0 <= i < |s| ==> s[i].id == i + 1
    ensures Ids.MaxId(Ids.KeysOf(s[1..], ItemId)) == |s|
  {
    var keys := Ids.KeysOf(s[1..], ItemId);
    assert |keys| == |s| - 1 && forall i :: 0 <= i < |keys| ==> keys[i] == s[i + 1].id;
    assert keys[|keys| - 1] == |s|;
    assert forall i :: 0 <= i < |keys| ==> keys[i] == i + 2;
  }

  /**
   * The seed catalogue: once Aren Sugar is deleted, the next new item gets
   * id 6, which Mineral Water holds, and the ids stop being distinct; the
   * corrected rule gives 7.
   */
  lemma InventoryIdCollision(item: InventoryItem)
    ensures var rest := Remove(InitialInventory, ItemId, 1);
      Ids.AssignIdAsWritten(None, Ids.KeysOf(rest, ItemId)) == 6 == rest[4].id
      && DistinctKeys(rest, ItemId)
      && !DistinctKeys(rest + [item.(id := Ids.AssignIdAsWritten(None, Ids.KeysOf(rest, ItemId)))], ItemId)
      && Ids.AssignId(None, Ids.KeysOf(rest, ItemId)) == 7
  {
    SeedData.SeedInventoryIds();
    var seed := InitialInventory;
    assert |seed| == 6;
    IdCollisionAfterDelete(seed, item);
  }

  /** Adding a recipe to the seed gives it id 2; after deleting recipe 1 the written rule hands out 2 again. */
  lemma RecipeIdCollision(r: Recipe)
    ensures Ids.AssignIdAsWritten(None, Ids.KeysOf(InitialRecipes, RecipeId)) == 2
    ensures var recipes := Remove(InitialRecipes + [r.(id := 2)], RecipeId, 1);
      recipes == [r.(id := 2)] && Ids.AssignIdAsWritten(None, Ids.KeysOf(recipes, RecipeId)) == 2
      && Ids.AssignId(None, Ids.KeysOf(recipes, RecipeId)) == 3
  {
    var added := r.(id := 2);
    RemoveAppend(InitialRecipes, [added], RecipeId, 1);
    assert Remove(InitialRecipes, RecipeId, 1) == [] by {
      assert InitialRecipes[1..] == [];
    }
    assert Remove([added], RecipeId, 1) == [added] by {
      assert [added][1..] == [];
    }
    var recipes := Remove(InitialRecipes + [added], RecipeId, 1);
    assert recipes == [added];
    assert Ids.KeysOf(recipes, RecipeId) == [2];
  }

  /** A search with no match leaves nothing to show, yet the written Next condition keeps the button live. */
  lemma NextLiveOnEmptySearch()
    ensures InventoryPage.Filtered(InitialInventory, "iced coffee with oat milk") == []
    ensures InventoryPage.TotalPages(0) == 0 && !InventoryPage.NextDisabledAsWritten(1, 0)
    ensures InventoryPage.NextDisabled(1, 0)
  {
    var inv, search := InitialInventory, "iced coffee with oat milk";
    forall i | 0 <= i < |inv|
      ensures !InventoryPage.Matches(inv[i], search)
    {
      ContainsLonger(Lower(inv[i].name), Lower(search));
    }
    InventoryPage.FilteredNone(inv, search);
  }
}
