/**
 * The recipe screen: the cost-of-goods calculator, the per-cup and
 * multi-cup figures, the construction of a recipe from the form, and the
 * screen's own state.
 */
module RecipePage {
  import opened Types
  import opened Text
  import Ids
  import opened UseStore
  import opened Sums

  /** The two units whose batch is taken to be 1000 recipe sub-units (grams, millilitres), whatever its `quantity`. */
  predicate PerThousand(uom: string) {
    Lower(uom) == "kg" || Lower(uom) == "liter"
  }

  /** The calculator divides by `quantity` for every unit but kg and liter. */
  predicate SafeDivisor(item: InventoryItem) {
    PerThousand(item.uom) || item.quantity > 0.0
  }

  predicate WellFormed(inventory: seq<InventoryItem>) {
    forall item :: item in inventory ==> SafeDivisor(item)
  }

  /** `inventory.find(i => i.id === id)`. */
  function Find(inventory: seq<InventoryItem>, id: int): (r: Option<InventoryItem>)
    ensures r.None? <==> forall i :: 0 <= i < |inventory| ==> inventory[i].id != id
    ensures r.Some? ==> r.value in inventory && r.value.id == id
  {
    if inventory == [] then None
    else if inventory[0].id == id then Some(inventory[0])
    else Find(inventory[1..], id)
  }

  /** With repeated ids, the first matching item in inventory order is the one found. */
  lemma {:induction false} FindFirstMatch(inventory: seq<InventoryItem>, id: int, j: nat)
    requires j < |inventory| && inventory[j].id == id
    requires forall i :: 0 <= i < j ==> inventory[i].id != id
    ensures Find(inventory, id) == Some(inventory[j])
  {
    if j > 0 {
      FindFirstMatch(inventory[1..], id, j - 1);
    }
  }

  /** The cost of `q` sub-units of `item`: the `switch` on the lower-cased unit. */
  function UnitCost(q: real, item: InventoryItem): real
    requires SafeDivisor(item)
  {
    match Lower(item.uom)
    case "kg" => (q / 1000.0) * item.pricePerQty
    case "liter" => (q / 1000.0) * item.pricePerQty
    case "pcs" => (q / item.quantity) * item.pricePerQty
    case _ => (q / item.quantity) * item.pricePerQty
  }

  /** For kg and liter, 1000 sub-units cost the batch price, and the batch size plays no part. */
  lemma PerThousandCost(q: real, item: InventoryItem, size: real)
    requires PerThousand(item.uom)
    ensures UnitCost(1000.0, item) == item.pricePerQty
    ensures UnitCost(q, item) == UnitCost(q, item.(quantity := size))
  {
  }

  /** For pcs and every other unit, a whole batch costs the batch price. */
  lemma PerBatchCost(item: InventoryItem)
    requires !PerThousand(item.uom) && item.quantity > 0.0
    ensures UnitCost(item.quantity, item) == item.pricePerQty
  {
  }

  /** The cost is linear in the quantity. */
  lemma UnitCostScales(q: real, k: real, item: InventoryItem)
    requires SafeDivisor(item)
    ensures UnitCost(k * q, item) == k * UnitCost(q, item)
  {
    if PerThousand(item.uom) {
      assert UnitCost(k * q, item) * 1000.0 == k * (UnitCost(q, item) * 1000.0);
    } else {
      assert UnitCost(k * q, item) * item.quantity == k * (UnitCost(q, item) * item.quantity);
    }
  }

  /** One ingredient's share: zero when its item is missing. */
  function IngredientCost(ingredient: RecipeItem, inventory: seq<InventoryItem>): real
    requires WellFormed(inventory)
  {
    match Find(inventory, ingredient.itemId)
    case None => 0.0
    case Some(item) => UnitCost(ingredient.quantity, item)
  }

  /** The four cases of the unit switch come to two formulas: 1000 sub-units per batch for kg and liter, `quantity` for the rest. */
  lemma UnitCostFormula(q: real, item: InventoryItem)
    requires SafeDivisor(item)
    ensures UnitCost(q, item) == (q / (if PerThousand(item.uom) then 1000.0 else item.quantity)) * item.pricePerQty
  {
  }

  /** An ingredient costs nothing when no item has its id, and otherwise what the first such item in inventory order charges. */
  lemma IngredientCostFirstMatch(ingredient: RecipeItem, inventory: seq<InventoryItem>, j: nat)
    requires WellFormed(inventory)
    requires j <= |inventory|
    requires forall i :: 0 <= i < j ==> inventory[i].id != ingredient.itemId
    ensures j == |inventory| ==> IngredientCost(ingredient, inventory) == 0.0
    ensures j < |inventory| && inventory[j].id == ingredient.itemId ==>
      IngredientCost(ingredient, inventory) == UnitCost(ingredient.quantity, inventory[j])
  {
    if j < |inventory| && inventory[j].id == ingredient.itemId {
      FindFirstMatch(inventory, ingredient.itemId, j);
    }
  }

  /** After `deleteInventoryItem(id)` nothing with that id is found, and every other lookup is as before. */
  lemma {:induction false} FindAfterRemove(inventory: seq<InventoryItem>, id: int, x: int)
    ensures Find(Remove(inventory, ItemId, id), x) == if x == id then None else Find(inventory, x)
  {
    if inventory != [] {
      var rest := Remove(inventory[1..], ItemId, id);
      FindAfterRemove(inventory[1..], id, x);
      if inventory[0].id == id {
        assert Remove(inventory, ItemId, id) == [] + rest;
        assert [] + rest == rest;
      } else {
        var r := [inventory[0]] + rest;
        assert Remove(inventory, ItemId, id) == r;
        assert r[0] == inventory[0] && r[1..] == rest;
      }
    }
  }

  /** Deleting an item does not touch the recipes that use it: their ingredient stays and then costs nothing. */
  lemma IngredientCostAfterRemove(ingredient: RecipeItem, inventory: seq<InventoryItem>, id: int)
    requires WellFormed(inventory)
    ensures WellFormed(Remove(inventory, ItemId, id))
    ensures IngredientCost(ingredient, Remove(inventory, ItemId, id))
         == if ingredient.itemId == id then 0.0 else IngredientCost(ingredient, inventory)
  {
    FindAfterRemove(inventory, id, ingredient.itemId);
  }

  /** Each ingredient's share, in recipe order. */
  function Costs(items: seq<RecipeItem>, inventory: seq<InventoryItem>): (costs: seq<real>)
    requires WellFormed(inventory)
    ensures |costs| == |items|
  {
    seq(|items|, i requires 0 <= i < |items| => IngredientCost(items[i], inventory))
  }

  /** `calculateCOGS`: `items.reduce((total, r) => total + cost(r), 0)`, left to right. */
  function Cogs(items: seq<RecipeItem>, inventory: seq<InventoryItem>): real
    requires WellFormed(inventory)
  {
    Sum(Costs(items, inventory))
  }

  /** After a delete, the ingredients that used the item cost nothing and the others cost what they did. */
  lemma CostsAfterRemove(items: seq<RecipeItem>, inventory: seq<InventoryItem>, id: int)
    requires WellFormed(inventory)
    ensures WellFormed(Remove(inventory, ItemId, id))
    ensures forall r :: 0 <= r < |items| ==>
      Costs(items, Remove(inventory, ItemId, id))[r] == if items[r].itemId == id then 0.0 else Costs(items, inventory)[r]
  {
    forall r | 0 <= r < |items|
      ensures Costs(items, Remove(inventory, ItemId, id))[r]
           == if items[r].itemId == id then 0.0 else Costs(items, inventory)[r]
    {
      IngredientCostAfterRemove(items[r], inventory, id);
    }
  }

  /** The cost of a concatenation is the sum of the costs. */
  lemma CogsAppend(a: seq<RecipeItem>, b: seq<RecipeItem>, inventory: seq<InventoryItem>)
    requires WellFormed(inventory)
    ensures Cogs(a + b, inventory) == Cogs(a, inventory) + Cogs(b, inventory)
  {
    assert Costs(a + b, inventory) == Costs(a, inventory) + Costs(b, inventory);
    SumAppend(Costs(a, inventory), Costs(b, inventory));
  }

  /** An empty recipe costs nothing, and a one-ingredient recipe costs that ingredient's share. */
  lemma CogsBase(ingredient: RecipeItem, inventory: seq<InventoryItem>)
    requires WellFormed(inventory)
    ensures Cogs([], inventory) == 0.0
    ensures Cogs([ingredient], inventory) == IngredientCost(ingredient, inventory)
  {
    assert Costs([ingredient], inventory)[..0] == [];
  }

  /** `calculateCOGS` is the `reduce` it is written as: it starts at 0 and each ingredient adds its share on the right. */
  lemma CogsIsReduce(items: seq<RecipeItem>, ingredient: RecipeItem, inventory: seq<InventoryItem>)
    requires WellFormed(inventory)
    ensures Cogs([], inventory) == 0.0
    ensures Cogs(items + [ingredient], inventory) == Cogs(items, inventory) + IngredientCost(ingredient, inventory)
  {
    CogsBase(ingredient, inventory);
    CogsAppend(items, [ingredient], inventory);
  }

  /** An ingredient whose item is not in the inventory adds nothing, whatever its quantity. */
  lemma MissingItemIsFree(a: seq<RecipeItem>, ingredient: RecipeItem, b: seq<RecipeItem>, inventory: seq<InventoryItem>)
    requires WellFormed(inventory)
    requires forall i :: 0 <= i < |inventory| ==> inventory[i].id != ingredient.itemId
    ensures IngredientCost(ingredient, inventory) == 0.0
    ensures Cogs(a + [ingredient] + b, inventory) == Cogs(a + b, inventory)
  {
    CogsBase(ingredient, inventory);
    CogsAppend(a, [ingredient], inventory);
    CogsAppend(a + [ingredient], b, inventory);
    CogsAppend(a, b, inventory);
  }

  /** Every ingredient quantity multiplied by `k`. */
  function ScaleItems(items: seq<RecipeItem>, k: real): seq<RecipeItem> {
    seq(|items|, i requires 0 <= i < |items| => RecipeItem(items[i].itemId, k * items[i].quantity))
  }

  /** Scaling one ingredient's quantity by `k` scales its share by `k`. */
  lemma IngredientCostScales(ingredient: RecipeItem, k: real, inventory: seq<InventoryItem>)
    requires WellFormed(inventory)
    ensures IngredientCost(RecipeItem(ingredient.itemId, k * ingredient.quantity), inventory) == k * IngredientCost(ingredient, inventory)
  {
    match Find(inventory, ingredient.itemId)
    case None =>
    case Some(item) =>
      UnitCostScales(ingredient.quantity, k, item);
  }

  /** Scaling every quantity by `k` scales every share by `k`. */
  lemma CostsScale(items: seq<RecipeItem>, k: real, inventory: seq<InventoryItem>)
    requires WellFormed(inventory)
    ensures Costs(ScaleItems(items, k), inventory) == Scaled(Costs(items, inventory), k)
  {
    var scaled, costs := Costs(ScaleItems(items, k), inventory), Costs(items, inventory);
    forall i | 0 <= i < |items|
      ensures scaled[i] == Scaled(costs, k)[i]
    {
      assert ScaleItems(items, k)[i] == RecipeItem(items[i].itemId, k * items[i].quantity);
      IngredientCostScales(items[i], k, inventory);
    }
  }

  /** Scaling every quantity by `k` scales the cost by `k`. */
  lemma CogsScales(items: seq<RecipeItem>, k: real, inventory: seq<InventoryItem>)
    requires WellFormed(inventory)
    ensures Cogs(ScaleItems(items, k), inventory) == k * Cogs(items, inventory)
  {
    var costs := Costs(items, inventory);
    CostsScale(items, k, inventory);
    assert Cogs(ScaleItems(items, k), inventory) == Sum(Scaled(costs, k));
    SumScaled(costs, k);
  }

  /** With non-negative prices and quantities the cost is non-negative. */
  lemma CogsNonNegative(items: seq<RecipeItem>, inventory: seq<InventoryItem>)
    requires WellFormed(inventory)
    requires forall item :: item in inventory ==> item.pricePerQty >= 0.0
    requires forall i :: 0 <= i < |items| ==> items[i].quantity >= 0.0
    ensures Cogs(items, inventory) >= 0.0
  {
    var costs := Costs(items, inventory);
    forall i | 0 <= i < |items|
      ensures costs[i] >= 0.0
    {
      match Find(inventory, items[i].itemId)
      case None =>
      case Some(item) =>
        var q, p := items[i].quantity, item.pricePerQty;
        if PerThousand(item.uom) {
          assert UnitCost(q, item) == (q / 1000.0) * p;
        } else {
          assert q / item.quantity >= 0.0;
          assert UnitCost(q, item) == (q / item.quantity) * p;
        }
    }
    SumNonNegative(costs);
  }

  /** The cups field: `Math.max(1, parseInt(value) || 1)`; `None` is a value that does not parse. */
  function ClampCups(parsed: Option<int>): (cups: nat)
    ensures cups >= 1
    ensures parsed.Some? && parsed.value >= 1 ==> cups == parsed.value
    ensures parsed.None? || parsed.value < 1 ==> cups == 1
  {
    match parsed
    case None => 1
    case Some(n) => if n == 0 then 1 else if n > 1 then n else 1
  }

  /** "Total COGS": the per-cup cost times the cup count. */
  function TotalCost(costPerCup: real, cups: nat): real {
    costPerCup * cups as real
  }

  /** "Profit": selling price less the per-cup cost. */
  function Profit(sellingPrice: real, costPerCup: real): real {
    sellingPrice - costPerCup
  }

  /** "Total Profit": the per-cup profit times the cup count. */
  function TotalProfit(sellingPrice: real, costPerCup: real, cups: nat): real {
    Profit(sellingPrice, costPerCup) * cups as real
  }

  /** One cup costs the per-cup cost, and the total cost adds up over cups. */
  lemma TotalCostAddsUp(costPerCup: real, m: nat, n: nat)
    ensures TotalCost(costPerCup, 1) == costPerCup
    ensures TotalCost(costPerCup, m + n) == TotalCost(costPerCup, m) + TotalCost(costPerCup, n)
  {
  }

  /** The per-cup profit and cost make up the selling price; a cup sells at a loss exactly when it costs more than its price. */
  lemma ProfitIsMargin(sellingPrice: real, costPerCup: real)
    ensures Profit(sellingPrice, costPerCup) + costPerCup == sellingPrice
    ensures Profit(sellingPrice, costPerCup) < 0.0 <==> costPerCup > sellingPrice
  {
  }

  /** Total profit is the revenue of the cups less their total cost, and one cup gives the per-cup profit. */
  lemma TotalProfitIsRevenueLessCost(sellingPrice: real, costPerCup: real, n: nat)
    ensures TotalProfit(sellingPrice, costPerCup, n) == sellingPrice * n as real - TotalCost(costPerCup, n)
    ensures TotalProfit(sellingPrice, costPerCup, 1) == Profit(sellingPrice, costPerCup)
  {
  }

  /** The cost of n cups is the cost of the recipe with every quantity multiplied by n. */
  lemma CupsScaleRecipe(items: seq<RecipeItem>, inventory: seq<InventoryItem>, cups: nat)
    requires WellFormed(inventory)
    ensures TotalCost(Cogs(items, inventory), cups) == Cogs(ScaleItems(items, cups as real), inventory)
  {
    CogsScales(items, cups as real, inventory);
  }

  /** The quantity typed for one item: `Number(field) || 0`, with an absent or unparsable field absent from `form`. */
  function FieldQuantity(form: map<int, real>, id: int): real {
    if id in form then form[id] else 0.0
  }

  /** `inventory.map(item => ({itemId: item.id, quantity})).filter(r => r.quantity > 0)`. */
  function BuildItems(inventory: seq<InventoryItem>, form: map<int, real>): (items: seq<RecipeItem>)
    ensures |items| <= |inventory|
    ensures forall j :: 0 <= j < |items| ==> items[j].quantity > 0.0
  {
    if inventory == [] then []
    else
      var q := FieldQuantity(form, inventory[0].id);
      (if q > 0.0 then [RecipeItem(inventory[0].id, q)] else []) + BuildItems(inventory[1..], form)
  }

  /** Every built ingredient is an inventory item with the quantity typed for it. */
  lemma {:induction false} BuildItemsSound(inventory: seq<InventoryItem>, form: map<int, real>, j: nat)
    requires j < |BuildItems(inventory, form)|
    ensures exists i :: 0 <= i < |inventory| && BuildItems(inventory, form)[j] == RecipeItem(inventory[i].id, FieldQuantity(form, inventory[i].id))
  {
    var q := FieldQuantity(form, inventory[0].id);
    var head: seq<RecipeItem> := if q > 0.0 then [RecipeItem(inventory[0].id, q)] else [];
    var items := BuildItems(inventory, form);
    assert items == head + BuildItems(inventory[1..], form);
    if j < |head| {
      assert items[j] == RecipeItem(inventory[0].id, FieldQuantity(form, inventory[0].id));
    } else {
      BuildItemsSound(inventory[1..], form, j - |head|);
      var i :| 0 <= i < |inventory| - 1 && BuildItems(inventory[1..], form)[j - |head|] == RecipeItem(inventory[1..][i].id, FieldQuantity(form, inventory[1..][i].id));
      assert items[j] == RecipeItem(inventory[i + 1].id, FieldQuantity(form, inventory[i + 1].id));
    }
  }

  /** An item whose field is blank or unparsable (absent from `form`) gets no ingredient. */
  lemma BlankFieldGivesNoIngredient(inventory: seq<InventoryItem>, form: map<int, real>, id: int)
    requires id !in form
    ensures forall j :: 0 <= j < |BuildItems(inventory, form)| ==> BuildItems(inventory, form)[j].itemId != id
  {
    var items := BuildItems(inventory, form);
    forall j | 0 <= j < |items|
      ensures items[j].itemId != id
    {
      BuildItemsSound(inventory, form, j);
    }
  }

  /** Every inventory item given a positive quantity is among the built ingredients. */
  lemma {:induction false} BuildItemsComplete(inventory: seq<InventoryItem>, form: map<int, real>, i: nat)
    requires i < |inventory| && FieldQuantity(form, inventory[i].id) > 0.0
    ensures RecipeItem(inventory[i].id, FieldQuantity(form, inventory[i].id)) in BuildItems(inventory, form)
  {
    var q := FieldQuantity(form, inventory[0].id);
    var head: seq<RecipeItem> := if q > 0.0 then [RecipeItem(inventory[0].id, q)] else [];
    assert BuildItems(inventory, form) == head + BuildItems(inventory[1..], form);
    if i > 0 {
      BuildItemsComplete(inventory[1..], form, i - 1);
    }
  }

  /** The built ingredients follow inventory order: building works piecewise. */
  lemma {:induction false} BuildItemsAppend(a: seq<InventoryItem>, b: seq<InventoryItem>, form: map<int, real>)
    ensures BuildItems(a + b, form) == BuildItems(a, form) + BuildItems(b, form)
  {
    if a == [] {
      assert a + b == b;
    } else {
      assert (a + b)[1..] == a[1..] + b;
      BuildItemsAppend(a[1..], b, form);
    }
  }

  /** The recipe screen's state. */
  class Page {
    var showModal: bool
    var editingRecipe: Option<Recipe>
    var selectedRecipe: Option<Recipe>
    var cups: nat
    const store: Store

    ghost predicate Valid()
      reads this
    {
      cups >= 1
    }

    constructor (store: Store)
      ensures Valid() && this.store == store
      ensures !showModal && editingRecipe == None && selectedRecipe == None && cups == 1
    {
      this.store := store;
      showModal, editingRecipe, selectedRecipe, cups := false, None, None, 1;
    }

    /** The recipe a submitted form describes. */
    function FormRecipe(name: string, description: string, form: map<int, real>, sellingPrice: real): (recipe: Recipe)
      reads this, store
      ensures editingRecipe.Some? && editingRecipe.value.id != 0 ==> recipe.id == editingRecipe.value.id
      ensures editingRecipe.None? ==> forall i :: 0 <= i < |store.recipes| ==> store.recipes[i].id != recipe.id
      ensures recipe.items == BuildItems(store.inventory, form)
      ensures recipe.name == name && recipe.description == description && recipe.sellingPrice == sellingPrice
    {
      var editingId := if editingRecipe.Some? then Some(editingRecipe.value.id) else None;
      var ids := Ids.KeysOf(store.recipes, RecipeId);
      assert forall i :: 0 <= i < |store.recipes| ==> ids[i] == store.recipes[i].id;
      Recipe(Ids.AssignId(editingId, ids), name, description,
             BuildItems(store.inventory, form), sellingPrice)
    }

    method ShowAddForm()
      modifies this
      ensures showModal && editingRecipe == old(editingRecipe)
      ensures selectedRecipe == old(selectedRecipe) && cups == old(cups)
    {
      showModal := true;
    }

    /** The edit button exists only while a recipe is selected. */
    method ShowEditForm()
      requires selectedRecipe.Some?
      modifies this
      ensures showModal && editingRecipe == old(selectedRecipe)
      ensures selectedRecipe == old(selectedRecipe) && cups == old(cups)
    {
      editingRecipe := selectedRecipe;
      showModal := true;
    }

    method CloseForm()
      modifies this
      ensures !showModal && editingRecipe == None
      ensures selectedRecipe == old(selectedRecipe) && cups == old(cups)
    {
      showModal, editingRecipe := false, None;
    }

    method Select(recipe: Recipe)
      modifies this
      ensures selectedRecipe == Some(recipe)
      ensures showModal == old(showModal) && editingRecipe == old(editingRecipe) && cups == old(cups)
    {
      selectedRecipe := Some(recipe);
    }

    /** The cups field after an edit: never below one. */
    method SetCups(parsed: Option<int>)
      requires Valid()
      modifies this
      ensures Valid() && cups == ClampCups(parsed)
      ensures showModal == old(showModal) && editingRecipe == old(editingRecipe) && selectedRecipe == old(selectedRecipe)
    {
      cups := ClampCups(parsed);
    }

    /** `handleSubmit`: update when editing, add otherwise; the form closes either way. */
    method Submit(name: string, description: string, form: map<int, real>, sellingPrice: real)
      requires Valid()
      modifies this, store
      ensures Valid()
      ensures var recipe := old(FormRecipe(name, description, form, sellingPrice));
        store.recipes == if old(editingRecipe).Some? then Replace(old(store.recipes), RecipeId, recipe)
                         else old(store.recipes) + [recipe]
      ensures old(DistinctKeys(store.recipes, RecipeId)) ==> DistinctKeys(store.recipes, RecipeId)
      ensures store.inventory == old(store.inventory) && store.auth == old(store.auth)
      ensures !showModal && editingRecipe == None
      ensures selectedRecipe == old(selectedRecipe) && cups == old(cups)
    {
      var recipe := FormRecipe(name, description, form, sellingPrice);
      if editingRecipe.Some? {
        if DistinctKeys(store.recipes, RecipeId) {
          ReplaceKeepsDistinct(store.recipes, RecipeId, recipe);
        }
        store.UpdateRecipe(recipe);
      } else {
        if DistinctKeys(store.recipes, RecipeId) {
          AppendKeepsDistinct(store.recipes, RecipeId, recipe);
        }
        store.AddRecipe(recipe);
      }
      showModal, editingRecipe := false, None;
    }

    /** `handleDelete`; `confirmed` is the user's answer to the confirmation dialog. */
    method Delete(recipe: Recipe, confirmed: bool)
      requires Valid()
      modifies this, store
      ensures Valid()
      ensures store.recipes == if confirmed then Remove(old(store.recipes), RecipeId, recipe.id) else old(store.recipes)
      ensures old(DistinctKeys(store.recipes, RecipeId)) ==> DistinctKeys(store.recipes, RecipeId)
      ensures store.inventory == old(store.inventory) && store.auth == old(store.auth)
      ensures selectedRecipe == if confirmed then None else old(selectedRecipe)
      ensures showModal == old(showModal) && editingRecipe == old(editingRecipe) && cups == old(cups)
    {
      if confirmed {
        if DistinctKeys(store.recipes, RecipeId) {
          RemoveKeepsDistinct(store.recipes, RecipeId, recipe.id);
        }
        store.DeleteRecipe(recipe.id);
        selectedRecipe := None;
      }
    }
  }
}
