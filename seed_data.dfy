/** The catalogue a new installation starts with: six inventory items and one recipe. */
module SeedData {
  import opened Types

  const InitialInventory: seq<InventoryItem> := [
    InventoryItem(1, "Aren Sugar", 1.0, "kg", 60000.0),
    InventoryItem(2, "Milk", 1.0, "Liter", 30000.0),
    InventoryItem(3, "Ice Cube", 1.0, "Kg", 15000.0),
    InventoryItem(4, "Plastic Cup", 10.0, "pcs", 5000.0),
    InventoryItem(5, "Coffee Bean", 1.0, "kg", 100000.0),
    InventoryItem(6, "Mineral Water", 1.0, "Liter", 5000.0)
  ]

  /** The seed recipe: one quantity per seed item, in grams, millilitres or pieces of that item's unit. */
  const ClassicIcedCoffee := Recipe(
    1,
    "Classic Iced Coffee",
    "Our signature iced coffee with milk and aren sugar",
    [
      RecipeItem(1, 15.0),
      RecipeItem(2, 150.0),
      RecipeItem(3, 20.0),
      RecipeItem(4, 1.0),
      RecipeItem(5, 20.0),
      RecipeItem(6, 50.0)
    ],
    25000.0)

  const InitialRecipes: seq<Recipe> := [ClassicIcedCoffee]

  /** Six items whose ids are 1..6 in order, hence distinct. */
  lemma SeedInventoryIds()
    ensures |InitialInventory| == 6
    ensures forall i :: 0 <= i < |InitialInventory| ==> InitialInventory[i].id == i + 1
    ensures forall i, j :: 0 <= i < j < |InitialInventory| ==> InitialInventory[i].id != InitialInventory[j].id
  {
  }

  /** Every seed batch has a positive size and a non-negative price. */
  lemma SeedInventoryQuantities()
    ensures forall i :: 0 <= i < |InitialInventory| ==> InitialInventory[i].quantity > 0.0 && InitialInventory[i].pricePerQty >= 0.0
  {
  }

  /** Ingredient r of the seed recipe uses seed item r, so every ingredient names an existing item. */
  lemma SeedRecipeReferencesExist()
    ensures |ClassicIcedCoffee.items| == |InitialInventory|
    ensures forall r :: 0 <= r < |ClassicIcedCoffee.items| ==> ClassicIcedCoffee.items[r].itemId == InitialInventory[r].id
  {
  }
}
