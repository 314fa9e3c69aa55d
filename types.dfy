/** The records of the application: inventory items, recipes and the authentication record. */
module Types {

  datatype Option<T> = None | Some(value: T)

  /** A raw material bought in batches of `quantity` units of `uom` for `pricePerQty`. */
  datatype InventoryItem = InventoryItem(id: int, name: string, quantity: real, uom: string, pricePerQty: real)

  /** One ingredient of a recipe: how much of inventory item `itemId` one cup uses. */
  datatype RecipeItem = RecipeItem(itemId: int, quantity: real)

  datatype Recipe = Recipe(id: int, name: string, description: string, items: seq<RecipeItem>, sellingPrice: real)

  /** `token` and `email` are `null` in the source when `None`. */
  datatype AuthState = AuthState(isAuthenticated: bool, token: Option<string>, email: Option<string>)

  /** The record both the initial store and `logout` install. */
  const LoggedOut := AuthState(false, None, None)

  function ItemId(item: InventoryItem): int { item.id }

  function RecipeId(recipe: Recipe): int { recipe.id }
}
