# Coffee-shop back office, modelled in Dafny

This project models the logic of a small coffee-shop front end written in
TypeScript and React. The shop keeps an inventory of raw materials, each
bought in batches (`quantity` units of `uom` for `pricePerQty`), and recipes.
A recipe lists how much of each inventory item one cup uses. The model covers
these parts:

- **Cost of goods (`calculateCOGS`)**: the per-cup cost of a recipe against
  the current inventory.
  - Each ingredient's item is looked up by id. A missing item costs nothing.
  - For `kg` and `liter` (compared case-insensitively), a batch is 1000
    sub-units.
  - For `pcs` and every other unit, a batch is `quantity` sub-units.
  - The recipe screen adds a cup count, clamped to at least 1, and shows total
    cost, profit and total profit.
- **Store**: a class with the fields `auth`, `inventory` and `recipes`. Its
  actions are `setAuth`, `logout`, `setInventory`, and
  add/update/delete for inventory items and for recipes. Each action's
  contract states its new field and that the other fields are unchanged.
- **Recipe screen**:
  - Building a recipe from the form.
  - The id rule.
  - Submit and delete.
- **Inventory screen**:
  - The case-insensitive name search.
  - Pagination five rows at a time, with the page count as a ceiling.
  - When the Previous and Next buttons are enabled.
  - The add/edit form.
- **Login screen**:
  - The e-mail pattern `^[^\s@]+@[^\s@]+\.[^\s@]+$`.
  - The two-step flow from the address to the simulated magic-link click.
  - The error messages.
  - Clearing the error on edit.
- **Seed catalogue**: six items and the "Classic Iced Coffee" recipe, used for
  end-to-end lemmas. For example, COGS 8450 and profit 16550.

Modules, one per source file or shared concern:

| file | module | models |
|---|---|---|
| types.dfy | Types | the records of `src/types/inventory.ts` |
| text.dfy | Text | `toLowerCase`, `includes`, the `\s` class |
| ids.dfy | Ids | the id rule `editing?.id \|\| length + 1` shared by both forms, and its corrected form |
| seed_data.dfy | SeedData | `src/data/inventory.ts` |
| use_store.dfy | UseStore | `src/store/useStore.ts`: `Replace` (`map`), `Remove` (`filter`), `class Store` |
| sums.dfy | Sums | `reduce((t, x) => t + x, 0)` over numbers |
| recipe_page.dfy | RecipePage | `src/pages/Recipe.tsx` |
| inventory_page.dfy | InventoryPage | `src/pages/Inventory.tsx` |
| login_page.dfy | LoginPage | `src/pages/Login.tsx` |
| scenarios.dfy | Scenarios | concrete runs over the seed catalogue |

Conventions:

- **Numbers**:
  - Ids are `int`. JavaScript's truthiness of an id is `id != 0`.
  - Prices and quantities are `real`.
  - `parseInt` results are `Option<int>`, where `None` stands for NaN.
- **Screens**: each screen is a class whose fields are the component's
  `useState` variables, with the store as a `const` field.
  - A click on a disabled button is a method that does nothing.
  - A control that is not rendered in some state is a `requires` on its
    handler. For example, the e-mail field exists only on the first step.
- **Written and corrected rules**: the data model means ids to be unique
  keys, since `updateInventoryItem`, `deleteInventoryItem` and the recipe
  lookups all select by id. The code's `length + 1` and its Next condition
  break that in some states (see Findings).
  - Each of the two rules is modelled as written: `Ids.AssignIdAsWritten` and
    `InventoryPage.NextDisabledAsWritten`. Lemmas show where each fails.
  - The page classes (`FormItem`, `FormRecipe`, `Next` and both `Submit`
    methods) use the corrected rules `Ids.AssignId` and
    `InventoryPage.NextDisabled`. They are listed under Left out.
  - The ingredient lookup follows the code: `find` takes the first match in
    inventory order (`RecipePage.FindFirstMatch`).

## Model

| member | source | states |
|---|---|---|
| RecipePage.Find | src/pages/Recipe.tsx:15 | `None` exactly when no inventory item has the id; otherwise an inventory item with that id |
| RecipePage.FindFirstMatch | src/pages/Recipe.tsx:15 | with repeated ids, the first matching item in inventory order is the one used |
| RecipePage.UnitCostFormula | src/pages/Recipe.tsx:19-31 | `UnitCost` (the unit switch): the four cases come to two formulas, a batch of 1000 sub-units for kg and liter in any case, and a batch of `quantity` sub-units for pcs and every other unit |
| RecipePage.IngredientCostFirstMatch | src/pages/Recipe.tsx:15-31 | `IngredientCost`: 0 when no inventory item has the ingredient's id; otherwise the unit cost charged by the first such item in inventory order |
| RecipePage.PerThousandCost | src/pages/Recipe.tsx:19-24 | for kg/liter (any case), 1000 sub-units cost exactly the batch price, and the batch size plays no part |
| RecipePage.PerBatchCost | src/pages/Recipe.tsx:26-30 | for pcs and every other unit, a whole batch (`q == quantity`) costs exactly the batch price |
| RecipePage.UnitCostScales | src/pages/Recipe.tsx:19-31 | an ingredient's cost is linear in its quantity, under every formula |
| RecipePage.IngredientCostScales | src/pages/Recipe.tsx:15-31 | scaling one ingredient's quantity by k scales its share by k, a missing item included |
| RecipePage.Costs | src/pages/Recipe.tsx:14-33 | one share per ingredient, in recipe order |
| RecipePage.CogsIsReduce | src/pages/Recipe.tsx:13-34 | `Cogs` (`calculateCOGS`) is the written `reduce`: it starts at 0, and appending an ingredient adds that ingredient's share |
| RecipePage.CogsBase | src/pages/Recipe.tsx:14-33 | the empty recipe costs 0 (the fold starts at 0); a one-ingredient recipe costs that ingredient's share |
| RecipePage.CogsAppend | src/pages/Recipe.tsx:14-33 | the cost is additive over concatenation of ingredient lists |
| RecipePage.MissingItemIsFree | src/pages/Recipe.tsx:15-16 | an ingredient whose item is not in the inventory adds nothing, whatever its quantity |
| RecipePage.CostsScale | src/pages/Recipe.tsx:14-33 | scaling every quantity by k scales every share by k |
| RecipePage.CogsScales | src/pages/Recipe.tsx:14-33 | scaling every quantity by k scales the cost by k |
| RecipePage.CogsNonNegative | src/pages/Recipe.tsx:14-33 | with non-negative prices and quantities the cost is non-negative |
| RecipePage.FindAfterRemove | src/store/useStore.ts:47-50 | after deleting an id, lookups of that id fail and every other lookup is unchanged |
| RecipePage.IngredientCostAfterRemove | src/store/useStore.ts:47-50 | deleting an item leaves recipes untouched; an ingredient of the deleted item then costs 0, others cost as before |
| RecipePage.CostsAfterRemove | src/store/useStore.ts:47-50 | the same, share by share, for a whole recipe |
| RecipePage.ClampCups | src/pages/Recipe.tsx:166 | the cup count is at least 1; a parsed value of at least 1 is kept, anything else (0, negative, NaN) gives 1 |
| RecipePage.TotalCostAddsUp | src/pages/Recipe.tsx:178 | `TotalCost`: one cup costs the per-cup cost, and the total cost is additive over cup counts |
| RecipePage.ProfitIsMargin | src/pages/Recipe.tsx:199 | `Profit`: profit plus per-cup cost is the selling price; the profit is negative exactly when a cup costs more than its price |
| RecipePage.TotalProfitIsRevenueLessCost | src/pages/Recipe.tsx:205 | `TotalProfit`: the revenue of n cups less their total cost; one cup gives the per-cup profit |
| RecipePage.CupsScaleRecipe | src/pages/Recipe.tsx:178 | the cost of n cups equals the cost of the recipe with every quantity multiplied by n |
| RecipePage.BuildItems | src/pages/Recipe.tsx:40-43 | at most one ingredient per inventory item, each with a positive quantity |
| RecipePage.BuildItemsSound | src/pages/Recipe.tsx:40-43 | every built ingredient is an inventory item's id with the quantity typed for it |
| RecipePage.BlankFieldGivesNoIngredient | src/pages/Recipe.tsx:42 | `FieldQuantity` (`Number(field) \|\| 0`): an item whose field is blank or unparsable gets no ingredient |
| RecipePage.BuildItemsComplete | src/pages/Recipe.tsx:40-43 | every inventory item given a positive quantity is among the built ingredients |
| RecipePage.BuildItemsAppend | src/pages/Recipe.tsx:40-43 | built ingredients follow inventory order (building distributes over concatenation) |
| RecipePage.Page.constructor | src/pages/Recipe.tsx:7-10 | no form, nothing edited or selected, one cup |
| RecipePage.Page.FormRecipe | src/pages/Recipe.tsx:45-51 | the edited recipe's truthy id is kept; a new recipe gets an id no recipe holds; the fields come from the form |
| RecipePage.Page.ShowAddForm | src/pages/Recipe.tsx:74 | opens the form and changes nothing else |
| RecipePage.Page.ShowEditForm | src/pages/Recipe.tsx:120-123 | edits the selected recipe and opens the form |
| RecipePage.Page.CloseForm | src/pages/Recipe.tsx:229-232 | closes the form and clears the edited recipe |
| RecipePage.Page.Select | src/pages/Recipe.tsx:90 | selects the recipe and changes nothing else |
| RecipePage.Page.SetCups | src/pages/Recipe.tsx:166 | the cup count becomes the clamped value, so it stays at least 1 |
| RecipePage.Page.Submit | src/pages/Recipe.tsx:36-60 | update when editing, add otherwise; inventory and auth unchanged; the form closes; with the corrected id rule, distinct recipe ids stay distinct |
| RecipePage.Page.Delete | src/pages/Recipe.tsx:62-67 | when confirmed, removes the recipe's id and clears the selection; otherwise nothing changes |
| UseStore.Replace | src/store/useStore.ts:41-46 | same length; exactly the elements whose key matches become the new element, the rest stay in place |
| UseStore.Remove | src/store/useStore.ts:47-50 | no element with the key remains; only original elements remain; every element with another key remains |
| UseStore.ReplaceNoMatch | src/store/useStore.ts:41-46 | an update whose id matches nothing is a no-op |
| UseStore.ReplaceIdempotent | src/store/useStore.ts:41-46 | updating twice with the same record equals updating once |
| UseStore.ReplaceKeepsKeys | src/store/useStore.ts:41-46 | an update keeps every position's id |
| UseStore.RemoveAppend | src/store/useStore.ts:47-50 | removal distributes over concatenation, so the remaining elements keep their order |
| UseStore.RemoveNoMatch | src/store/useStore.ts:47-50 | deleting an absent id is a no-op |
| UseStore.RemoveIdempotent | src/store/useStore.ts:47-50 | deleting twice equals deleting once |
| UseStore.AppendKeepsDistinct | src/store/useStore.ts:37-40 | appending a record with a new id keeps ids distinct |
| UseStore.ReplaceKeepsDistinct | src/store/useStore.ts:41-46 | an update keeps ids distinct |
| UseStore.RemoveKeepsDistinct | src/store/useStore.ts:47-50 | a delete keeps ids distinct |
| UseStore.Store.constructor | src/store/useStore.ts:24-30 | logged out, seed inventory and seed recipes |
| UseStore.Store.SetAuth | src/store/useStore.ts:31 | replaces the auth record wholesale; collections unchanged |
| UseStore.Store.Logout | src/store/useStore.ts:32-35 | auth becomes not authenticated with no token and no e-mail; collections unchanged |
| UseStore.Store.SetInventory | src/store/useStore.ts:36 | replaces the inventory; auth and recipes unchanged |
| UseStore.Store.AddInventoryItem | src/store/useStore.ts:37-40 | appends the item; auth and recipes unchanged |
| UseStore.Store.UpdateInventoryItem | src/store/useStore.ts:41-46 | replaces by id; auth and recipes unchanged |
| UseStore.Store.DeleteInventoryItem | src/store/useStore.ts:47-50 | removes by id; no cascade into recipes; auth unchanged |
| UseStore.Store.AddRecipe | src/store/useStore.ts:51-54 | appends the recipe; auth and inventory unchanged |
| UseStore.Store.UpdateRecipe | src/store/useStore.ts:55-60 | replaces by id; auth and inventory unchanged |
| UseStore.Store.DeleteRecipe | src/store/useStore.ts:61-64 | removes by id; auth and inventory unchanged |
| Ids.AssignIdAsWritten | src/pages/Inventory.tsx:30 | the written rule never yields the falsy id 0, and a new id is positive and fresh while the ids in use are exactly 1..n in order; `Scenarios.IdCollisionAfterDelete` shows it failing once they are not |
| Ids.AssignIdAgreesOnEdit | src/pages/Inventory.tsx:30 | when a record with a truthy id is edited, the written and corrected rules both keep that id, whatever ids are in use |
| Ids.MaxId | src/pages/Inventory.tsx:30 | the largest id in use, on which the corrected rule builds: non-negative, no id exceeds it, and it is 0 or one of the ids |
| Ids.AssignId | src/pages/Inventory.tsx:30 | corrected rule: a truthy edited id is kept; otherwise a positive id that no record holds |
| Ids.AssignIdAgreesWhenDense | src/pages/Recipe.tsx:46 | while ids are exactly 1..n in order, the corrected rule gives what the written one gives |
| InventoryPage.MatchesIffOccurs | src/pages/Inventory.tsx:16 | `Matches`: the lower-cased search occurs at some position of the lower-cased name; a search longer than the name never matches |
| InventoryPage.Filtered | src/pages/Inventory.tsx:15-17 | no more rows than the inventory, each matching the search |
| InventoryPage.FilteredMembership | src/pages/Inventory.tsx:15-17 | an item is shown exactly when it is in the inventory and its lower-cased name contains the lower-cased search |
| InventoryPage.FilteredNone | src/pages/Inventory.tsx:15-17 | when no name matches, nothing is shown |
| InventoryPage.FilteredAppend | src/pages/Inventory.tsx:15-17 | filtering distributes over concatenation, so shown rows keep inventory order |
| InventoryPage.FilteredEmptySearch | src/pages/Inventory.tsx:15-17 | the empty search shows every item |
| InventoryPage.FilteredIgnoresCase | src/pages/Inventory.tsx:16 | a search and its lower-cased form show the same rows |
| InventoryPage.FilteredIdempotent | src/pages/Inventory.tsx:15-17 | filtering the shown rows again changes nothing |
| InventoryPage.TotalPages | src/pages/Inventory.tsx:24 | the ceiling of count / 5: zero exactly for no rows, 5 pages' worth covers the rows, one page fewer does not |
| InventoryPage.PageOf | src/pages/Inventory.tsx:19-22 | page p holds at most 5 rows, exactly rows (p-1)*5 onward up to p*5 or the end |
| InventoryPage.PagesPrefix | src/pages/Inventory.tsx:19-22 | pages 1..n together are the first 5n rows |
| InventoryPage.PagesCover | src/pages/Inventory.tsx:19-24 | pages 1..totalPages together reproduce the filtered list |
| InventoryPage.PageNonEmpty | src/pages/Inventory.tsx:19-24 | a page has rows exactly when it is at most totalPages |
| InventoryPage.PreviousDisabledOnFirstPage | src/pages/Inventory.tsx:126 | `PreviousDisabled`: on a valid page, Previous is disabled exactly when going back would leave page 1 |
| InventoryPage.NextLeadsToRows | src/pages/Inventory.tsx:131-134 | `NextDisabled`, the corrected condition: Next is enabled exactly when the next page has rows |
| InventoryPage.NextConditionsAgree | src/pages/Inventory.tsx:133 | `NextDisabledAsWritten` (`page === totalPages`) and `NextDisabled` agree on pages 1..totalPages |
| InventoryPage.NextAsWrittenOnEmptyList | src/pages/Inventory.tsx:133 | `NextDisabledAsWritten`: with no rows there are 0 pages, the written condition leaves Next enabled, and page 2 is empty |
| InventoryPage.Page.constructor | src/pages/Inventory.tsx:7-10 | empty search, no form, page 1 |
| InventoryPage.Page.Shown | src/pages/Inventory.tsx:15-17 | an item is shown exactly when it is in the store's inventory and matches the current search |
| InventoryPage.Page.Rows | src/pages/Inventory.tsx:19-22 | at most 5 rows, each an inventory item matching the search |
| InventoryPage.Page.SetSearch | src/pages/Inventory.tsx:55 | the search becomes the text; the page number is left as it is |
| InventoryPage.Page.Previous | src/pages/Inventory.tsx:124-127 | disabled exactly on page 1; otherwise goes back one page; the page stays at least 1 |
| InventoryPage.Page.Next | src/pages/Inventory.tsx:131-134 | goes forward one page unless disabled; a move always lands on a page with rows |
| InventoryPage.Page.ShowAddForm | src/pages/Inventory.tsx:59 | opens the form, nothing else changes |
| InventoryPage.Page.StartEdit | src/pages/Inventory.tsx:97-100 | edits the row's item and opens the form |
| InventoryPage.Page.CloseForm | src/pages/Inventory.tsx:194-197 | closes the form and clears the edited item |
| InventoryPage.Page.FormItem | src/pages/Inventory.tsx:29-35 | the edited item's truthy id is kept; a new item gets an id no item holds; the fields come from the form |
| InventoryPage.Page.Submit | src/pages/Inventory.tsx:26-44 | update when editing, add otherwise; recipes and auth unchanged; the form closes; with the corrected id rule, distinct ids stay distinct |
| InventoryPage.Page.Delete | src/pages/Inventory.tsx:106-110 | when confirmed, removes the item's id, recipes untouched; otherwise nothing changes |
| LoginPage.ValidEmailSplit | src/pages/Login.tsx:15-18 | `ValidEmail` (`validateEmail`): valid exactly when the address is a non-empty local part without whitespace or `@`, an `@`, and a domain without whitespace or `@` with a dot strictly inside it |
| LoginPage.ValidEmailOneAt | src/pages/Login.tsx:16 | a valid address has exactly one `@` and no whitespace |
| LoginPage.ValidEmailExamples | src/pages/Login.tsx:16 | `owner@kopi.id` and `a@b.c.d` are accepted |
| LoginPage.NoDotIsInvalid | src/pages/Login.tsx:16 | `owner@kopi` is rejected |
| LoginPage.EmptyRunIsInvalid | src/pages/Login.tsx:16 | the empty address, `@kopi.id` and `owner@.id` are rejected |
| LoginPage.SpaceIsInvalid | src/pages/Login.tsx:16 | `ow ner@kopi.id` is rejected |
| LoginPage.Page.constructor | src/pages/Login.tsx:8-11 | empty address and error, no toast, first step |
| LoginPage.Page.EditEmail | src/pages/Login.tsx:86-89 | the address becomes the text and the error is cleared |
| LoginPage.Page.SubmitEmail | src/pages/Login.tsx:20-35 | empty: "Email is required", stay; invalid: "Please enter a valid email address", stay; valid: no error, verify step |
| LoginPage.Page.Verify | src/pages/Login.tsx:37-45 | unless the toast already shows, stores an authenticated record with the token and the entered (valid) address and shows the toast; collections unchanged |
| LoginPage.Page.DismissToast | src/pages/Login.tsx:57-61 | hides the toast |
| Text.ContainsIffSlice | src/pages/Inventory.tsx:16 | `Contains` (`includes`) holds exactly when the search occurs at some position of the text |
| Text.ContainsEmpty | src/pages/Inventory.tsx:16 | the empty search is contained in every text |
| Text.Lower | src/pages/Inventory.tsx:16 | `toLowerCase` keeps the length, leaves no ASCII capital, maps each capital to its small letter and keeps every other character |
| Text.IsWhitespace | src/pages/Login.tsx:16 | the `\s` class: no printable ASCII character (`@`, `.`, letters, digits) is whitespace; space, tab and newline are |
| Text.LowerIdempotent | src/pages/Inventory.tsx:16 | lower-casing twice is lower-casing once |
| SeedData.SeedInventoryIds | src/data/inventory.ts:3-10 | six items with ids 1..6 in order, hence distinct |
| SeedData.SeedInventoryQuantities | src/data/inventory.ts:4-9 | every batch size is positive and every price non-negative |
| SeedData.SeedRecipeReferencesExist | src/data/inventory.ts:17-24 | ingredient r of the seed recipe names seed item r, so every reference exists |
| Scenarios.SeedWellFormed | src/data/inventory.ts:4-9 | every divisor in the calculator is safe for the seed inventory |
| Scenarios.IceCubeUsesKgFormula | src/data/inventory.ts:6 | the `Kg` item uses the kg formula: 20 g cost 300 |
| Scenarios.SeedCosts | src/data/inventory.ts:4-25 | the seed recipe's shares are 900, 4500, 300, 500, 2000, 250 |
| Scenarios.SeedCogs | src/data/inventory.ts:4-25 | the seed recipe costs 8450 per cup and earns 16550 |
| Scenarios.SugarAndMilk | src/pages/Recipe.tsx:19-24 | 15 g of sugar and 150 ml of milk cost 900 + 4500 = 5400 |
| Scenarios.OneCupOfTen | src/pages/Recipe.tsx:26-28 | one cup out of a pack of ten costing 5000 costs 500 |
| Scenarios.DeleteLeavesDanglingIngredient | src/store/useStore.ts:47-50 | deleting the plastic cup leaves the recipe referring to it, and the recipe then costs 7950 |
| Scenarios.InventoryIdCollision | src/pages/Inventory.tsx:30 | after deleting item 1 from the seed, the written rule gives 6, which an item still holds, and ids stop being distinct; the corrected rule gives 7 |
| Scenarios.IdCollisionAfterDelete | src/pages/Inventory.tsx:30 | the same for any catalogue with ids 1..n |
| Scenarios.RecipeIdCollision | src/pages/Recipe.tsx:46 | a second seed recipe gets id 2; after deleting recipe 1 the written rule gives 2 again; the corrected rule gives 3 |
| Scenarios.NextLiveOnEmptySearch | src/pages/Inventory.tsx:133 | a search matching nothing gives 0 pages, yet the written condition leaves Next enabled |

## Left out

- JSX rendering, CSS, icons and display-only unit labels are not modelled. The same goes for `toLocaleString` formatting. They do not affect state.
- Routing and navigation are not modelled: `src/App.tsx`, `src/components/Layout.tsx` and the delayed `navigate` in `handleVerify`. These are framework plumbing and timers.
- The `persist` middleware and localStorage are not modelled. They are I/O in a foreign library; the store starts from its initial state.
- The random token `Math.random().toString(36).substring(2)` is a parameter of `LoginPage.Page.Verify`.
- The toast component, `src/components/Toast`, is not part of this model. Only its `isOpen` flag and its close handler are.
- `confirm()` dialogs are modelled as the user's answer, a `confirmed` parameter.
- `FormData` and `Number(...)` parsing are left to the caller. The handlers take parsed values:
  - `Number(field) || 0` of the recipe form is a map from item id to quantity, where an absent key gives 0.
  - `parseInt` is an `Option<int>`.
- Browser-side form validation (`required`, `type="number"`, `min="1"`) is not modelled.
- IEEE-754 rounding, Infinity and NaN are not modelled. Numbers are exact reals.
- RecipePage.UnitCost: requires a positive batch size for units other than kg and liter. The source divides regardless, and a zero batch size gives Infinity or NaN.
- Text.Lower: lower-cases only ASCII `A`-`Z`. `String.prototype.toLowerCase` also maps non-ASCII letters, for example `Ä` and the Kelvin sign.
- The `catch` branch of `handleVerify` is not modelled. The model's `setAuth` cannot fail, so "Authentication failed" is unreachable here.
- InventoryPage.Page.Next: uses the corrected condition `page >= totalPages`. The condition as written is `InventoryPage.NextDisabledAsWritten`; see Findings.
- InventoryPage.Page.FormItem: uses the corrected id rule `Ids.AssignId`. The rule as written is `Ids.AssignIdAsWritten`; see Findings.
- RecipePage.Page.FormRecipe: uses the corrected id rule `Ids.AssignId`. The rule as written is `Ids.AssignIdAsWritten`; see Findings.
- InventoryPage.Page.Submit: the new item's id comes from `Ids.AssignId`, not the written `inventory.length + 1`. The clause that distinct ids stay distinct holds for the corrected rule only; the written rule breaks it (`Scenarios.InventoryIdCollision`).
- RecipePage.Page.Submit: the new recipe's id comes from `Ids.AssignId`, not the written `recipes.length + 1`. The clause that distinct ids stay distinct holds for the corrected rule only; the written rule breaks it (`Scenarios.RecipeIdCollision`).
- JavaScript's `\s` is enumerated as ECMAScript's WhiteSpace and LineTerminator sets in `Text.IsWhitespace`. UTF-16 code units are not distinguished from code points. This makes no difference to `[^\s@]`, because no surrogate half is whitespace or `@`.

## Findings

| source | as written | input that shows it | evidently intended | confidence | as-written member | corrected member |
|---|---|---|---|---|---|---|
| src/pages/Inventory.tsx:30 | a new item's id is `inventory.length + 1` | seed inventory, delete item 1 (Aren Sugar), add an item: it gets id 6, which Mineral Water holds; a later update of id 6 then overwrites both | a new item gets an id no item holds | high, not executed | Scenarios.InventoryIdCollision | Ids.AssignId |
| src/pages/Recipe.tsx:46 | a new recipe's id is `recipes.length + 1` | seed recipes, add a recipe (id 2), delete recipe 1, add another: it gets id 2 again | a new recipe gets an id no recipe holds | high, not executed | Scenarios.RecipeIdCollision | Ids.AssignId |
| src/pages/Inventory.tsx:133 | Next is disabled only when `page === totalPages` | a search that matches nothing: totalPages is 0, Next stays enabled on page 1 and leads to empty pages 2, 3, … | Next is disabled once there is no later page | medium, not executed | Scenarios.NextLiveOnEmptySearch | InventoryPage.NextDisabled |
