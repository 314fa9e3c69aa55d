/**
 * The application state container: the authentication record and the two
 * collections, each action replacing one field.
 */
module UseStore {
  import opened Types
  import SeedData

  /** `s.map(e => key(e) === key(x) ? x : e)`. */
  function Replace<T>(s: seq<T>, key: T -> int, x: T): (r: seq<T>)
    ensures |r| == |s|
    ensures forall i :: 0 <= i < |s| ==> r[i] == if key(s[i]) == key(x) then x else s[i]
  {
    if s == [] then [] else [if key(s[0]) == key(x) then x else s[0]] + Replace(s[1..], key, x)
  }

  /** `s.filter(e => key(e) !== id)`. */
  function Remove<T(==)>(s: seq<T>, key: T -> int, id: int): (r: seq<T>)
    ensures |r| <= |s|
    ensures forall i :: 0 <= i < |r| ==> key(r[i]) != id
    ensures forall i :: 0 <= i < |r| ==> r[i] in s
    ensures forall i :: 0 <= i < |s| && key(s[i]) != id ==> s[i] in r
  {
    if s == [] then [] else (if key(s[0]) == id then [] else [s[0]]) + Remove(s[1..], key, id)
  }

  /** When no element has the key, `Replace` changes nothing. */
  lemma ReplaceNoMatch<T>(s: seq<T>, key: T -> int, x: T)
    requires forall i :: 0 <= i < |s| ==> key(s[i]) != key(x)
    ensures Replace(s, key, x) == s
  {
  }

  /** Replacing twice with the same record is replacing once. */
  lemma ReplaceIdempotent<T>(s: seq<T>, key: T -> int, x: T)
    ensures Replace(Replace(s, key, x), key, x) == Replace(s, key, x)
  {
  }

  /** `Replace` keeps the key at every position. */
  lemma ReplaceKeepsKeys<T>(s: seq<T>, key: T -> int, x: T)
    ensures forall i :: 0 <= i < |s| ==> key(Replace(s, key, x)[i]) == key(s[i])
  {
  }

  /** `Remove` keeps the order of the elements it keeps: it works piecewise. */
  lemma {:induction false} RemoveAppend<T>(s: seq<T>, t: seq<T>, key: T -> int, id: int)
    ensures Remove(s + t, key, id) == Remove(s, key, id) + Remove(t, key, id)
  {
    if s != [] {
      assert (s + t)[1..] == s[1..] + t;
      RemoveAppend(s[1..], t, key, id);
    } else {
      assert s + t == t;
    }
  }

  /** When no element has the key, `Remove` changes nothing. */
  lemma {:induction false} RemoveNoMatch<T>(s: seq<T>, key: T -> int, id: int)
    requires forall i :: 0 <= i < |s| ==> key(s[i]) != id
    ensures Remove(s, key, id) == s
  {
    if s != [] {
      RemoveNoMatch(s[1..], key, id);
    }
  }

  /** Removing twice is removing once. */
  lemma RemoveIdempotent<T>(s: seq<T>, key: T -> int, id: int)
    ensures Remove(Remove(s, key, id), key, id) == Remove(s, key, id)
  {
    RemoveNoMatch(Remove(s, key, id), key, id);
  }

  /** No two elements share a key. */
  ghost predicate DistinctKeys<T>(s: seq<T>, key: T -> int) {
    forall i, j :: 0 <= i < j < |s| ==> key(s[i]) != key(s[j])
  }

  /** Appending an element whose key is new keeps the keys distinct. */
  lemma AppendKeepsDistinct<T>(s: seq<T>, key: T -> int, x: T)
    requires DistinctKeys(s, key)
    requires forall i :: 0 <= i < |s| ==> key(s[i]) != key(x)
    ensures DistinctKeys(s + [x], key)
  {
    var t := s + [x];
    forall i, j | 0 <= i < j < |t|
      ensures key(t[i]) != key(t[j])
    {
      if j == |s| {
        assert t[i] == s[i];
      } else {
        assert t[i] == s[i] && t[j] == s[j];
      }
    }
  }

  /** Replacing keeps every key where it was, so distinct keys stay distinct. */
  lemma ReplaceKeepsDistinct<T>(s: seq<T>, key: T -> int, x: T)
    requires DistinctKeys(s, key)
    ensures DistinctKeys(Replace(s, key, x), key)
  {
    ReplaceKeepsKeys(s, key, x);
  }

  lemma DistinctTail<T>(s: seq<T>, key: T -> int)
    requires s != [] && DistinctKeys(s, key)
    ensures DistinctKeys(s[1..], key)
    ensures forall j :: 0 <= j < |s| - 1 ==> key(s[1..][j]) != key(s[0])
  {
    forall i, j | 0 <= i < j < |s| - 1
      ensures key(s[1..][i]) != key(s[1..][j])
    {
      assert s[1..][i] == s[i + 1] && s[1..][j] == s[j + 1];
    }
  }

  lemma ConsDistinct<T>(x: T, rest: seq<T>, key: T -> int)
    requires DistinctKeys(rest, key)
    requires forall j :: 0 <= j < |rest| ==> key(rest[j]) != key(x)
    ensures DistinctKeys([x] + rest, key)
  {
    var r := [x] + rest;
    forall i, j | 0 <= i < j < |r|
      ensures key(r[i]) != key(r[j])
    {
      if i == 0 {
        assert r[j] == rest[j - 1];
      } else {
        assert r[i] == rest[i - 1] && r[j] == rest[j - 1];
      }
    }
  }

  /** Removing elements keeps the remaining keys distinct. */
  lemma {:induction false} RemoveKeepsDistinct<T>(s: seq<T>, key: T -> int, id: int)
    requires DistinctKeys(s, key)
    ensures DistinctKeys(Remove(s, key, id), key)
  {
    if s != [] {
      var rest := Remove(s[1..], key, id);
      DistinctTail(s, key);
      RemoveKeepsDistinct(s[1..], key, id);
      if key(s[0]) != id {
        assert Remove(s, key, id) == [s[0]] + rest;
        forall j | 0 <= j < |rest|
          ensures key(rest[j]) != key(s[0])
        {
          var k :| 0 <= k < |s| - 1 && s[1..][k] == rest[j];
        }
        ConsDistinct(s[0], rest, key);
      } else {
        assert Remove(s, key, id) == [] + rest;
        assert [] + rest == rest;
      }
    }
  }

  class Store {
    var auth: AuthState
    var inventory: seq<InventoryItem>
    var recipes: seq<Recipe>

    /** A first run: logged out, seed catalogue. */
    constructor ()
      ensures auth == LoggedOut
      ensures inventory == SeedData.InitialInventory && recipes == SeedData.InitialRecipes
    {
      auth := LoggedOut;
      inventory := SeedData.InitialInventory;
      recipes := SeedData.InitialRecipes;
    }

    method SetAuth(a: AuthState)
      modifies this
      ensures auth == a
      ensures inventory == old(inventory) && recipes == old(recipes)
    {
      auth := a;
    }

    method Logout()
      modifies this
      ensures auth == AuthState(false, None, None)
      ensures inventory == old(inventory) && recipes == old(recipes)
    {
      auth := LoggedOut;
    }

    method SetInventory(items: seq<InventoryItem>)
      modifies this
      ensures inventory == items
      ensures auth == old(auth) && recipes == old(recipes)
    {
      inventory := items;
    }

    method AddInventoryItem(item: InventoryItem)
      modifies this
      ensures inventory == old(inventory) + [item]
      ensures auth == old(auth) && recipes == old(recipes)
    {
      inventory := inventory + [item];
    }

    method UpdateInventoryItem(item: InventoryItem)
      modifies this
      ensures inventory == Replace(old(inventory), ItemId, item)
      ensures auth == old(auth) && recipes == old(recipes)
    {
      inventory := Replace(inventory, ItemId, item);
    }

    /** No cascade: recipes that name the item keep their ingredient. */
    method DeleteInventoryItem(id: int)
      modifies this
      ensures inventory == Remove(old(inventory), ItemId, id)
      ensures auth == old(auth) && recipes == old(recipes)
    {
      inventory := Remove(inventory, ItemId, id);
    }

    method AddRecipe(recipe: Recipe)
      modifies this
      ensures recipes == old(recipes) + [recipe]
      ensures auth == old(auth) && inventory == old(inventory)
    {
      recipes := recipes + [recipe];
    }

    method UpdateRecipe(recipe: Recipe)
      modifies this
      ensures recipes == Replace(old(recipes), RecipeId, recipe)
      ensures auth == old(auth) && inventory == old(inventory)
    {
      recipes := Replace(recipes, RecipeId, recipe);
    }

    method DeleteRecipe(id: int)
      modifies this
      ensures recipes == Remove(old(recipes), RecipeId, id)
      ensures auth == old(auth) && inventory == old(inventory)
    {
      recipes := Remove(recipes, RecipeId, id);
    }
  }
}
