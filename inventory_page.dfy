/**
 * The inventory screen: the case-insensitive name search, pagination five
 * rows at a time, the Previous and Next buttons, and the add/edit form.
 */
module InventoryPage {
  import opened Types
  import opened Text
  import Ids
  import opened UseStore

  const ItemsPerPage := 5

  /** `item.name.toLowerCase().includes(search.toLowerCase())`. */
  predicate Matches(item: InventoryItem, search: string) {
    Contains(Lower(item.name), Lower(search))
  }

  /** A search matches when its lower-cased text occurs at some position of the lower-cased name; a search longer than the name never matches. */
  lemma MatchesIffOccurs(item: InventoryItem, search: string)
    ensures Matches(item, search) <==>
      exists i :: 0 <= i <= |item.name| - |search| && Lower(search) == Lower(item.name)[i..][..|search|]
    ensures |search| > |item.name| ==> !Matches(item, search)
  {
    ContainsIffSlice(Lower(item.name), Lower(search));
    if |search| > |item.name| {
      ContainsLonger(Lower(item.name), Lower(search));
    }
  }

  /** `inventory.filter(...)`: the matching items, in inventory order. */
  function Filtered(inventory: seq<InventoryItem>, search: string): (r: seq<InventoryItem>)
    ensures |r| <= |inventory|
    ensures forall j :: 0 <= j < |r| ==> Matches(r[j], search)
  {
    if inventory == [] then []
    else (if Matches(inventory[0], search) then [inventory[0]] else []) + Filtered(inventory[1..], search)
  }

  /** An item is shown exactly when it is in the inventory and its name matches. */
  lemma {:induction false} FilteredMembership(inventory: seq<InventoryItem>, search: string, x: InventoryItem)
    ensures x in Filtered(inventory, search) <==> x in inventory && Matches(x, search)
  {
    if inventory != [] {
      FilteredMembership(inventory[1..], search, x);
      assert inventory == [inventory[0]] + inventory[1..];
    }
  }

  /** When no name matches, nothing is shown. */
  lemma {:induction false} FilteredNone(inventory: seq<InventoryItem>, search: string)
    requires forall i :: 0 <= i < |inventory| ==> !Matches(inventory[i], search)
    ensures Filtered(inventory, search) == []
  {
    if inventory != [] {
      FilteredNone(inventory[1..], search);
    }
  }

  /** Filtering works piecewise, so the shown rows keep inventory order. */
  lemma {:induction false} FilteredAppend(a: seq<InventoryItem>, b: seq<InventoryItem>, search: string)
    ensures Filtered(a + b, search) == Filtered(a, search) + Filtered(b, search)
  {
    if a == [] {
      assert a + b == b;
    } else {
      assert (a + b)[1..] == a[1..] + b;
      FilteredAppend(a[1..], b, search);
    }
  }

  /** An empty search shows the whole inventory. */
  lemma {:induction false} FilteredEmptySearch(inventory: seq<InventoryItem>)
    ensures Filtered(inventory, "") == inventory
  {
    if inventory != [] {
      ContainsEmpty(Lower(inventory[0].name));
      FilteredEmptySearch(inventory[1..]);
    }
  }

  /** Searching is case-insensitive: a search and its lower-cased form show the same rows. */
  lemma {:induction false} FilteredIgnoresCase(inventory: seq<InventoryItem>, search: string)
    ensures Filtered(inventory, Lower(search)) == Filtered(inventory, search)
  {
    LowerIdempotent(search);
    if inventory != [] {
      FilteredIgnoresCase(inventory[1..], search);
    }
  }

  /** Filtering twice with the same search changes nothing. */
  lemma {:induction false} FilteredIdempotent(inventory: seq<InventoryItem>, search: string)
    ensures Filtered(Filtered(inventory, search), search) == Filtered(inventory, search)
  {
    if inventory != [] {
      var head: seq<InventoryItem> := if Matches(inventory[0], search) then [inventory[0]] else [];
      FilteredAppend(head, Filtered(inventory[1..], search), search);
      FilteredIdempotent(inventory[1..], search);
      if Matches(inventory[0], search) {
        assert Filtered(head, search) == head;
      }
    }
  }

  /** `Math.ceil(count / itemsPerPage)`. */
  function TotalPages(count: nat): (pages: nat)
    ensures pages == 0 <==> count == 0
    ensures ItemsPerPage * pages >= count
    ensures pages > 0 ==> ItemsPerPage * (pages - 1) < count
  {
    (count + ItemsPerPage - 1) / ItemsPerPage
  }

  /** Clamps an index to 0..n; a page's start is never negative, since page >= 1. */
  function Clamp(x: int, n: nat): nat {
    if x < 0 then 0 else if x > n then n else x
  }

  /** `slice((page - 1) * itemsPerPage, page * itemsPerPage)`: at most five consecutive rows starting at row `(page - 1) * 5`. */
  function PageOf<T>(s: seq<T>, page: int): (rows: seq<T>)
    requires page >= 1
    ensures |rows| <= ItemsPerPage
    ensures |rows| == if (page - 1) * ItemsPerPage >= |s| then 0
                      else if page * ItemsPerPage <= |s| then ItemsPerPage
                      else |s| - (page - 1) * ItemsPerPage
    ensures forall j :: 0 <= j < |rows| ==> rows[j] == s[(page - 1) * ItemsPerPage + j]
  {
    s[Clamp((page - 1) * ItemsPerPage, |s|)..Clamp(page * ItemsPerPage, |s|)]
  }

  /** Pages 1 to `n`, one after another. */
  function Pages<T>(s: seq<T>, n: nat): seq<T> {
    if n == 0 then [] else Pages(s, n - 1) + PageOf(s, n)
  }

  /** The first `n` pages are the first `5 n` rows. */
  lemma {:induction false} PagesPrefix<T>(s: seq<T>, n: nat)
    ensures Pages(s, n) == s[..Clamp(n * ItemsPerPage, |s|)]
  {
    if n > 0 {
      PagesPrefix(s, n - 1);
      var a, b := Clamp((n - 1) * ItemsPerPage, |s|), Clamp(n * ItemsPerPage, |s|);
      assert s[..a] + s[a..b] == s[..b];
    }
  }

  /** Pages 1 to `totalPages` show every row exactly once, in order. */
  lemma PagesCover<T>(s: seq<T>)
    ensures Pages(s, TotalPages(|s|)) == s
  {
    PagesPrefix(s, TotalPages(|s|));
  }

  /** Every page from 1 to `totalPages` has a row, and every page after it is empty. */
  lemma PageNonEmpty<T>(s: seq<T>, page: int)
    requires page >= 1
    ensures PageOf(s, page) != [] <==> page <= TotalPages(|s|)
  {
    assert |PageOf(s, page)| > 0 <==> (page - 1) * ItemsPerPage < |s|;
  }

  /** `disabled={page === 1}`. */
  predicate PreviousDisabled(page: int) {
    page == 1
  }

  /** On a valid page, Previous is disabled exactly when going back would leave page 1 behind. */
  lemma PreviousDisabledOnFirstPage(page: int)
    requires page >= 1
    ensures PreviousDisabled(page) <==> page - 1 < 1
  {
  }

  /** `disabled={page === totalPages}`, as written. */
  predicate NextDisabledAsWritten(page: int, totalPages: nat) {
    page == totalPages
  }

  /** The Next condition corrected so that it never leads past the last page. */
  predicate NextDisabled(page: int, totalPages: nat) {
    page >= totalPages
  }

  /** With the corrected condition, Next is enabled exactly when the next page has rows. */
  lemma NextLeadsToRows<T>(s: seq<T>, page: int)
    requires page >= 1
    ensures !NextDisabled(page, TotalPages(|s|)) <==> PageOf(s, page + 1) != []
  {
    PageNonEmpty(s, page + 1);
  }

  /** The two conditions agree on every page up to the last, so the correction matters only past it. */
  lemma NextConditionsAgree(page: int, totalPages: nat)
    requires 1 <= page <= totalPages
    ensures NextDisabled(page, totalPages) == NextDisabledAsWritten(page, totalPages)
  {
  }

  /** With nothing to show, the written condition leaves Next enabled and it leads to an empty page. */
  lemma NextAsWrittenOnEmptyList<T>(s: seq<T>)
    requires s == []
    ensures TotalPages(|s|) == 0
    ensures !NextDisabledAsWritten(1, TotalPages(|s|)) && PageOf(s, 2) == []
    ensures NextDisabled(1, TotalPages(|s|))
  {
  }

  /** The inventory screen's state. */
  class Page {
    var search: string
    var showModal: bool
    var editingItem: Option<InventoryItem>
    var page: int
    const store: Store

    ghost predicate Valid()
      reads this
    {
      page >= 1
    }

    constructor (store: Store)
      ensures Valid() && this.store == store
      ensures search == "" && !showModal && editingItem == None && page == 1
    {
      this.store := store;
      search, showModal, editingItem, page := "", false, None, 1;
    }

    /** The items that match the search. */
    function Shown(): (shown: seq<InventoryItem>)
      reads this, store
      ensures forall x :: x in shown <==> x in store.inventory && Matches(x, search)
    {
      var shown := Filtered(store.inventory, search);
      forall x
        ensures x in shown <==> x in store.inventory && Matches(x, search)
      {
        FilteredMembership(store.inventory, search, x);
      }
      shown
    }

    /** The rows of the current page. */
    function Rows(): (rows: seq<InventoryItem>)
      requires Valid()
      reads this, store
      ensures |rows| <= ItemsPerPage
      ensures forall j :: 0 <= j < |rows| ==> rows[j] in store.inventory && Matches(rows[j], search)
    {
      PageOf(Shown(), page)
    }

    /** Typing in the search box; the page number is left as it is. */
    method SetSearch(text: string)
      modifies this
      ensures search == text
      ensures showModal == old(showModal) && editingItem == old(editingItem) && page == old(page)
    {
      search := text;
    }

    /** A click on Previous; a disabled button does nothing. */
    method Previous()
      requires Valid()
      modifies this
      ensures Valid()
      ensures page == if PreviousDisabled(old(page)) then old(page) else old(page) - 1
      ensures search == old(search) && showModal == old(showModal) && editingItem == old(editingItem)
    {
      if !PreviousDisabled(page) {
        page := page - 1;
      }
    }

    /** A click on Next, under the corrected condition; a disabled button does nothing. */
    method Next()
      requires Valid()
      modifies this
      ensures Valid()
      ensures page == if NextDisabled(old(page), TotalPages(|old(Shown())|)) then old(page) else old(page) + 1
      ensures page != old(page) ==> page <= TotalPages(|Shown()|) && Rows() != []
      ensures search == old(search) && showModal == old(showModal) && editingItem == old(editingItem)
    {
      if !NextDisabled(page, TotalPages(|Shown()|)) {
        NextLeadsToRows(Shown(), page);
        page := page + 1;
      }
    }

    method ShowAddForm()
      modifies this
      ensures showModal && editingItem == old(editingItem)
      ensures search == old(search) && page == old(page)
    {
      showModal := true;
    }

    /** The edit button of a row. */
    method StartEdit(item: InventoryItem)
      modifies this
      ensures showModal && editingItem == Some(item)
      ensures search == old(search) && page == old(page)
    {
      editingItem := Some(item);
      showModal := true;
    }

    /** The Cancel button. */
    method CloseForm()
      modifies this
      ensures !showModal && editingItem == None
      ensures search == old(search) && page == old(page)
    {
      showModal, editingItem := false, None;
    }

    /** The item a submitted form describes, with the corrected id rule. */
    function FormItem(name: string, quantity: real, uom: string, pricePerQty: real): (item: InventoryItem)
      reads this, store
      ensures editingItem.Some? && editingItem.value.id != 0 ==> item.id == editingItem.value.id
      ensures editingItem.None? ==> forall i :: 0 <= i < |store.inventory| ==> store.inventory[i].id != item.id
      ensures item.name == name && item.quantity == quantity && item.uom == uom && item.pricePerQty == pricePerQty
    {
      var editingId := if editingItem.Some? then Some(editingItem.value.id) else None;
      var ids := Ids.KeysOf(store.inventory, ItemId);
      assert forall i :: 0 <= i < |store.inventory| ==> ids[i] == store.inventory[i].id;
      InventoryItem(Ids.AssignId(editingId, ids), name, quantity, uom, pricePerQty)
    }

    /** `handleSubmit`: update when editing, add otherwise; the form closes either way. */
    method Submit(name: string, quantity: real, uom: string, pricePerQty: real)
      requires Valid()
      modifies this, store
      ensures Valid()
      ensures var item := old(FormItem(name, quantity, uom, pricePerQty));
        store.inventory == if old(editingItem).Some? then Replace(old(store.inventory), ItemId, item)
                           else old(store.inventory) + [item]
      ensures old(DistinctKeys(store.inventory, ItemId)) ==> DistinctKeys(store.inventory, ItemId)
      ensures store.recipes == old(store.recipes) && store.auth == old(store.auth)
      ensures !showModal && editingItem == None
      ensures search == old(search) && page == old(page)
    {
      var item := FormItem(name, quantity, uom, pricePerQty);
      if editingItem.Some? {
        if DistinctKeys(store.inventory, ItemId) {
          ReplaceKeepsDistinct(store.inventory, ItemId, item);
        }
        store.UpdateInventoryItem(item);
      } else {
        if DistinctKeys(store.inventory, ItemId) {
          AppendKeepsDistinct(store.inventory, ItemId, item);
        }
        store.AddInventoryItem(item);
      }
      showModal, editingItem := false, None;
    }

    /** The delete button of a row; `confirmed` is the answer to the confirmation dialog. */
    method Delete(item: InventoryItem, confirmed: bool)
      requires Valid()
      modifies store
      ensures store.inventory == if confirmed then Remove(old(store.inventory), ItemId, item.id) else old(store.inventory)
      ensures old(DistinctKeys(store.inventory, ItemId)) ==> DistinctKeys(store.inventory, ItemId)
      ensures store.recipes == old(store.recipes) && store.auth == old(store.auth)
    {
      if confirmed {
        if DistinctKeys(store.inventory, ItemId) {
          RemoveKeepsDistinct(store.inventory, ItemId, item.id);
        }
        store.DeleteInventoryItem(item.id);
      }
    }
  }
}
