/**
 * The wardrobe's collection state (`WardrobeApp` in App.js): the item list,
 * the active category and sub-category, and the handlers that replace the
 * list once the remote call they issue has settled.
 */
module WardrobeState {
  import opened Wrappers
  import opened Seqs
  import opened Catalog
  import ItemView

  /**
   * How a `fetch` settled: it threw (network failure, or a body that could
   * not be read), or it resolved with a status that is `ok` or not and a
   * body. Headers, URLs and JSON encoding are not modelled.
   */
  datatype Fetch<T> = Rejected | Resolved(ok: bool, body: T)

  /** `Promise.all` over the PUTs of `clearLaundry`: rejects as soon as one of them rejects. */
  function JoinAll(settled: seq<Fetch<()>>): (r: Fetch<()>)
    ensures r.Rejected? <==> exists i :: 0 <= i < |settled| && settled[i].Rejected?
    ensures r.Resolved? ==> r.ok
  {
    if settled == [] then Resolved(true, ())
    else if settled[0].Rejected? then Rejected
    else
      var rest := JoinAll(settled[1..]);
      assert forall i :: 1 <= i < |settled| ==> settled[i] == settled[1..][i - 1];
      rest
  }

  /** `{ ...item, inLaundry: !item.inLaundry }` */
  function Flipped(item: ClothingItem): (r: ClothingItem)
    ensures r.inLaundry == !item.inLaundry
    ensures r.(inLaundry := item.inLaundry) == item
  {
    item.(inLaundry := !item.inLaundry)
  }

  /** The list after a toggle: every element whose id matches becomes `updated`. */
  function ReplaceById(items: seq<ClothingItem>, id: int, updated: ClothingItem): (r: seq<ClothingItem>)
    ensures |r| == |items|
    ensures forall i :: 0 <= i < |items| && items[i].id == id ==> r[i] == updated
    ensures forall i :: 0 <= i < |items| && items[i].id != id ==> r[i] == items[i]
  {
    Map(items, (item: ClothingItem) => if item.id == id then updated else item)
  }

  /** The list after washing: every item with `inLaundry` false and all else as it was. */
  function WashAll(items: seq<ClothingItem>): (r: seq<ClothingItem>)
    ensures |r| == |items|
    ensures forall i :: 0 <= i < |items| ==> !r[i].inLaundry && r[i].(inLaundry := items[i].inLaundry) == items[i]
  {
    Map(items, (item: ClothingItem) => item.(inLaundry := false))
  }

  /** The list after a delete: the items whose id differs, in order. */
  function RemoveById(items: seq<ClothingItem>, id: int): (r: seq<ClothingItem>)
    ensures |r| <= |items|
    ensures forall i :: 0 <= i < |r| ==> r[i] in items && r[i].id != id
    ensures forall i :: 0 <= i < |items| && items[i].id != id ==> items[i] in r
  {
    Filter(items, (item: ClothingItem) => item.id != id)
  }

  /** Deleting keeps exactly the items with another id, each as often as before, in order. */
  lemma RemoveByIdIsExact(items: seq<ClothingItem>, id: int)
    ensures forall x :: x in RemoveById(items, id) ==> x in items && x.id != id
    ensures forall x :: x in items && x.id != id ==> x in RemoveById(items, id)
    ensures forall x: ClothingItem :: multiset(RemoveById(items, id))[x] == if x.id != id then multiset(items)[x] else 0
    ensures IsSubsequence(RemoveById(items, id), items)
  {
    var p := (item: ClothingItem) => item.id != id;
    var r := RemoveById(items, id);
    FilterIsSubsequence(items, p);
    forall x: ClothingItem ensures multiset(r)[x] == if x.id != id then multiset(items)[x] else 0 {
      FilterCount(items, p, x);
    }
    forall x | x in r ensures x in items && x.id != id {
      var i :| 0 <= i < |r| && r[i] == x;
    }
    forall x | x in items && x.id != id ensures x in r {
      var i :| 0 <= i < |items| && items[i] == x;
    }
  }

  /**
   * Toggling an item of the list and then toggling the item it became
   * restores the list (the card shows the current item, so the second
   * toggle receives the first one's result).
   */
  lemma ToggleTwiceRestores(items: seq<ClothingItem>, item: ClothingItem)
    requires forall i :: 0 <= i < |items| && items[i].id == item.id ==> items[i] == item
    ensures ReplaceById(ReplaceById(items, item.id, Flipped(item)), item.id, Flipped(Flipped(item))) == items
  {
    var once := ReplaceById(items, item.id, Flipped(item));
    var twice := ReplaceById(once, item.id, Flipped(Flipped(item)));
    assert Flipped(Flipped(item)) == item;
    forall i | 0 <= i < |items| ensures twice[i] == items[i] {
      assert once[i].id == items[i].id;
    }
  }

  /** Washing twice is washing once; washing a list with nothing in the laundry changes nothing. */
  lemma WashAllIdempotent(items: seq<ClothingItem>)
    ensures WashAll(WashAll(items)) == WashAll(items)
    ensures (forall i :: 0 <= i < |items| ==> !items[i].inLaundry) ==> WashAll(items) == items
  {
    var once := WashAll(items);
    forall i | 0 <= i < |items| ensures WashAll(once)[i] == once[i] {
      assert once[i].(inLaundry := false) == once[i];
    }
    if forall i :: 0 <= i < |items| ==> !items[i].inLaundry {
      forall i | 0 <= i < |items| ensures once[i] == items[i] {
        assert items[i].(inLaundry := false) == items[i];
      }
    }
  }

  class WardrobeApp {
    var clothingItems: seq<ClothingItem>
    var activeCategory: string
    var activeSubCategory: string

    /** The initial state: an empty collection and both filters at "All". */
    constructor ()
      ensures clothingItems == [] && activeCategory == All && activeSubCategory == All
    {
      clothingItems := [];
      activeCategory := All;
      activeSubCategory := All;
    }

    /**
     * `setActiveCategory` followed by the effect that resets the
     * sub-category to "All" for every category other than "T-Shirts".
     */
    method SetActiveCategory(category: string)
      modifies this`activeCategory, this`activeSubCategory
      ensures activeCategory == category
      ensures activeSubCategory == if category != TShirts then All else old(activeSubCategory)
    {
      activeCategory := category;
      if activeCategory != TShirts {
        activeSubCategory := All;
      }
    }

    /** `setActiveSubCategory`. */
    method SetActiveSubCategory(subCategory: string)
      modifies this`activeSubCategory
      ensures activeSubCategory == subCategory
    {
      activeSubCategory := subCategory;
    }

    /** `handleAddItem`: append the saved item only when the POST resolved with an ok status. */
    method HandleAddItem(response: Fetch<ClothingItem>)
      modifies this`clothingItems
      ensures response.Resolved? && response.ok ==> clothingItems == old(clothingItems) + [response.body]
      ensures !(response.Resolved? && response.ok) ==> clothingItems == old(clothingItems)
    {
      if response.Resolved? && response.ok {
        var savedItem := response.body;
        clothingItems := clothingItems + [savedItem];
      }
    }

    /**
     * `toggleLaundryStatus`: once the PUT resolves, whatever its status, the
     * elements with the argument's id become the argument with `inLaundry`
     * negated; a rejected PUT leaves the list as it was.
     */
    method ToggleLaundryStatus(itemToUpdate: ClothingItem, response: Fetch<()>)
      modifies this`clothingItems
      ensures response.Resolved? ==> clothingItems == ReplaceById(old(clothingItems), itemToUpdate.id, Flipped(itemToUpdate))
      ensures response.Rejected? ==> clothingItems == old(clothingItems)
    {
      var updatedItem := Flipped(itemToUpdate);
      if response.Resolved? {
        clothingItems := ReplaceById(clothingItems, itemToUpdate.id, updatedItem);
      }
    }

    /**
     * `clearLaundry`: one PUT per item of the laundry set, settled as
     * `settled` says and joined by `Promise.all`. Once all of them resolve,
     * every item of the list has `inLaundry` false; a rejection of any of
     * them leaves the list as it was.
     */
    method ClearLaundry(settled: seq<Fetch<()>>)
      requires |settled| == |ItemsToWash(clothingItems)|
      modifies this`clothingItems
      ensures (forall i :: 0 <= i < |settled| ==> settled[i].Resolved?) ==> clothingItems == WashAll(old(clothingItems))
      ensures (exists i :: 0 <= i < |settled| && settled[i].Rejected?) ==> clothingItems == old(clothingItems)
    {
      var joined := JoinAll(settled);
      if joined.Resolved? {
        clothingItems := WashAll(clothingItems);
      }
    }

    /** `deleteItem`: once the DELETE resolves, whatever its status, drop the items with that id. */
    method DeleteItem(itemId: int, response: Fetch<()>)
      modifies this`clothingItems
      ensures response.Resolved? ==> clothingItems == RemoveById(old(clothingItems), itemId)
      ensures response.Rejected? ==> clothingItems == old(clothingItems)
    {
      if response.Resolved? {
        clothingItems := RemoveById(clothingItems, itemId);
      }
    }
  }

  /** The items `clearLaundry` sends a PUT for: the laundry set at the time of the call. */
  function ItemsToWash(items: seq<ClothingItem>): (r: seq<ClothingItem>)
    ensures |r| <= |items|
    ensures forall i :: 0 <= i < |r| ==> r[i] in items && r[i].inLaundry
    ensures forall i :: 0 <= i < |items| && items[i].inLaundry ==> items[i] in r
  {
    Filter(items, ItemView.InLaundry)
  }
}
