/** The derived view `filteredItems` of the wardrobe (App.js). */
module ItemView {
  import opened Wrappers
  import opened Seqs
  import opened Catalog

  predicate InLaundry(item: ClothingItem) {
    item.inLaundry
  }

  /** The test an item passes outside the "Laundry" view. */
  predicate Visible(item: ClothingItem, activeCategory: string, activeSubCategory: string) {
    var notInLaundry := !item.inLaundry;
    var categoryMatch := activeCategory == All || item.category == activeCategory;
    var subCategoryMatch := activeSubCategory == All || item.subCategory == Some(activeSubCategory);
    notInLaundry && categoryMatch && (activeCategory != TShirts || subCategoryMatch)
  }

  /** `filteredItems`: the items shown for the active category and sub-category. */
  function FilteredItems(items: seq<ClothingItem>, activeCategory: string, activeSubCategory: string): (r: seq<ClothingItem>)
    ensures |r| <= |items|
    ensures forall i :: 0 <= i < |r| ==> r[i] in items && Shown(r[i], activeCategory, activeSubCategory)
    ensures forall i :: 0 <= i < |items| && Shown(items[i], activeCategory, activeSubCategory) ==> items[i] in r
  {
    if activeCategory == Laundry then Filter(items, InLaundry)
    else Filter(items, item => Visible(item, activeCategory, activeSubCategory))
  }

  /** What being shown means, for an item of the collection. */
  predicate Shown(item: ClothingItem, activeCategory: string, activeSubCategory: string) {
    if activeCategory == Laundry then InLaundry(item) else Visible(item, activeCategory, activeSubCategory)
  }

  /**
   * The view holds exactly the shown items of the collection, each as often
   * as in the collection, in collection order. In particular the "Laundry"
   * view is the laundry set and every other view avoids it.
   */
  lemma ViewIsExact(items: seq<ClothingItem>, activeCategory: string, activeSubCategory: string)
    ensures var r := FilteredItems(items, activeCategory, activeSubCategory);
      && (forall i :: 0 <= i < |r| ==> r[i] in items && Shown(r[i], activeCategory, activeSubCategory))
      && (forall i :: 0 <= i < |items| && Shown(items[i], activeCategory, activeSubCategory) ==> items[i] in r)
      && (forall x :: multiset(r)[x] == if Shown(x, activeCategory, activeSubCategory) then multiset(items)[x] else 0)
      && IsSubsequence(r, items)
  {
    var r := FilteredItems(items, activeCategory, activeSubCategory);
    var p := if activeCategory == Laundry then InLaundry
             else (item: ClothingItem) => Visible(item, activeCategory, activeSubCategory);
    assert r == Filter(items, p);
    assert forall x :: p(x) == Shown(x, activeCategory, activeSubCategory);
    FilterIsSubsequence(items, p);
    forall x ensures multiset(r)[x] == if Shown(x, activeCategory, activeSubCategory) then multiset(items)[x] else 0 {
      FilterCount(items, p, x);
    }
  }

  /** The "Laundry" view is the laundry set; every other view contains no laundry item. */
  lemma LaundryPartition(items: seq<ClothingItem>, activeCategory: string, activeSubCategory: string)
    ensures activeCategory == Laundry ==>
      forall x :: x in items ==> (x in FilteredItems(items, activeCategory, activeSubCategory) <==> x.inLaundry)
    ensures activeCategory != Laundry ==>
      forall x :: x in FilteredItems(items, activeCategory, activeSubCategory) ==> !x.inLaundry
  {
    ViewIsExact(items, activeCategory, activeSubCategory);
    var r := FilteredItems(items, activeCategory, activeSubCategory);
    forall x | x in items && Shown(x, activeCategory, activeSubCategory) ensures x in r {
      var i :| 0 <= i < |items| && items[i] == x;
    }
    forall x | x in r ensures Shown(x, activeCategory, activeSubCategory) {
      var i :| 0 <= i < |r| && r[i] == x;
    }
  }

  /** The sub-category selection has no effect unless the active category is "T-Shirts". */
  lemma SubCategoryOnlyForTShirts(items: seq<ClothingItem>, activeCategory: string, sub1: string, sub2: string)
    requires activeCategory != TShirts
    ensures FilteredItems(items, activeCategory, sub1) == FilteredItems(items, activeCategory, sub2)
  {
    if activeCategory != Laundry {
      FilterAgreeing(items, item => Visible(item, activeCategory, sub1), item => Visible(item, activeCategory, sub2));
    }
  }
}
