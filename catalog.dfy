/** The client's clothing-item record and its fixed category tables (App.js). */
module Catalog {
  import opened Wrappers

  /**
   * A price. The source holds it as a JavaScript number; the core never
   * computes with it, so rounding is not modelled.
   */
  type Price = real

  /** One item of the collection, as the server's JSON delivers it. */
  datatype ClothingItem = ClothingItem(
    id: int,
    name: string,
    brand: string,
    price: Price,
    category: string,
    subCategory: Option<string>,
    itemSize: string,
    imageUrl: string,
    inLaundry: bool)

  /** Sentinel filter values and the one category with sub-categories. */
  const All: string := "All"
  const Laundry: string := "Laundry"
  const TShirts: string := "T-Shirts"

  /** `categories`: the fifteen selectable categories, in display order. */
  const Categories: seq<string> :=
    ["T-Shirts", "Shirts", "Jackets", "Hoodies", "Pants", "Sweatpants", "Sweatshirts",
     "Shorts", "Underwear", "Socks", "Shoes", "Hats", "Belts", "Watches", "Sunglasses"]

  /** `subCategories`: the sub-category list of each category that has one. */
  const SubCategories: map<string, seq<string>> := map["T-Shirts" := ["Everyday", "Going Out"]]

  /** Only "T-Shirts" has a sub-category list, and it is one of the categories. */
  lemma OnlyTShirtsHaveSubCategories(c: string)
    ensures c in SubCategories <==> c == TShirts
    ensures c in SubCategories ==> c in Categories && |SubCategories[c]| == 2
  {
  }
}
