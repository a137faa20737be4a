/** The persistent `Item` entity (Item.java). */
module ItemEntity {
  import opened Wrappers

  /** A Java `double`; the server only copies it, so rounding is not modelled. */
  type Double = real

  /** The eight content fields of an item: everything but the id and the owner. */
  datatype ItemFields = ItemFields(
    name: string,
    brand: string,
    price: Double,
    category: string,
    subCategory: Option<string>,
    itemSize: string,
    imageUrl: string,
    inLaundry: bool)

  /**
   * The state of an entity object: an id (null until the store generates
   * one), the content fields and the owner, identified by the owning user's
   * id (the `user_id` join column; null until set).
   */
  datatype ItemState = ItemState(id: Option<int>, fields: ItemFields, user: Option<int>)

  /**
   * A persisted row. The join column is declared `nullable = false`, so a
   * persisted item always has an owner.
   */
  datatype ItemRow = ItemRow(fields: ItemFields, owner: int)

  /** The entity the store hands out for the row under `id`. */
  function Loaded(id: int, row: ItemRow): (s: ItemState)
    ensures s.id == Some(id) && s.fields == row.fields && s.user == Some(row.owner)
  {
    ItemState(Some(id), row.fields, Some(row.owner))
  }

  class Item {
    var id: Option<int>
    var name: string
    var brand: string
    var price: Double
    var category: string
    var subCategory: Option<string>
    var itemSize: string
    var imageUrl: string
    var inLaundry: bool
    var user: Option<int>

    /** An entity built with the given state (deserialised from a request body, or loaded). */
    constructor (state: ItemState)
      ensures State() == state
    {
      id := state.id;
      name := state.fields.name;
      brand := state.fields.brand;
      price := state.fields.price;
      category := state.fields.category;
      subCategory := state.fields.subCategory;
      itemSize := state.fields.itemSize;
      imageUrl := state.fields.imageUrl;
      inLaundry := state.fields.inLaundry;
      user := state.user;
    }

    /** What the getters of the eight content fields return. */
    function Fields(): ItemFields
      reads this
    {
      ItemFields(name, brand, price, category, subCategory, itemSize, imageUrl, inLaundry)
    }

    function State(): ItemState
      reads this
    {
      ItemState(id, Fields(), user)
    }

    // Each setter may change its own field only (the frame says so) and the
    // getter then returns the value set.

    method SetUser(user: Option<int>)
      modifies this`user
      ensures this.user == user
    {
      this.user := user;
    }

    method SetId(id: Option<int>)
      modifies this`id
      ensures this.id == id
    {
      this.id := id;
    }

    method SetName(name: string)
      modifies this`name
      ensures this.name == name
    {
      this.name := name;
    }

    method SetBrand(brand: string)
      modifies this`brand
      ensures this.brand == brand
    {
      this.brand := brand;
    }

    method SetPrice(price: Double)
      modifies this`price
      ensures this.price == price
    {
      this.price := price;
    }

    method SetCategory(category: string)
      modifies this`category
      ensures this.category == category
    {
      this.category := category;
    }

    method SetSubCategory(subCategory: Option<string>)
      modifies this`subCategory
      ensures this.subCategory == subCategory
    {
      this.subCategory := subCategory;
    }

    method SetItemSize(itemSize: string)
      modifies this`itemSize
      ensures this.itemSize == itemSize
    {
      this.itemSize := itemSize;
    }

    method SetImageUrl(imageUrl: string)
      modifies this`imageUrl
      ensures this.imageUrl == imageUrl
    {
      this.imageUrl := imageUrl;
    }

    method SetInLaundry(inLaundry: bool)
      modifies this`inLaundry
      ensures this.inLaundry == inLaundry
    {
      this.inLaundry := inLaundry;
    }
  }
}
