/** The response projection of an item (ItemDTO.java): a datatype, so it cannot change once built. */
module ItemDto {
  import opened Wrappers
  import opened ItemEntity

  /** The id and the eight content fields; there is no owner field. */
  datatype ItemDTO = ItemDTO(
    id: Option<int>,
    name: string,
    brand: string,
    price: Double,
    category: string,
    subCategory: Option<string>,
    itemSize: string,
    imageUrl: string,
    inLaundry: bool)
  {
    /** The eight content fields. */
    function Fields(): ItemFields {
      ItemFields(name, brand, price, category, subCategory, itemSize, imageUrl, inLaundry)
    }
  }

  /** `new ItemDTO(item)` */
  function FromItem(item: ItemState): (d: ItemDTO)
    ensures d.id == item.id && d.Fields() == item.fields
  {
    ItemDTO(item.id, item.fields.name, item.fields.brand, item.fields.price, item.fields.category,
            item.fields.subCategory, item.fields.itemSize, item.fields.imageUrl, item.fields.inLaundry)
  }

  /**
   * Two entities give the same DTO exactly when their ids and content fields
   * agree: the DTO carries all of those and nothing of the owner.
   */
  lemma DtoForgetsOnlyTheOwner(a: ItemState, b: ItemState)
    ensures FromItem(a) == FromItem(b) <==> a.id == b.id && a.fields == b.fields
  {
    if FromItem(a) == FromItem(b) {
      assert a.fields == FromItem(a).Fields();
    }
  }
}
