/** Validation and normalisation of the add-item form (`AddItemModal.handleSubmit` in App.js). */
module AddItemForm {
  import opened Wrappers
  import opened Catalog

  /** The form's fields as the inputs hold them: all text, except the laundry flag. */
  datatype FormData = FormData(
    name: string,
    brand: string,
    price: string,
    category: string,
    subCategory: string,
    itemSize: string,
    imageUrl: string,
    inLaundry: bool)

  /** The draft handed to `onAddItem`: the form with a parsed price and a normalised sub-category. */
  datatype NewItem = NewItem(
    name: string,
    brand: string,
    price: Price,
    category: string,
    subCategory: Option<string>,
    itemSize: string,
    imageUrl: string,
    inLaundry: bool)

  /** The form when the modal opens: empty text, the first category, not in the laundry. */
  const InitialForm: FormData := FormData("", "", "", Categories[0], "", "", "", false)

  /**
   * `handleSubmit`. `parsedPrice` is `parseFloat(formData.price)`, absent
   * when it is NaN. Returns the draft passed to `onAddItem`, or nothing when
   * the submit is suppressed.
   */
  function HandleSubmit(formData: FormData, parsedPrice: Option<Price>): (r: Option<NewItem>)
    ensures r.None? <==> formData.name == "" || formData.brand == "" || parsedPrice.None?
    ensures r.Some? ==> r.value.price == parsedPrice.value
    ensures r.Some? ==>
      && r.value.name == formData.name && r.value.brand == formData.brand
      && r.value.category == formData.category && r.value.itemSize == formData.itemSize
      && r.value.imageUrl == formData.imageUrl && r.value.inLaundry == formData.inLaundry
    ensures r.Some? ==> (r.value.subCategory.Some? <==> formData.category == TShirts)
    ensures r.Some? && r.value.subCategory.Some? ==> r.value.subCategory.value == formData.subCategory
  {
    OnlyTShirtsHaveSubCategories(formData.category);
    if formData.name == "" || formData.brand == "" || parsedPrice.None? then None
    else
      Some(NewItem(
        formData.name, formData.brand, parsedPrice.value, formData.category,
        if formData.category in SubCategories then Some(formData.subCategory) else None,
        formData.itemSize, formData.imageUrl, formData.inLaundry))
  }

  /** A form opened and submitted untouched is suppressed: its name is empty. */
  lemma UntouchedFormIsSuppressed(parsedPrice: Option<Price>)
    ensures HandleSubmit(InitialForm, parsedPrice).None?
  {
  }
}
