/** Worked examples of the client rules on a two-item wardrobe. */
module ClientScenarios {
  import opened Wrappers
  import opened Seqs
  import opened Catalog
  import opened ItemView
  import opened WardrobeState
  import opened OutfitSuggestion

  function Tee(): ClothingItem {
    ClothingItem(1, "Tee", "Acme", 10.0, "T-Shirts", Some("Everyday"), "M", "", false)
  }

  function Jeans(): ClothingItem {
    ClothingItem(2, "Jeans", "Acme", 40.0, "Pants", None, "32", "", false)
  }

  /** The "T-Shirts" view honours the sub-category: "Going Out" shows nothing, "Everyday" shows the tee. */
  lemma TShirtSubCategoryScenario()
    ensures FilteredItems([Tee(), Jeans()], TShirts, "Going Out") == []
    ensures FilteredItems([Tee(), Jeans()], TShirts, "Everyday") == [Tee()]
  {
    var items := [Tee(), Jeans()];
    assert items[1..] == [Jeans()] && items[1..][1..] == [];
  }

  /** After the tee is toggled into the laundry, the "Laundry" view is exactly the tee. */
  lemma ToggleThenLaundryScenario()
    ensures var after := ReplaceById([Tee(), Jeans()], Tee().id, Flipped(Tee()));
      after == [Flipped(Tee()), Jeans()] && FilteredItems(after, Laundry, All) == [Flipped(Tee())]
  {
    var after := ReplaceById([Tee(), Jeans()], Tee().id, Flipped(Tee()));
    assert after == [Flipped(Tee()), Jeans()];
    assert after[1..] == [Jeans()] && after[1..][1..] == [];
  }

  /** Two available items are too few: the suggestion fails with the fixed message whatever the service would say. */
  lemma TooFewItemsScenario(reply: Reply)
    ensures GetOutfitSuggestion([Tee(), Jeans()], reply) == SuggestionError(InsufficientMessage)
  {
    assert |Filter([Tee(), Jeans()], Available)| <= 2;
  }

  /** A suggested name that no item has leaves its slot absent without failing the others. */
  lemma UnknownShoesScenario()
    ensures var r := Resolve([Tee(), Jeans()], ParsedSuggestion(Some("Tee"), Some("Jeans"), Some("Boots"), None, None, None));
      r == SuggestedItems(Found(Tee()), Found(Jeans()), Undefined, Null, Null, Null)
  {
    var items := [Tee(), Jeans()];
    assert items[0].name == "Tee" && items[1].name == "Jeans";
    assert forall i :: 0 <= i < |items| ==> items[i].name != "Boots";
  }
}
