/**
 * The pure parts of `getOutfitSuggestion` (App.js): the eligibility test,
 * the projection of the available items sent to the suggestion service, and
 * the resolution of the suggested names back to items of the collection.
 */
module OutfitSuggestion {
  import opened Wrappers
  import opened Seqs
  import opened Catalog

  const InsufficientMessage: string :=
    "You need at least a top, bottom, and shoes in your wardrobe to get a suggestion."
  const FailureMessage: string := "Sorry, I couldn't come up with an outfit."
  const NotApplicable: string := "N/A"

  /** An item as the prompt lists it. */
  datatype AvailableItem = AvailableItem(name: string, category: string, subCategory: string, size: string)

  predicate Available(item: ClothingItem) {
    !item.inLaundry
  }

  /** JavaScript falsiness of an optional string: `null`, `undefined` or `""`. */
  predicate Falsy(s: Option<string>) {
    s.None? || s.value == ""
  }

  /** `({ name, category, subCategory, itemSize }) => ({ name, category, subCategory: subCategory || 'N/A', size: itemSize })` */
  function Project(item: ClothingItem): (a: AvailableItem)
    ensures a.name == item.name && a.category == item.category && a.size == item.itemSize
    ensures a.subCategory == if Falsy(item.subCategory) then NotApplicable else item.subCategory.value
    ensures a.subCategory != ""
  {
    AvailableItem(item.name, item.category,
                  if Falsy(item.subCategory) then NotApplicable else item.subCategory.value,
                  item.itemSize)
  }

  /** `availableItems`: the non-laundry items, in order, projected. */
  function AvailableItems(items: seq<ClothingItem>): (r: seq<AvailableItem>)
    ensures |r| == |Filter(items, Available)| <= |items|
    ensures forall i :: 0 <= i < |r| ==> r[i].subCategory != ""
  {
    Map(Filter(items, Available), Project)
  }

  /** The available items are exactly the projections of the non-laundry items, one per such item. */
  lemma AvailableItemsAreProjections(items: seq<ClothingItem>)
    ensures |AvailableItems(items)| == |Filter(items, Available)|
    ensures forall a :: a in AvailableItems(items) ==> exists x :: x in items && !x.inLaundry && a == Project(x)
    ensures forall i :: 0 <= i < |items| && !items[i].inLaundry ==> Project(items[i]) in AvailableItems(items)
    ensures forall a :: a in AvailableItems(items) ==> a.subCategory != ""
  {
    var kept := Filter(items, Available);
    var r := AvailableItems(items);
    forall a | a in r ensures exists x :: x in items && !x.inLaundry && a == Project(x) {
      var i :| 0 <= i < |r| && r[i] == a;
      assert kept[i] in items && !kept[i].inLaundry;
    }
    forall i | 0 <= i < |items| && !items[i].inLaundry ensures Project(items[i]) in r {
      assert Available(items[i]);
      var j :| 0 <= j < |kept| && kept[j] == items[i];
      assert r[j] == Project(items[i]);
    }
  }

  /**
   * The request, or the fixed error when fewer than three items are out of
   * the laundry; in that case no request is built.
   */
  function SuggestionRequest(items: seq<ClothingItem>): (r: Result<seq<AvailableItem>, string>)
    ensures r.Failure? <==> |Filter(items, Available)| < 3
    ensures r.Failure? ==> r.error == InsufficientMessage
    ensures r.Success? ==> r.value == AvailableItems(items) && |r.value| >= 3
  {
    var availableItems := AvailableItems(items);
    if |availableItems| < 3 then Failure(InsufficientMessage) else Success(availableItems)
  }

  /** The parsed reply of the suggestion service: one optional item name per slot. */
  datatype ParsedSuggestion = ParsedSuggestion(
    top: Option<string>, bottom: Option<string>, shoes: Option<string>,
    outerwear: Option<string>, hat: Option<string>, watch: Option<string>)

  /** A resolved slot: an item, or `undefined`, or `null`. */
  datatype Slot = Found(item: ClothingItem) | Undefined | Null

  datatype SuggestedItems = SuggestedItems(
    top: Slot, bottom: Slot, shoes: Slot, outerwear: Slot, hat: Slot, watch: Slot)

  /** How the service call ended: any transport, status or parse failure, or a parsed suggestion. */
  datatype Reply = ReplyFailed | ReplyParsed(suggestion: ParsedSuggestion)

  /** What the modal shows afterwards: an error message or the suggested items. */
  datatype Outcome = SuggestionError(message: string) | Suggestion(items: SuggestedItems)

  /** `x` is the first item of the collection named `name`. */
  predicate FirstNamed(items: seq<ClothingItem>, name: string, x: ClothingItem) {
    exists k :: 0 <= k < |items| && items[k] == x && x.name == name && forall j :: 0 <= j < k ==> items[j].name != name
  }

  /** `clothingItems.find(item => item.name === name)`; an absent name matches nothing. */
  function FindByName(items: seq<ClothingItem>, name: Option<string>): (r: Option<ClothingItem>)
    ensures r.None? <==> name.None? || forall i :: 0 <= i < |items| ==> items[i].name != name.value
    ensures r.Some? ==> name.Some? && FirstNamed(items, name.value, r.value)
  {
    match name
    case None => None
    case Some(n) => Find(items, (item: ClothingItem) => item.name == n)
  }

  /** A required slot: the found item or `undefined`. */
  function Required(found: Option<ClothingItem>): Slot {
    match found
    case Some(item) => Found(item)
    case None => Undefined
  }

  /** An optional slot: `find(...) || null`. */
  function Optional(found: Option<ClothingItem>): Slot {
    match found
    case Some(item) => Found(item)
    case None => Null
  }

  /** `suggestedItems`: each slot resolved against the whole collection, laundry included. */
  function Resolve(items: seq<ClothingItem>, s: ParsedSuggestion): (r: SuggestedItems)
    ensures !r.top.Null? && !r.bottom.Null? && !r.shoes.Null?
    ensures !r.outerwear.Undefined? && !r.hat.Undefined? && !r.watch.Undefined?
  {
    SuggestedItems(
      Required(FindByName(items, s.top)),
      Required(FindByName(items, s.bottom)),
      Required(FindByName(items, s.shoes)),
      Optional(FindByName(items, s.outerwear)),
      Optional(FindByName(items, s.hat)),
      Optional(FindByName(items, s.watch)))
  }

  /** A slot holds the first item of the collection with the suggested name, or is absent when none has it. */
  predicate ResolvesTo(items: seq<ClothingItem>, name: Option<string>, slot: Slot, absent: Slot) {
    match slot
    case Found(x) =>
      name.Some? && FirstNamed(items, name.value, x)
    case _ =>
      slot == absent && (name.None? || forall i :: 0 <= i < |items| ==> items[i].name != name.value)
  }

  /** Every slot resolves by first exact name match; unmatched required slots are `undefined`, optional ones `null`. */
  lemma ResolveSlots(items: seq<ClothingItem>, s: ParsedSuggestion)
    ensures var r := Resolve(items, s);
      && ResolvesTo(items, s.top, r.top, Undefined)
      && ResolvesTo(items, s.bottom, r.bottom, Undefined)
      && ResolvesTo(items, s.shoes, r.shoes, Undefined)
      && ResolvesTo(items, s.outerwear, r.outerwear, Null)
      && ResolvesTo(items, s.hat, r.hat, Null)
      && ResolvesTo(items, s.watch, r.watch, Null)
  {
  }

  /** `getOutfitSuggestion` without its I/O: the eligibility test, then the reply's resolution. */
  function GetOutfitSuggestion(items: seq<ClothingItem>, reply: Reply): (r: Outcome)
    ensures |Filter(items, Available)| < 3 ==> r == SuggestionError(InsufficientMessage)
    ensures |Filter(items, Available)| >= 3 && reply.ReplyFailed? ==> r == SuggestionError(FailureMessage)
    ensures |Filter(items, Available)| >= 3 && reply.ReplyParsed? ==> r == Suggestion(Resolve(items, reply.suggestion))
  {
    match SuggestionRequest(items)
    case Failure(message) => SuggestionError(message)
    case Success(_) =>
      match reply
      case ReplyFailed => SuggestionError(FailureMessage)
      case ReplyParsed(suggestion) => Suggestion(Resolve(items, suggestion))
  }

  /** When the wardrobe is too small the service is never consulted: the reply does not matter. */
  lemma InsufficientIgnoresReply(items: seq<ClothingItem>, reply1: Reply, reply2: Reply)
    requires |Filter(items, Available)| < 3
    ensures GetOutfitSuggestion(items, reply1) == GetOutfitSuggestion(items, reply2) == SuggestionError(InsufficientMessage)
  {
  }
}
