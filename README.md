# Digirobe wardrobe: a verified model

Digirobe is a personal clothing inventory. A React client keeps the signed-in
user's items in memory, derives filtered views from the active category and
sub-category, and changes the list after each call to a Spring REST server.
The server keeps each user's items, checks ownership on every change, and
registers and logs in users.

This project models that core in Dafny:

- **Client collection state** (`WardrobeState.WardrobeApp`). An object with
  the fields `clothingItems`, `activeCategory` and `activeSubCategory`. Its
  handlers (add, toggle laundry, clear laundry, delete) take the outcome of
  their remote call as an input value (`Fetch`): the call was rejected, or it
  resolved with an ok or a non-ok status. Each handler replaces the list with
  a pure function of the old list (`ReplaceById`, `WashAll`, `RemoveById`),
  and lemmas state what those functions keep.
- **The derived view** `filteredItems` (`ItemView`), over generic `map`,
  `filter` and `find` functions (`Seqs`).
- **Outfit suggestion** (`OutfitSuggestion`). The eligibility test, the
  projection of available items, and the resolution of suggested names. The
  suggestion service's reply is an input.
- **Add-item form submission** (`AddItemForm`). Price parsing is an input
  `Option`.
- **Server item rules.** `ItemEntity.Item` is the mutable entity with its
  setters. `ItemDto` is its response projection. `ItemStore` holds the item
  table (a map from id to row, plus the next identity value) and the
  repository object. `ItemRules` gives each endpoint's effect as a pure
  function, with the ownership properties proved. `ItemApi.ItemController`
  runs the endpoints step by step, like the Java code, and is proved against
  `ItemRules`.
- **Registration and login** (`Users`, `AuthApi`). A user table keyed by
  email. The password encoder, the authentication manager and the token
  provider are opaque functions.

Three behaviours of the code to note:

- `toggleLaundryStatus` and `deleteItem` wait for `fetch` to settle. They
  change the local list only if it resolves (whatever the status) and leave
  it as it was if it rejects.
- After the joined PUTs resolve, `clearLaundry` sets `inLaundry` to false on
  every item of the current list, not only on the items it sent PUTs for.
- The add form keeps whatever sub-category text the form holds when the
  category is "T-Shirts", including the empty "None" choice. It does not
  restrict the value to "Everyday" or "Going Out".

## Model

| member | source | states |
|---|---|---|
| `Seqs.Filter` | DigirobeProject/digirobe-frontend/src/App.js:155-161 | `filter` keeps exactly the elements that satisfy the predicate, and never grows the list |
| `Seqs.Map` | DigirobeProject/digirobe-frontend/src/App.js:190 | `map` gives one result per element, in order: the i-th result is the function applied to the i-th element |
| `Seqs.Find` | DigirobeProject/digirobe-frontend/src/App.js:237 | `find` returns the first element that satisfies the predicate, and is absent exactly when none does |
| `Catalog.OnlyTShirtsHaveSubCategories` | DigirobeProject/digirobe-frontend/src/App.js:270-271 | only "T-Shirts" has a sub-category list, which is one of the fifteen categories and has two entries |
| `ItemView.FilteredItems` | DigirobeProject/digirobe-frontend/src/App.js:154-162 | the view is no longer than the collection, holds only shown items of the collection, and holds every shown item |
| `ItemView.ViewIsExact` | DigirobeProject/digirobe-frontend/src/App.js:154-162 | the view holds exactly the shown items, each as often as in the collection, as a subsequence of the collection (list order kept) |
| `ItemView.LaundryPartition` | DigirobeProject/digirobe-frontend/src/App.js:155-157 | the "Laundry" view holds exactly the items with `inLaundry` true; every other view holds none of them |
| `ItemView.SubCategoryOnlyForTShirts` | DigirobeProject/digirobe-frontend/src/App.js:158-160 | outside "T-Shirts", the sub-category selection does not change the view |
| `WardrobeState.JoinAll` | DigirobeProject/digirobe-frontend/src/App.js:197-203 | the joined outcome rejects exactly when one of the PUTs rejects; it resolves for an empty batch |
| `WardrobeState.Flipped` | DigirobeProject/digirobe-frontend/src/App.js:183 | the updated item is the argument with `inLaundry` negated and nothing else changed |
| `WardrobeState.ReplaceById` | DigirobeProject/digirobe-frontend/src/App.js:190 | after a toggle, elements with the argument's id become the updated item; all others, the order and the length are unchanged |
| `WardrobeState.WashAll` | DigirobeProject/digirobe-frontend/src/App.js:204 | after washing, every item has `inLaundry` false; all its other fields, the order and the length are unchanged |
| `WardrobeState.RemoveById` | DigirobeProject/digirobe-frontend/src/App.js:211 | the list after a delete holds only items of the old list with another id, and every such item |
| `WardrobeState.ItemsToWash` | DigirobeProject/digirobe-frontend/src/App.js:195 | the items `clearLaundry` sends a PUT for are exactly the laundry items of the list |
| `WardrobeState.RemoveByIdIsExact` | DigirobeProject/digirobe-frontend/src/App.js:211 | a delete keeps exactly the items with another id, each as often as before, in order |
| `WardrobeState.ToggleTwiceRestores` | DigirobeProject/digirobe-frontend/src/App.js:182-191 | toggling an item and then toggling its updated form gives back the original list |
| `WardrobeState.WashAllIdempotent` | DigirobeProject/digirobe-frontend/src/App.js:194-205 | clearing the laundry twice equals clearing it once; with no item in the laundry it changes nothing |
| `WardrobeState.WardrobeApp.constructor` | DigirobeProject/digirobe-frontend/src/App.js:120-122 | the state starts with an empty collection and both filters at "All" |
| `WardrobeState.WardrobeApp.SetActiveCategory` | DigirobeProject/digirobe-frontend/src/App.js:164-166 | choosing a category other than "T-Shirts" resets the sub-category to "All"; "T-Shirts" keeps it |
| `WardrobeState.WardrobeApp.SetActiveSubCategory` | DigirobeProject/digirobe-frontend/src/App.js:282 | choosing a sub-category sets it and nothing else |
| `WardrobeState.WardrobeApp.HandleAddItem` | DigirobeProject/digirobe-frontend/src/App.js:168-180 | the saved item is appended at the end only when the POST resolved with ok; otherwise the list is unchanged |
| `WardrobeState.WardrobeApp.ToggleLaundryStatus` | DigirobeProject/digirobe-frontend/src/App.js:182-192 | a resolved PUT, whatever its status, replaces the matching elements with the flipped argument; a rejected PUT leaves the list unchanged |
| `WardrobeState.WardrobeApp.ClearLaundry` | DigirobeProject/digirobe-frontend/src/App.js:194-206 | one settled outcome per PUT of the laundry set: when all resolve, the whole list is washed; when any rejects, the list is unchanged |
| `WardrobeState.WardrobeApp.DeleteItem` | DigirobeProject/digirobe-frontend/src/App.js:208-213 | a resolved DELETE removes the items with that id; a rejected one leaves the list unchanged |
| `AddItemForm.HandleSubmit` | DigirobeProject/digirobe-frontend/src/App.js:326 | submission is suppressed exactly when the name is empty, the brand is empty or the price does not parse; otherwise the fields are copied, the price is the parsed one, and the sub-category is kept exactly for "T-Shirts" (null otherwise) |
| `AddItemForm.UntouchedFormIsSuppressed` | DigirobeProject/digirobe-frontend/src/App.js:321-326 | the initial form (first category, empty text) cannot be submitted |
| `OutfitSuggestion.Project` | DigirobeProject/digirobe-frontend/src/App.js:220 | the projection keeps name and category, maps `itemSize` to `size`, and turns a falsy sub-category into "N/A" |
| `OutfitSuggestion.AvailableItems` | DigirobeProject/digirobe-frontend/src/App.js:220 | one available item per non-laundry item, none with an empty sub-category |
| `OutfitSuggestion.AvailableItemsAreProjections` | DigirobeProject/digirobe-frontend/src/App.js:220 | the available items are the projections of exactly the non-laundry items, one per item, and none has an empty sub-category |
| `OutfitSuggestion.SuggestionRequest` | DigirobeProject/digirobe-frontend/src/App.js:220-225 | with fewer than three non-laundry items the fixed message is returned and no request exists; otherwise the request is the projection |
| `OutfitSuggestion.FindByName` | DigirobeProject/digirobe-frontend/src/App.js:237 | a name resolves to the first item of the whole collection (laundry included) with exactly that name; an absent name resolves to nothing |
| `OutfitSuggestion.Resolve` | DigirobeProject/digirobe-frontend/src/App.js:237 | an unmatched top, bottom or shoes slot is never `null`, and an unmatched outerwear, hat or watch slot is never `undefined` |
| `OutfitSuggestion.ResolveSlots` | DigirobeProject/digirobe-frontend/src/App.js:237 | each slot resolves by first exact name match; an unmatched top, bottom or shoes slot is `undefined`, an unmatched outerwear, hat or watch slot is `null` |
| `OutfitSuggestion.GetOutfitSuggestion` | DigirobeProject/digirobe-frontend/src/App.js:215-240 | too few items gives the insufficiency message; a failed reply gives the generic failure message; a parsed reply gives its resolved slots |
| `OutfitSuggestion.InsufficientIgnoresReply` | DigirobeProject/digirobe-frontend/src/App.js:221-225 | when the wardrobe is too small the service's reply has no influence on the outcome |
| `ClientScenarios.TShirtSubCategoryScenario` | DigirobeProject/digirobe-frontend/src/App.js:158-160 | a tee marked "Everyday" is hidden under "Going Out" and shown under "Everyday" |
| `ClientScenarios.ToggleThenLaundryScenario` | DigirobeProject/digirobe-frontend/src/App.js:155 | after toggling the tee, the "Laundry" view is exactly the tee |
| `ClientScenarios.TooFewItemsScenario` | DigirobeProject/digirobe-frontend/src/App.js:221-224 | two available items give the insufficiency message, whatever the reply |
| `ClientScenarios.UnknownShoesScenario` | DigirobeProject/digirobe-frontend/src/App.js:237 | an unknown shoes name leaves that slot `undefined` while the others resolve |
| `ItemEntity.Loaded` | DigirobeProject/digirobe/src/main/java/com/wardrobe/item/ItemController.java:58 | a loaded entity carries the row's id, content fields and owner |
| `ItemEntity.Item.constructor` | DigirobeProject/digirobe/src/main/java/com/wardrobe/item/Item.java:9-31 | a new entity holds exactly the given id, content fields and owner |
| `ItemEntity.Item.SetUser` | DigirobeProject/digirobe/src/main/java/com/wardrobe/item/Item.java:35 | the setter changes only the owner, and reading it back gives the value set |
| `ItemEntity.Item.SetId` | DigirobeProject/digirobe/src/main/java/com/wardrobe/item/Item.java:39 | the setter changes only the id, and reading it back gives the value set |
| `ItemEntity.Item.SetName` | DigirobeProject/digirobe/src/main/java/com/wardrobe/item/Item.java:41 | the setter changes only the name, and reading it back gives the value set |
| `ItemEntity.Item.SetBrand` | DigirobeProject/digirobe/src/main/java/com/wardrobe/item/Item.java:43 | the setter changes only the brand, and reading it back gives the value set |
| `ItemEntity.Item.SetPrice` | DigirobeProject/digirobe/src/main/java/com/wardrobe/item/Item.java:45 | the setter changes only the price, and reading it back gives the value set |
| `ItemEntity.Item.SetCategory` | DigirobeProject/digirobe/src/main/java/com/wardrobe/item/Item.java:47 | the setter changes only the category, and reading it back gives the value set |
| `ItemEntity.Item.SetSubCategory` | DigirobeProject/digirobe/src/main/java/com/wardrobe/item/Item.java:49 | the setter changes only the sub-category, and reading it back gives the value set |
| `ItemEntity.Item.SetItemSize` | DigirobeProject/digirobe/src/main/java/com/wardrobe/item/Item.java:51 | the setter changes only the size, and reading it back gives the value set |
| `ItemEntity.Item.SetImageUrl` | DigirobeProject/digirobe/src/main/java/com/wardrobe/item/Item.java:53 | the setter changes only the image URL, and reading it back gives the value set |
| `ItemEntity.Item.SetInLaundry` | DigirobeProject/digirobe/src/main/java/com/wardrobe/item/Item.java:55 | the setter changes only the laundry flag, and reading it back gives the value set |
| `ItemDto.FromItem` | DigirobeProject/digirobe/src/main/java/com/wardrobe/item/ItemDTO.java:15-25 | the DTO's id is the entity's id and its eight content fields are the entity's |
| `ItemDto.DtoForgetsOnlyTheOwner` | DigirobeProject/digirobe/src/main/java/com/wardrobe/item/ItemDTO.java:3-25 | two entities give the same DTO exactly when their ids and content fields agree: the DTO keeps all of those and no owner |
| `ItemStore.SaveRow` | DigirobeProject/digirobe/src/main/java/com/wardrobe/item/Item.java:10-12 | saving without a present id stores the row under the fresh generated id and advances it; saving with a present id overwrites that row; freshness of ids is kept |
| `ItemStore.ItemRepository.FindById` | DigirobeProject/digirobe/src/main/java/com/wardrobe/item/ItemController.java:58 | the lookup is absent exactly for an unknown id; otherwise it is a fresh entity holding that row |
| `ItemStore.ItemRepository.Save` | DigirobeProject/digirobe/src/main/java/com/wardrobe/item/ItemController.java:50 | the table becomes `SaveRow` of the old table, and the entity carries the id it was saved under |
| `ItemStore.ItemRepository.Delete` | DigirobeProject/digirobe/src/main/java/com/wardrobe/item/ItemController.java:92 | exactly the entity's row is removed |
| `ItemStore.ItemRepository.FindByUserId` | DigirobeProject/digirobe/src/main/java/com/wardrobe/item/ItemRepository.java:14 | the result holds every item whose owner is the user, only such items, each once, with ids ascending |
| `ItemRules.CreateAsWritten` | DigirobeProject/digirobe/src/main/java/com/wardrobe/item/ItemController.java:47-52 | the owner is stamped and the body's entity is saved as it is: a present id in the body is merged over, otherwise a new row is made under the fresh id |
| `ItemRules.Create` | DigirobeProject/digirobe/src/main/java/com/wardrobe/item/ItemController.java:47-52 | the intended create: a new row under the fresh id, owned by the caller, with every existing row unchanged; the returned DTO carries the new id |
| `ItemRules.CreateWithoutIdIsCreate` | DigirobeProject/digirobe/src/main/java/com/wardrobe/item/ItemController.java:47-52 | for a body without an id, which is what the client sends, the code as written and the intended create agree |
| `ItemRules.CreateAsWrittenTakesOverForeignItem` | DigirobeProject/digirobe/src/main/java/com/wardrobe/item/ItemController.java:49-50 | a body carrying another user's item id overwrites that item and makes the caller its owner |
| `ItemRules.TakeoverExample` | DigirobeProject/digirobe/src/main/java/com/wardrobe/item/ItemController.java:49-50 | a concrete takeover: user 1 posts id 7 while item 7 belongs to user 2 |
| `ItemRules.Update` | DigirobeProject/digirobe/src/main/java/com/wardrobe/item/ItemController.java:56-79 | 404 exactly for an absent id and 403 exactly for another user's item, both leaving the table unchanged; otherwise exactly the eight content fields of that row are overwritten, id and owner kept, and the updated DTO is returned |
| `ItemRules.Delete` | DigirobeProject/digirobe/src/main/java/com/wardrobe/item/ItemController.java:83-97 | 404 for an absent id and 403 for another user's item, both leaving the table unchanged; otherwise exactly that row is removed and 200 is returned |
| `ItemRules.UpdateIdempotent` | DigirobeProject/digirobe/src/main/java/com/wardrobe/item/ItemController.java:65-75 | repeating the same update changes nothing more and answers the same response |
| `ItemRules.OtherUsersItemsUntouched` | DigirobeProject/digirobe/src/main/java/com/wardrobe/item/ItemController.java:62-64 | no intended create (`ItemRules.Create`), update or delete by one user changes the items owned by another; the create as written (`ItemRules.CreateAsWritten`) does not have this property, see Findings |
| `ItemApi.ItemController.constructor` | DigirobeProject/digirobe/src/main/java/com/wardrobe/item/ItemController.java:24-27 | the controller holds exactly the injected item and user repositories |
| `Users.UserRepository.FindByEmail` | DigirobeProject/digirobe/src/main/java/com/wardrobe/item/ItemController.java:32 | the lookup is present exactly for a registered email, and then it is the user stored under that email, whose own email is that email |
| `ItemApi.ItemController.GetAuthenticatedUser` | DigirobeProject/digirobe/src/main/java/com/wardrobe/item/ItemController.java:29-34 | the caller is the user registered under the principal's email; an unknown principal raises `UsernameNotFoundException` |
| `ItemApi.ItemController.GetAllItemsForUser` | DigirobeProject/digirobe/src/main/java/com/wardrobe/item/ItemController.java:36-43 | an unknown principal fails; otherwise the result lists the DTOs of exactly the caller's items, once each |
| `ItemApi.ItemController.CreateItem` | DigirobeProject/digirobe/src/main/java/com/wardrobe/item/ItemController.java:45-52 | an unknown principal fails before the table is touched; otherwise the result and the new table are those of `ItemRules.CreateAsWritten` |
| `ItemApi.ItemController.UpdateItem` | DigirobeProject/digirobe/src/main/java/com/wardrobe/item/ItemController.java:54-79 | an unknown principal fails before the table is touched; otherwise the response and the new table are those of `ItemRules.Update` |
| `ItemApi.ItemController.CopyDetails` | DigirobeProject/digirobe/src/main/java/com/wardrobe/item/ItemController.java:65-72 | the eight setters copy every content field from the request and keep the id and owner |
| `ItemApi.ItemController.DeleteItem` | DigirobeProject/digirobe/src/main/java/com/wardrobe/item/ItemController.java:81-97 | an unknown principal fails before the table is touched; otherwise the response and the new table are those of `ItemRules.Delete` |
| `Users.UserRepository.Save` | DigirobeProject/digirobe/src/main/java/com/wardrobe/auth/AuthController.java:39-42 | a new user is stored under its email with a fresh generated id; every other entry is unchanged |
| `AuthApi.AuthController.constructor` | DigirobeProject/digirobe/src/main/java/com/wardrobe/auth/AuthController.java:26-32 | the controller holds exactly the injected user repository, password encoder, authentication check and token generator |
| `AuthApi.AuthController.RegisterUser` | DigirobeProject/digirobe/src/main/java/com/wardrobe/auth/AuthController.java:34-44 | a known email gives 400 "Error: Email is already in use!" and leaves the table unchanged; a new email adds exactly one user with the encoded password and gives 200 "User registered successfully!" |
| `AuthApi.AuthController.CreateAuthenticationToken` | DigirobeProject/digirobe/src/main/java/com/wardrobe/auth/AuthController.java:46-55 | a token map with the single key "token" is returned exactly when authentication succeeds; otherwise the failure propagates and no token is made |

## Left out

- HTTP and `fetch` plumbing (URLs, headers, JSON bodies, `response.json()` and `.text()`) is not modelled. Each call is an outcome value. A response body that cannot be read counts as a rejection.
- The initial load `fetchItems` (App.js:135-152), the loading and error flags, and logout are not part of this model. The collection starts empty, as `useState([])` makes it.
- `Promise.all` concurrency in `clearLaundry` is not modelled. The handler takes the settled outcome of each PUT, in order, and joins them with `JoinAll`. The PUT request bodies are not modelled.
- Overlapping handlers are not modelled. Each handler runs as one step, from issuing its call to settling it.
- The suggestion service request (prompt text, payload schema, `JSON.parse`) is not modelled. It is an external, non-deterministic service, so its parsed reply is an input.
- The suggestion modal's state (`isSuggesting`, `outfitSuggestion`, `suggestionError`) is not modelled. `GetOutfitSuggestion` returns what would be stored there.
- `localStorage` token handling, login routing and the login/register page are browser I/O and are not modelled.
- Rendering is not modelled: the header, sidebar layout and window width, card menus and their click-outside listener, image loading with `FileReader`, spinners, and the modal open flags.
- The HTML `required` attributes on form inputs are browser validation and are not modelled. Only the checks in `handleSubmit` are.
- Prices are not modelled as floating point. They are reals that are only copied. Parsing with `parseFloat`/`isNaN` is an input `Option`, and `toFixed` display is not modelled.
- Spring Security is given as inputs: the principal's name is a parameter. `authenticate`, `encode` and `generateToken` are opaque functions. `loadUserByUsername` is folded into `generateToken` applied to the email.
- JPA and Spring Data are not modelled: `@Transactional`, lazy loading, and `findByCategory` (which no endpoint uses). `save` of an entity whose non-null id is absent from the table is modelled as an insertion under a generated id; Hibernate versions differ on this case.
- The order of `findByUserId` results is not given by the source. The model returns ascending ids.
- Java `null` is modelled only for fields the code leaves null: the entity's id and owner, and the sub-category. The other string fields are non-null strings.
- The getters of `Item` and `ItemDTO` are field reads. The DTO is an immutable datatype.
- The `User` class is not part of this model. A user is its id, email and stored password.
- AuthApi.AuthController.RegisterUser: states that the stored password is `encode(password)`. It does not state that this differs from the raw password, because that depends on the opaque encoder.
- AuthApi.AuthController.CreateAuthenticationToken: does not model a `UsernameNotFoundException` from `loadUserByUsername` after a successful authentication.

## Findings

| source | as written | input that shows it | evidently intended | confidence | as-written member | corrected member |
|---|---|---|---|---|---|---|
| DigirobeProject/digirobe/src/main/java/com/wardrobe/item/ItemController.java:47-51 | `createItem` stamps the caller as owner and saves the request-body entity unchanged. If the body carries an `id`, Spring Data's `save` merges it into the existing row, so the caller overwrites and takes over that item without the ownership check `updateItem` makes | user 1 sends `POST /api/items` with body `{"id": 7, ...}` while item 7 belongs to user 2; afterwards item 7 holds user 1's fields and belongs to user 1 | create always inserts a new row under a generated id and ignores any id in the body | not executed; medium (relies on Spring Data's documented merge-on-save behaviour) | `ItemRules.CreateAsWritten`, shown by `ItemRules.CreateAsWrittenTakesOverForeignItem` and `ItemRules.TakeoverExample` | `ItemRules.Create`, with `ItemRules.OtherUsersItemsUntouched` |

The controller method `ItemApi.ItemController.CreateItem` models the code as it is. The ownership theorem `ItemRules.OtherUsersItemsUntouched` uses the intended `ItemRules.Create`. `ItemRules.CreateWithoutIdIsCreate` shows the two agree on every request the client sends, because the client's body has no id.
