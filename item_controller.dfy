/**
 * `ItemController` (ItemController.java): the item endpoints over the item
 * table, each proved against its rule in `ItemRules`. The authenticated
 * principal's name is a parameter (`SecurityContextHolder` is not modelled).
 */
module ItemApi {
  import opened Wrappers
  import opened Seqs
  import opened Http
  import opened ItemEntity
  import opened ItemDto
  import opened ItemStore
  import opened Users
  import ItemRules

  const UserNotFound: ServerError := UsernameNotFound("User not found")

  class ItemController {
    const itemRepository: ItemRepository
    const userRepository: UserRepository

    constructor (itemRepository: ItemRepository, userRepository: UserRepository)
      ensures this.itemRepository == itemRepository && this.userRepository == userRepository
    {
      this.itemRepository := itemRepository;
      this.userRepository := userRepository;
    }

    /** `getAuthenticatedUser`: the user registered under the principal's email, or `UsernameNotFoundException`. */
    method GetAuthenticatedUser(principal: string) returns (r: Result<User, ServerError>)
      requires userRepository.Valid()
      ensures r.Success? <==> principal in userRepository.users
      ensures r.Success? ==> r.value == userRepository.users[principal] && r.value.email == principal
      ensures r.Failure? ==> r.error == UserNotFound
    {
      match userRepository.FindByEmail(principal)
      case Some(user) => r := Success(user);
      case None => r := Failure(UserNotFound);
    }

    /** `getAllItemsForUser`: the DTOs of exactly the caller's items. */
    method GetAllItemsForUser(principal: string) returns (r: Result<seq<ItemDTO>, ServerError>)
      requires userRepository.Valid() && itemRepository.Valid()
      ensures r.Failure? <==> principal !in userRepository.users
      ensures r.Failure? ==> r.error == UserNotFound
      ensures r.Success? ==> ItemRules.ListsExactly(r.value, itemRepository.rows, userRepository.users[principal].id)
    {
      var u := GetAuthenticatedUser(principal);
      if u.Failure? {
        return Failure(u.error);
      }
      var items := itemRepository.FindByUserId(u.value.id);
      var dtos := Map(items, FromItem);
      forall k | k in itemRepository.rows && itemRepository.rows[k].owner == u.value.id
        ensures FromItem(Loaded(k, itemRepository.rows[k])) in dtos
      {
        var i :| 0 <= i < |items| && items[i] == Loaded(k, itemRepository.rows[k]);
        assert dtos[i] == FromItem(items[i]);
      }
      r := Success(dtos);
    }

    /** `createItem`, as written: stamp the caller as owner, save the body's entity, return its DTO. */
    method CreateItem(principal: string, item: Item) returns (r: Result<ItemDTO, ServerError>)
      requires userRepository.Valid() && itemRepository.Valid()
      modifies itemRepository, item
      ensures itemRepository.Valid()
      ensures principal !in userRepository.users ==>
        r == Failure(UserNotFound) && itemRepository.Snapshot() == old(itemRepository.Snapshot())
      ensures principal in userRepository.users ==>
        r.Success? &&
        (r.value, itemRepository.Snapshot()) ==
          ItemRules.CreateAsWritten(old(itemRepository.Snapshot()), userRepository.users[principal].id, old(item.State()))
    {
      var u := GetAuthenticatedUser(principal);
      if u.Failure? {
        return Failure(u.error);
      }
      item.SetUser(Some(u.value.id));
      var savedId := itemRepository.Save(item);
      r := Success(FromItem(item.State()));
    }

    /**
     * `updateItem`: 404 for an absent id, 403 for another user's item,
     * otherwise the eight content fields are overwritten from the request.
     */
    method UpdateItem(principal: string, itemId: int, itemDetails: Item) returns (r: Result<ResponseEntity<ItemDTO>, ServerError>)
      requires userRepository.Valid() && itemRepository.Valid()
      modifies itemRepository
      ensures itemRepository.Valid()
      ensures principal !in userRepository.users ==>
        r == Failure(UserNotFound) && itemRepository.Snapshot() == old(itemRepository.Snapshot())
      ensures principal in userRepository.users ==>
        r.Success? &&
        (r.value, itemRepository.Snapshot()) ==
          ItemRules.Update(old(itemRepository.Snapshot()), userRepository.users[principal].id, itemId, itemDetails.Fields())
    {
      var u := GetAuthenticatedUser(principal);
      if u.Failure? {
        return Failure(u.error);
      }
      var user := u.value;
      var optionalItem := itemRepository.FindById(itemId);
      if optionalItem.Some? {
        var item := optionalItem.value;
        if item.user != Some(user.id) {
          return Success(ResponseEntity(Forbidden, None));
        }
        CopyDetails(item, itemDetails);
        var savedId := itemRepository.Save(item);
        r := Success(ResponseEntity(Ok, Some(FromItem(item.State()))));
      } else {
        r := Success(ResponseEntity(NotFound, None));
      }
    }

    /** The eight setter calls of `updateItem`: every content field from the request, id and owner kept. */
    static method CopyDetails(item: Item, itemDetails: Item)
      requires item != itemDetails
      modifies item
      ensures item.Fields() == itemDetails.Fields()
      ensures item.id == old(item.id) && item.user == old(item.user)
    {
      item.SetName(itemDetails.name);
      item.SetBrand(itemDetails.brand);
      item.SetPrice(itemDetails.price);
      item.SetCategory(itemDetails.category);
      item.SetSubCategory(itemDetails.subCategory);
      item.SetItemSize(itemDetails.itemSize);
      item.SetImageUrl(itemDetails.imageUrl);
      item.SetInLaundry(itemDetails.inLaundry);
    }

    /** `deleteItem`: 404 for an absent id, 403 for another user's item, otherwise the row is removed. */
    method DeleteItem(principal: string, itemId: int) returns (r: Result<ResponseEntity<()>, ServerError>)
      requires userRepository.Valid() && itemRepository.Valid()
      modifies itemRepository
      ensures itemRepository.Valid()
      ensures principal !in userRepository.users ==>
        r == Failure(UserNotFound) && itemRepository.Snapshot() == old(itemRepository.Snapshot())
      ensures principal in userRepository.users ==>
        r.Success? &&
        (r.value, itemRepository.Snapshot()) ==
          ItemRules.Delete(old(itemRepository.Snapshot()), userRepository.users[principal].id, itemId)
    {
      var u := GetAuthenticatedUser(principal);
      if u.Failure? {
        return Failure(u.error);
      }
      var user := u.value;
      var optionalItem := itemRepository.FindById(itemId);
      if optionalItem.Some? {
        var item := optionalItem.value;
        if item.user != Some(user.id) {
          return Success(ResponseEntity(Forbidden, None));
        }
        itemRepository.Delete(item);
        r := Success(ResponseEntity(Ok, None));
      } else {
        r := Success(ResponseEntity(NotFound, None));
      }
    }
  }
}
