/**
 * What each endpoint of `ItemController` does to the item table, as pure
 * functions of the table and the authenticated user's id, with the
 * ownership rules proved about them.
 */
module ItemRules {
  import opened Wrappers
  import opened Http
  import opened ItemEntity
  import opened ItemDto
  import opened ItemStore

  /** The rows owned by `user`. */
  function OwnedBy(rows: map<int, ItemRow>, user: int): map<int, ItemRow> {
    map k | k in rows && rows[k].owner == user :: rows[k]
  }

  /** `r` lists the DTOs of exactly the rows owned by `user`, once each. */
  predicate ListsExactly(r: seq<ItemDTO>, rows: map<int, ItemRow>, user: int) {
    && (forall i :: 0 <= i < |r| ==>
          r[i].id.Some? && r[i].id.value in rows && rows[r[i].id.value].owner == user &&
          r[i] == FromItem(Loaded(r[i].id.value, rows[r[i].id.value])))
    && (forall k :: k in rows && rows[k].owner == user ==> FromItem(Loaded(k, rows[k])) in r)
    && (forall i, j :: 0 <= i < j < |r| ==> r[i].id != r[j].id)
  }

  /**
   * `createItem` as written: the request body's entity, owner stamped, is
   * saved as it is, so an id in the body reaches `save`, which merges.
   */
  function CreateAsWritten(st: Store, user: int, body: ItemState): (r: (ItemDTO, Store))
    ensures body.id.Some? && body.id.value in st.rows ==>
      r.1 == Store(st.rows[body.id.value := ItemRow(body.fields, user)], st.nextId) && r.0.id == body.id
    ensures !(body.id.Some? && body.id.value in st.rows) ==>
      r.1 == Store(st.rows[st.nextId := ItemRow(body.fields, user)], st.nextId + 1) && r.0.id == Some(st.nextId)
    ensures r.0.Fields() == body.fields
  {
    var (savedId, st') := SaveRow(st, body.id, ItemRow(body.fields, user));
    (FromItem(ItemState(Some(savedId), body.fields, Some(user))), st')
  }

  /**
   * `createItem` as intended: always a new row, under a freshly generated
   * id, owned by the caller; every existing row is left as it was.
   */
  function Create(st: Store, user: int, fields: ItemFields): (r: (ItemDTO, Store))
    requires st.Valid()
    ensures r.1.Valid()
    ensures r.0.id == Some(st.nextId) && st.nextId !in st.rows
    ensures r.1.rows.Keys == st.rows.Keys + {st.nextId}
    ensures r.1.rows[st.nextId] == ItemRow(fields, user)
    ensures forall k :: k in st.rows ==> r.1.rows[k] == st.rows[k]
    ensures r.0 == FromItem(Loaded(st.nextId, r.1.rows[st.nextId]))
  {
    var (savedId, st') := SaveRow(st, None, ItemRow(fields, user));
    (FromItem(ItemState(Some(savedId), fields, Some(user))), st')
  }

  /** With no id in the body, which is what the client sends, the code as written creates as intended. */
  lemma CreateWithoutIdIsCreate(st: Store, user: int, fields: ItemFields)
    requires st.Valid()
    ensures CreateAsWritten(st, user, ItemState(None, fields, None)) == Create(st, user, fields)
  {
  }

  /**
   * The code as written lets a caller take over another user's item: a body
   * carrying that item's id overwrites the row and stamps the caller as owner.
   */
  lemma CreateAsWrittenTakesOverForeignItem(st: Store, user: int, body: ItemState)
    requires body.id.Some? && body.id.value in st.rows && st.rows[body.id.value].owner != user
    ensures var r := CreateAsWritten(st, user, body);
      && r.1.rows[body.id.value] == ItemRow(body.fields, user)
      && OwnedBy(r.1.rows, st.rows[body.id.value].owner) != OwnedBy(st.rows, st.rows[body.id.value].owner)
  {
    var k := body.id.value;
    var victim := st.rows[k].owner;
    var r := CreateAsWritten(st, user, body);
    assert k in OwnedBy(st.rows, victim);
    assert k !in OwnedBy(r.1.rows, victim);
  }

  /** A concrete instance: user 1 posts `{"id": 7, ...}` while item 7 belongs to user 2. */
  lemma TakeoverExample(fields: ItemFields, mine: ItemFields)
    ensures var st := Store(map[7 := ItemRow(fields, 2)], 8);
      && st.Valid()
      && CreateAsWritten(st, 1, ItemState(Some(7), mine, None)).1.rows == map[7 := ItemRow(mine, 1)]
  {
  }

  /** `updateItem` after authentication: 404, 403, or a full overwrite of the content fields. */
  function Update(st: Store, user: int, id: int, details: ItemFields): (r: (ResponseEntity<ItemDTO>, Store))
    ensures r.0.status == NotFound <==> id !in st.rows
    ensures r.0.status == Forbidden <==> id in st.rows && st.rows[id].owner != user
    ensures r.0.status == Ok <==> id in st.rows && st.rows[id].owner == user
    ensures r.0.status != Ok ==> r.1 == st && r.0.body.None?
    ensures r.1.nextId == st.nextId && r.1.rows.Keys == st.rows.Keys
    ensures forall k :: k in st.rows ==> r.1.rows[k].owner == st.rows[k].owner
    ensures forall k :: k in st.rows && k != id ==> r.1.rows[k] == st.rows[k]
    ensures r.0.status == Ok ==> r.1.rows[id].fields == details
    ensures r.0.status == Ok ==> r.0.body == Some(FromItem(Loaded(id, r.1.rows[id])))
  {
    if id !in st.rows then (ResponseEntity(NotFound, None), st)
    else if st.rows[id].owner != user then (ResponseEntity(Forbidden, None), st)
    else
      var (savedId, st') := SaveRow(st, Some(id), ItemRow(details, user));
      (ResponseEntity(Ok, Some(FromItem(ItemState(Some(savedId), details, Some(user))))), st')
  }

  /** `deleteItem` after authentication: 404, 403, or removal of exactly that row. */
  function Delete(st: Store, user: int, id: int): (r: (ResponseEntity<()>, Store))
    ensures r.0.status == NotFound <==> id !in st.rows
    ensures r.0.status == Forbidden <==> id in st.rows && st.rows[id].owner != user
    ensures r.0.status == Ok <==> id in st.rows && st.rows[id].owner == user
    ensures r.0.body.None?
    ensures r.0.status != Ok ==> r.1 == st
    ensures r.0.status == Ok ==> r.1.rows.Keys == st.rows.Keys - {id}
    ensures r.1.nextId == st.nextId && forall k :: k in r.1.rows ==> k in st.rows && r.1.rows[k] == st.rows[k]
  {
    if id !in st.rows then (ResponseEntity(NotFound, None), st)
    else if st.rows[id].owner != user then (ResponseEntity(Forbidden, None), st)
    else (ResponseEntity(Ok, None), st.(rows := st.rows - {id}))
  }

  /** Updating the same item with the same details twice is updating it once. */
  lemma UpdateIdempotent(st: Store, user: int, id: int, details: ItemFields)
    ensures Update(Update(st, user, id, details).1, user, id, details) == Update(st, user, id, details)
  {
    var once := Update(st, user, id, details);
    if once.0.status == Ok {
      assert once.1.rows[id] == ItemRow(details, user);
      assert once.1.rows[id := ItemRow(details, user)] == once.1.rows;
    }
  }

  /**
   * No request of one user changes the items of another: the intended create,
   * update and delete leave every other owner's rows as they were.
   */
  lemma OtherUsersItemsUntouched(st: Store, user: int, other: int, id: int, fields: ItemFields)
    requires st.Valid() && other != user
    ensures OwnedBy(Create(st, user, fields).1.rows, other) == OwnedBy(st.rows, other)
    ensures OwnedBy(Update(st, user, id, fields).1.rows, other) == OwnedBy(st.rows, other)
    ensures OwnedBy(Delete(st, user, id).1.rows, other) == OwnedBy(st.rows, other)
  {
    var created := Create(st, user, fields).1.rows;
    assert OwnedBy(created, other).Keys == OwnedBy(st.rows, other).Keys;
    var updated := Update(st, user, id, fields).1.rows;
    assert OwnedBy(updated, other).Keys == OwnedBy(st.rows, other).Keys;
    var deleted := Delete(st, user, id).1.rows;
    assert OwnedBy(deleted, other).Keys == OwnedBy(st.rows, other).Keys;
  }
}
