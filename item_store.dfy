/**
 * The item table behind `ItemRepository` (ItemRepository.java), modelled as a
 * map from id to row together with the next identity value. Spring Data's
 * repository methods are not in the source; their documented behaviour is
 * given here.
 */
module ItemStore {
  import opened Wrappers
  import opened ItemEntity

  datatype Store = Store(rows: map<int, ItemRow>, nextId: int) {
    /** Identity values start at 1 and every id in use was generated earlier, so `nextId` is fresh. */
    predicate Valid() {
      1 <= nextId && forall k :: k in rows ==> 1 <= k < nextId
    }
  }

  /**
   * `save`: an entity without an id is inserted under a newly generated id
   * (`GenerationType.IDENTITY`); an entity with an id that is present is
   * merged, overwriting that row. An id that is absent is treated like no id.
   * Returns the id saved under and the new table.
   */
  function SaveRow(st: Store, id: Option<int>, row: ItemRow): (r: (int, Store))
    ensures r.1.rows == st.rows[r.0 := row]
    ensures id.Some? && id.value in st.rows ==> r.0 == id.value && r.1.nextId == st.nextId
    ensures !(id.Some? && id.value in st.rows) ==> r.0 == st.nextId && r.1.nextId == st.nextId + 1
    ensures st.Valid() ==> r.1.Valid()
    ensures st.Valid() ==> (r.0 in st.rows <==> id.Some? && id.value in st.rows)
  {
    if id.Some? && id.value in st.rows then (id.value, st.(rows := st.rows[id.value := row]))
    else (st.nextId, Store(st.rows[st.nextId := row], st.nextId + 1))
  }

  class ItemRepository {
    var rows: map<int, ItemRow>
    var nextId: int

    constructor ()
      ensures rows == map[] && nextId == 1
    {
      rows := map[];
      nextId := 1;
    }

    function Snapshot(): Store
      reads this
    {
      Store(rows, nextId)
    }

    predicate Valid()
      reads this
    {
      Snapshot().Valid()
    }

    /** `findById`: a fresh entity holding the row under `id`, or nothing. */
    method FindById(id: int) returns (r: Option<Item>)
      ensures r.None? <==> id !in rows
      ensures r.Some? ==> fresh(r.value) && r.value.State() == Loaded(id, rows[id])
    {
      if id in rows {
        var item := new Item(Loaded(id, rows[id]));
        r := Some(item);
      } else {
        r := None;
      }
    }

    /** `save(item)`: the table becomes `SaveRow` of the old one, and the entity carries the id saved under. */
    method Save(item: Item) returns (savedId: int)
      requires item.user.Some?
      modifies this, item`id
      ensures (savedId, Snapshot()) == SaveRow(old(Snapshot()), old(item.id), ItemRow(item.Fields(), item.user.value))
      ensures item.id == Some(savedId)
    {
      var row := ItemRow(item.Fields(), item.user.value);
      var result := SaveRow(Snapshot(), item.id, row);
      savedId := result.0;
      rows, nextId := result.1.rows, result.1.nextId;
      item.SetId(Some(savedId));
    }

    /** `delete(item)`: removes the row under the entity's id. */
    method Delete(item: Item)
      requires item.id.Some?
      modifies this
      ensures rows == old(rows) - {item.id.value} && nextId == old(nextId)
    {
      rows := rows - {item.id.value};
    }

    /**
     * `findByUserId`: every item whose owner is `userId`, once each. The
     * order is not given by the source; the model scans the ids upwards.
     */
    method FindByUserId(userId: int) returns (items: seq<ItemState>)
      requires Valid()
      ensures forall i :: 0 <= i < |items| ==>
        items[i].id.Some? && items[i].id.value in rows &&
        rows[items[i].id.value].owner == userId && items[i] == Loaded(items[i].id.value, rows[items[i].id.value])
      ensures forall k :: k in rows && rows[k].owner == userId ==> Loaded(k, rows[k]) in items
      ensures forall i, j :: 0 <= i < j < |items| ==> items[i].id.value < items[j].id.value
    {
      items := [];
      var id := 1;
      while id < nextId
        invariant 1 <= id <= nextId
        invariant forall i :: 0 <= i < |items| ==>
          items[i].id.Some? && items[i].id.value < id && items[i].id.value in rows &&
          rows[items[i].id.value].owner == userId && items[i] == Loaded(items[i].id.value, rows[items[i].id.value])
        invariant forall k :: k in rows && k < id && rows[k].owner == userId ==> Loaded(k, rows[k]) in items
        invariant forall i, j :: 0 <= i < j < |items| ==> items[i].id.value < items[j].id.value
      {
        if id in rows && rows[id].owner == userId {
          ghost var before := items;
          items := items + [Loaded(id, rows[id])];
          assert forall x :: x in before ==> x in items;
        }
        id := id + 1;
      }
    }
  }
}
