/**
 * The record list's view state (`UiState`) and the projection
 * `allUsersData` applies to every list of rows the store emits.
 */
module Projection {
  import opened Entities
  import opened StableSort

  /** `Loading` until the store's first emission, then `Empty` or `Success`. */
  datatype UiState<+T> = Loading | Success(data: T) | Empty

  /**
   * One emission of `allUsersData`: `Empty` for no rows, otherwise the rows
   * as list items, largest id first, rows with equal ids in emitted order.
   */
  function ProjectUsers(entities: seq<UserDataEntity>): (r: UiState<seq<UserDataItem>>)
    ensures r != Loading
    ensures r == Empty <==> entities == []
    ensures r.Success? ==> IsStableDescendingSort(r.data, MapToItems(entities), ItemId)
    ensures r.Success? ==> |r.data| == |entities|
  {
    if entities == [] then Empty
    else
      var data := SortDescBy(MapToItems(entities), ItemId);
      assert |data| == |multiset(data)| == |MapToItems(entities)|;
      Success(data)
  }

  /** Copying keeps a list's order by id. */
  lemma CopyKeepsOrder(s: seq<UserDataEntity>)
    requires SortedDescBy(s, EntityId)
    ensures SortedDescBy(MapToItems(s), ItemId)
  {
    var items := MapToItems(s);
    forall i, j | 0 <= i < j < |items| ensures ItemId(items[i]) >= ItemId(items[j]) {
      assert EntityId(s[i]) >= EntityId(s[j]);
    }
  }

  /** Inserting an item is inserting its entity and then copying. */
  lemma {:induction false} InsertCommutesWithCopy(x: UserDataEntity, s: seq<UserDataEntity>)
    ensures InsertDescBy(ToUserDataItem(x), MapToItems(s), ItemId) == MapToItems(InsertDescBy(x, s, EntityId))
  {
    if s != [] && x.id < s[0].id {
      var items := MapToItems(s);
      var item := ToUserDataItem(x);
      var tail := InsertDescBy(x, s[1..], EntityId);
      calc {
        InsertDescBy(item, items, ItemId);
        { InsertBehind(item, items, ItemId); }
        [items[0]] + InsertDescBy(item, items[1..], ItemId);
        { MapToItemsTail(s); InsertCommutesWithCopy(x, s[1..]); }
        [items[0]] + MapToItems(tail);
        { MapToItemsCons(s[0], tail); }
        MapToItems([s[0]] + tail);
        { InsertBehind(x, s, EntityId); }
        MapToItems(InsertDescBy(x, s, EntityId));
      }
    } else {
      MapToItemsCons(x, s);
    }
  }

  /**
   * Sorting the items by id gives the same list as sorting the entities by
   * id and then copying them: the copy keeps every id.
   */
  lemma {:induction false} SortCommutesWithCopy(entities: seq<UserDataEntity>)
    ensures SortDescBy(MapToItems(entities), ItemId) == MapToItems(SortDescBy(entities, EntityId))
  {
    if entities != [] {
      var items := MapToItems(entities);
      assert items[1..] == MapToItems(entities[1..]);
      SortCommutesWithCopy(entities[1..]);
      InsertCommutesWithCopy(entities[0], SortDescBy(entities[1..], EntityId));
    }
  }

  /** Any list that meets the projection's contract is the projection's own list. */
  lemma ProjectionDetermined(entities: seq<UserDataEntity>, data: seq<UserDataItem>)
    requires entities != []
    requires IsStableDescendingSort(data, MapToItems(entities), ItemId)
    ensures ProjectUsers(entities) == Success(data)
  {
    StableDescendingSortUnique(data, MapToItems(entities), ItemId);
  }
}
