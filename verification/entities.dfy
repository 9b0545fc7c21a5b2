/**
 * The stored record (`UserDataEntity`, a row of `user_data_table`), the
 * record shown in the list (`UserDataItem`) and the copy between them.
 */
module Entities {
  import opened KotlinText

  /** A stored record. `id` defaults to 0; the store assigns the real key on insert. */
  datatype UserDataEntity = UserDataEntity(
    id: Int64 := 0,
    name: string,
    age: Int32,
    dob: string,
    address: string
  )

  /** A record as the list screen shows it: the same five fields. */
  datatype UserDataItem = UserDataItem(
    id: Int64,
    name: string,
    age: Int32,
    dob: string,
    address: string
  )

  /** `toUserDataItem`: a field-for-field copy. */
  function ToUserDataItem(e: UserDataEntity): (item: UserDataItem)
    ensures item.id == e.id && item.name == e.name && item.age == e.age
    ensures item.dob == e.dob && item.address == e.address
  {
    UserDataItem(
      id := e.id,
      name := e.name,
      age := e.age,
      dob := e.dob,
      address := e.address
    )
  }

  /** A record built from the form, before the store has assigned it an id. */
  function NewEntity(name: string, age: Int32, dob: string, address: string): (e: UserDataEntity)
    ensures e.id == 0
    ensures e.name == name && e.age == age && e.dob == dob && e.address == address
  {
    UserDataEntity(name := name, age := age, dob := dob, address := address)
  }

  /** Distinct entities give distinct items. */
  lemma ToUserDataItemInjective(a: UserDataEntity, b: UserDataEntity)
    ensures ToUserDataItem(a) == ToUserDataItem(b) ==> a == b
  {
  }

  /** `entities.map { it.toUserDataItem() }`. */
  function MapToItems(entities: seq<UserDataEntity>): (items: seq<UserDataItem>)
    ensures |items| == |entities|
    ensures forall i :: 0 <= i < |entities| ==> items[i] == ToUserDataItem(entities[i])
  {
    if entities == [] then [] else [ToUserDataItem(entities[0])] + MapToItems(entities[1..])
  }

  /** Copying a list is copying its head and then its tail. */
  lemma MapToItemsCons(e: UserDataEntity, s: seq<UserDataEntity>)
    ensures MapToItems([e] + s) == [ToUserDataItem(e)] + MapToItems(s)
  {
    assert ([e] + s)[1..] == s;
  }

  /** The tail of a copied list is the copy of the tail. */
  lemma MapToItemsTail(s: seq<UserDataEntity>)
    requires s != []
    ensures MapToItems(s)[1..] == MapToItems(s[1..])
  {
  }

  /** Mapping a list loses nothing: distinct lists give distinct item lists. */
  lemma MapToItemsInjective(a: seq<UserDataEntity>, b: seq<UserDataEntity>)
    requires MapToItems(a) == MapToItems(b)
    ensures a == b
  {
    forall i | 0 <= i < |a| ensures a[i] == b[i] {
      ToUserDataItemInjective(a[i], b[i]);
    }
  }

  function EntityId(e: UserDataEntity): int { e.id }

  function ItemId(item: UserDataItem): int { item.id }
}
