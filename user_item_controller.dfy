/** Item ownership: `createUserItem`, `getUserItems`, `deleteUserItem`.
    `(user, storeItem)` is a unique index of the collection. */
module UserItemController {
  import opened Base
  import opened Models
  import opened Ordering

  predicate IsPair(i: UserItem, user: Id, storeItem: Id) {
    i.user == user && i.storeItem == storeItem
  }

  /** The unique `{ user: 1, storeItem: 1 }` index. */
  ghost predicate PairsUnique(items: seq<Row<UserItem>>) {
    forall i, j :: 0 <= i < j < |items| ==> !IsPair(items[j].doc, items[i].doc.user, items[i].doc.storeItem)
  }

  /** `UserItem.findOne({ user, storeItem })`. */
  function Owned(items: seq<Row<UserItem>>, user: Id, storeItem: Id): (k: Option<nat>)
    ensures k.Some? ==> k.value < |items| && IsPair(items[k.value].doc, user, storeItem)
    ensures k.None? <==> forall j :: 0 <= j < |items| ==> !IsPair(items[j].doc, user, storeItem)
  {
    FirstWhere(items, (i: UserItem) => IsPair(i, user, storeItem))
  }

  /** A purchase as saved: bought now, not equipped. */
  function Purchase(user: Id, storeItem: Id, now: int): (i: UserItem)
    ensures IsPair(i, user, storeItem) && i.purchasedAt == now && !i.isEquipped
  {
    UserItem(user, storeItem, now, false)
  }

  /** Once bought, the pair is owned: buying it again is refused. */
  lemma PurchaseThenOwned(items: seq<Row<UserItem>>, id: Id, user: Id, storeItem: Id, now: int)
    ensures Owned(items + [Row(id, Purchase(user, storeItem, now))], user, storeItem).Some?
  {
    var r := items + [Row(id, Purchase(user, storeItem, now))];
    assert IsPair(r[|items|].doc, user, storeItem);
  }

  /** 400 for a missing id, then 404 for an unknown store item, then 409 for a
      pair already owned; otherwise one purchase is added. */
  method CreateUserItem(db: Db, userId: Option<Id>, storeItemId: Option<Id>, now: int, newId: Id)
    returns (status: Status)
    requires newId !in Ids(db.userItems)
    modifies db`userItems
    ensures userId.None? || storeItemId.None? ==> status == BadRequest && db.userItems == old(db.userItems)
    ensures userId.Some? && storeItemId.Some? && storeItemId.value !in Ids(db.storeItems) ==>
      status == NotFound && db.userItems == old(db.userItems)
    ensures userId.Some? && storeItemId.Some? && storeItemId.value in Ids(db.storeItems) &&
            Owned(old(db.userItems), userId.value, storeItemId.value).Some? ==>
      status == Conflict && db.userItems == old(db.userItems)
    ensures status == Created <==>
      userId.Some? && storeItemId.Some? && storeItemId.value in Ids(db.storeItems) &&
      Owned(old(db.userItems), userId.value, storeItemId.value).None?
    ensures status == Created ==>
      db.userItems == old(db.userItems) + [Row(newId, Purchase(userId.value, storeItemId.value, now))]
    ensures PairsUnique(old(db.userItems)) ==> PairsUnique(db.userItems)
    ensures UniqueIds(old(db.userItems)) ==> UniqueIds(db.userItems)
  {
    if userId.None? || storeItemId.None? {
      return BadRequest;
    }
    var storeItem := FindDoc(db.storeItems, storeItemId.value);
    if storeItem.None? {
      return NotFound;
    }
    var existing := Owned(db.userItems, userId.value, storeItemId.value);
    if existing.Some? {
      return Conflict;
    }
    db.userItems := db.userItems + [Row(newId, Purchase(userId.value, storeItemId.value, now))];
    status := Created;
  }

  function PurchasedKey(r: Row<UserItem>): Key {
    Num(r.doc.purchasedAt)
  }

  /** `UserItem.find({ user }).sort({ purchased_at: -1 })`: exactly that user's
      items, latest purchase first. */
  function ItemsOf(items: seq<Row<UserItem>>, user: Id): (r: seq<Row<UserItem>>)
    ensures forall i :: i in r <==> i in items && i.doc.user == user
    ensures forall i :: multiset(r)[i] == if i.doc.user == user then multiset(items)[i] else 0
    ensures forall i, j :: 0 <= i < j < |r| ==> r[i].doc.purchasedAt >= r[j].doc.purchasedAt
  {
    var mine := Filter(items, (i: Row<UserItem>) => i.doc.user == user);
    assert forall i :: i in mine <==> i in items && i.doc.user == user;
    var r := SortBy(mine, PurchasedKey, true);
    SortByMembers(mine, PurchasedKey, true);
    assert forall i, j :: 0 <= i < j < |r| ==> InOrder(PurchasedKey(r[i]), PurchasedKey(r[j]), true);
    r
  }

  /** `getUserItems`: 400 without a `userId` query parameter. */
  function GetUserItems(items: seq<Row<UserItem>>, userId: Option<Id>): (r: (Status, seq<Row<UserItem>>))
    ensures userId.None? ==> r.0 == BadRequest && r.1 == []
    ensures userId.Some? ==> r.0 == Ok && r.1 == ItemsOf(items, userId.value)
  {
    if userId.None? then (BadRequest, []) else (Ok, ItemsOf(items, userId.value))
  }

  /** `findByIdAndDelete`: 404 for an unknown id, otherwise exactly that item goes. */
  method DeleteUserItem(db: Db, id: Id) returns (status: Status)
    modifies db`userItems
    ensures id !in Ids(old(db.userItems)) ==> status == NotFound && db.userItems == old(db.userItems)
    ensures id in Ids(old(db.userItems)) ==>
      status == Ok && db.userItems == RemoveAt(old(db.userItems), IndexOf(old(db.userItems), id).value)
    ensures UniqueIds(old(db.userItems)) ==>
      UniqueIds(db.userItems) && Ids(db.userItems) == Ids(old(db.userItems)) - {id}
    ensures PairsUnique(old(db.userItems)) ==> PairsUnique(db.userItems)
  {
    var found := IndexOf(db.userItems, id);
    if found.None? {
      return NotFound;
    }
    if UniqueIds(db.userItems) {
      RemoveAtIds(db.userItems, found.value);
    }
    ghost var before := db.userItems;
    db.userItems := RemoveAt(db.userItems, found.value);
    assert forall i :: 0 <= i < |db.userItems| ==>
      db.userItems[i] == before[if i < found.value then i else i + 1];
    status := Ok;
  }
}
