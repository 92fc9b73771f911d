/** The store: `createStoreItem` validation and dispatch, and the filter and
    ordering of `getAllStoreItems`. */
module StoreController {
  import opened Base
  import opened Models
  import opened Ordering

  /** The keys of `ITEM_MODELS`: only birds can be sold. */
  predicate IsItemModel(itemType: string) {
    itemType == "Bird"
  }

  datatype CreateItemRequest = CreateItemRequest(
    name: Option<string>,
    price: Option<int>,
    itemType: Option<string>,
    itemId: Option<Id>,
    isAvailable: Option<bool>)

  /** `!name || !price || !itemType || !itemId`: a field missing, an empty string,
      or a zero price. */
  predicate MissingFields(req: CreateItemRequest) {
    req.name.None? || req.name.value == "" ||
    req.price.None? || req.price.value == 0 ||
    req.itemType.None? || req.itemType.value == "" ||
    req.itemId.None?
  }

  /** The item saved; availability defaults to true. */
  function NewStoreItem(req: CreateItemRequest, now: int): (i: StoreItem)
    requires !MissingFields(req)
    ensures i.name == req.name.value && i.price == req.price.value
    ensures i.itemType == req.itemType.value && i.itemId == req.itemId.value
    ensures i.isAvailable == (req.isAvailable.None? || req.isAvailable.value)
    ensures i.createdAt == now
  {
    StoreItem(req.name.value, req.price.value, req.itemType.value, req.itemId.value,
              req.isAvailable.GetOr(true), now)
  }

  /** 400 for a missing field, 400 for an item type with no model, 404 for an
      item id the bird table lacks; otherwise one store item is added. */
  method CreateStoreItem(db: Db, req: CreateItemRequest, now: int, newId: Id) returns (status: Status)
    requires newId !in Ids(db.storeItems)
    modifies db`storeItems
    ensures MissingFields(req) ==> status == BadRequest && db.storeItems == old(db.storeItems)
    ensures !MissingFields(req) && !IsItemModel(req.itemType.value) ==>
      status == BadRequest && db.storeItems == old(db.storeItems)
    ensures !MissingFields(req) && IsItemModel(req.itemType.value) && req.itemId.value !in Ids(db.birds) ==>
      status == NotFound && db.storeItems == old(db.storeItems)
    ensures status == Created <==>
      !MissingFields(req) && IsItemModel(req.itemType.value) && req.itemId.value in Ids(db.birds)
    ensures status == Created ==> db.storeItems == old(db.storeItems) + [Row(newId, NewStoreItem(req, now))]
    ensures UniqueIds(old(db.storeItems)) ==> UniqueIds(db.storeItems)
  {
    if MissingFields(req) {
      return BadRequest;
    }
    if !IsItemModel(req.itemType.value) {
      return BadRequest;
    }
    var item := FindDoc(db.birds, req.itemId.value);
    if item.None? {
      return NotFound;
    }
    db.storeItems := db.storeItems + [Row(newId, NewStoreItem(req, now))];
    status := Created;
  }

  /** The query string of `getAllStoreItems`. A price bound is present when its
      parameter is a non-empty number. */
  datatype StoreQuery = StoreQuery(
    itemType: Option<string>,
    isAvailable: Option<string>,
    minPrice: Option<int>,
    maxPrice: Option<int>)

  /** The filter document built from the query, as a predicate on one item. */
  predicate MatchesFilters(i: StoreItem, q: StoreQuery) {
    (q.itemType.Some? && q.itemType.value != "" ==> i.itemType == q.itemType.value) &&
    (q.isAvailable.Some? ==> i.isAvailable == (q.isAvailable.value == "true")) &&
    (q.minPrice.Some? ==> q.minPrice.value <= i.price) &&
    (q.maxPrice.Some? ==> i.price <= q.maxPrice.value)
  }

  /** A query without parameters filters nothing. */
  lemma EmptyQueryMatchesAll(i: StoreItem)
    ensures MatchesFilters(i, StoreQuery(None, None, None, None))
  {
  }

  /** A query string `isAvailable` other than "true" selects the unavailable items. */
  lemma AvailabilityFilter(i: StoreItem, q: StoreQuery)
    requires q.isAvailable.Some? && q.isAvailable.value != "true"
    requires MatchesFilters(i, q)
    ensures !i.isAvailable
  {
  }

  function CreatedKey(r: Row<StoreItem>): Key {
    Num(r.doc.createdAt)
  }

  /** `StoreItem.find(filters).sort({ createdAt: -1 })`: exactly the matching
      items, newest first. */
  function GetAllStoreItems(items: seq<Row<StoreItem>>, q: StoreQuery): (r: seq<Row<StoreItem>>)
    ensures forall i :: i in r <==> i in items && MatchesFilters(i.doc, q)
    ensures forall i :: multiset(r)[i] == if MatchesFilters(i.doc, q) then multiset(items)[i] else 0
    ensures forall i, j :: 0 <= i < j < |r| ==> r[i].doc.createdAt >= r[j].doc.createdAt
  {
    var matching := Filter(items, (i: Row<StoreItem>) => MatchesFilters(i.doc, q));
    assert forall i :: i in matching <==> i in items && MatchesFilters(i.doc, q);
    var r := SortBy(matching, CreatedKey, true);
    SortByMembers(matching, CreatedKey, true);
    assert forall i, j :: 0 <= i < j < |r| ==> InOrder(CreatedKey(r[i]), CreatedKey(r[j]), true);
    r
  }

  /** Narrowing the query by a price bound only drops items. */
  lemma MinPriceNarrows(items: seq<Row<StoreItem>>, q: StoreQuery, bound: int)
    requires q.minPrice.None?
    ensures forall i :: i in GetAllStoreItems(items, q.(minPrice := Some(bound))) ==>
      i in GetAllStoreItems(items, q) && bound <= i.doc.price
  {
    var narrow := GetAllStoreItems(items, q.(minPrice := Some(bound)));
    var wide := GetAllStoreItems(items, q);
    forall i | i in narrow
      ensures i in wide && bound <= i.doc.price
    {
      assert i in items && MatchesFilters(i.doc, q.(minPrice := Some(bound)));
    }
  }
}
