/** The tier table's handlers: `createTier`, `getTiers`, `editTier`, `deleteTier`.
    `title` is a unique index of the collection. */
module TierController {
  import opened Base
  import opened Models
  import opened Ordering

  /** The tier title: the category, a space, and the level in decimal. */
  function TierTitle(category: string, level: int): string {
    category + " " + IntToString(level)
  }

  /** Two strings that each end in a space-free word split the same way. */
  lemma SplitAtLastSpace(c1: string, s1: string, c2: string, s2: string)
    requires c1 + " " + s1 == c2 + " " + s2
    requires ' ' !in s1 && ' ' !in s2
    ensures c1 == c2 && s1 == s2
  {
    var t := c1 + " " + s1;
    assert t == c2 + " " + s2;
    assert t[|c1|] == ' ' && t[|c2|] == ' ';
    assert forall q :: |c1| < q < |t| ==> t[q] == s1[q - |c1| - 1];
    assert forall q :: |c2| < q < |t| ==> t[q] == s2[q - |c2| - 1];
    assert |c1| == |c2|;
    assert c1 == t[..|c1|] == c2;
    assert s1 == t[|c1| + 1..] == s2;
  }

  /** Different (category, level) pairs never share a title, so the title check
      refuses exactly a second tier with the same category and level. */
  lemma TierTitleInjective(c1: string, l1: int, c2: string, l2: int)
    requires TierTitle(c1, l1) == TierTitle(c2, l2)
    ensures c1 == c2 && l1 == l2
  {
    SplitAtLastSpace(c1, IntToString(l1), c2, IntToString(l2));
    IntToStringInjective(l1, l2);
  }

  /** The unique `title` index. */
  ghost predicate TitlesUnique(tiers: seq<Row<Tier>>) {
    forall i, j :: 0 <= i < j < |tiers| ==> tiers[i].doc.title != tiers[j].doc.title
  }

  /** `Tier.findOne({ title })`: the first tier with that title. */
  function TierTitled(tiers: seq<Row<Tier>>, title: string): (k: Option<nat>)
    ensures k.Some? ==> k.value < |tiers| && tiers[k.value].doc.title == title
    ensures k.None? <==> forall j :: 0 <= j < |tiers| ==> tiers[j].doc.title != title
  {
    FirstWhere(tiers, (t: Tier) => t.title == title)
  }

  datatype CreateTierRequest = CreateTierRequest(
    category: Option<string>,
    level: Option<int>,
    minExp: Option<int>,
    maxExp: Option<int>,
    multiplier: Option<real>,
    overallOrder: Option<int>)

  const DefaultMultiplier: real := 0.2

  /** `!category || !level`: a missing or empty category, or a missing or zero level. */
  predicate CreateRefused(req: CreateTierRequest) {
    req.category.None? || req.category.value == "" || req.level.None? || req.level.value == 0
  }

  /** The document `createTier` saves; it carries no score bounds. */
  function NewTier(req: CreateTierRequest): (t: Tier)
    requires !CreateRefused(req)
    ensures t.title == TierTitle(req.category.value, req.level.value)
    ensures t.category == req.category.value && t.level == req.level.value
    ensures t.minScore.None? && t.maxScore.None?
    ensures t.minExp == req.minExp && t.maxExp == req.maxExp && t.overallOrder == req.overallOrder
    ensures t.multiplier == (if req.multiplier.Some? then req.multiplier.value else DefaultMultiplier)
  {
    Tier(TierTitle(req.category.value, req.level.value), req.category.value, req.level.value,
         None, None, req.minExp, req.maxExp, req.multiplier.GetOr(DefaultMultiplier), req.overallOrder)
  }

  method CreateTier(db: Db, req: CreateTierRequest, newId: Id) returns (status: Status)
    requires newId !in Ids(db.tiers)
    modifies db`tiers
    ensures CreateRefused(req) ==> status == BadRequest && db.tiers == old(db.tiers)
    ensures !CreateRefused(req) && TierTitled(old(db.tiers), TierTitle(req.category.value, req.level.value)).Some? ==>
      status == Conflict && db.tiers == old(db.tiers)
    ensures status == Created <==>
      !CreateRefused(req) && TierTitled(old(db.tiers), TierTitle(req.category.value, req.level.value)).None?
    ensures status == Created ==> db.tiers == old(db.tiers) + [Row(newId, NewTier(req))]
    ensures TitlesUnique(old(db.tiers)) ==> TitlesUnique(db.tiers)
    ensures UniqueIds(old(db.tiers)) ==> UniqueIds(db.tiers)
  {
    if CreateRefused(req) {
      return BadRequest;
    }
    var title := TierTitle(req.category.value, req.level.value);
    var existing := TierTitled(db.tiers, title);
    if existing.Some? {
      return Conflict;
    }
    db.tiers := db.tiers + [Row(newId, NewTier(req))];
    status := Created;
  }

  function OrderKey(r: Row<Tier>): Key {
    match r.doc.overallOrder
    case None => Missing
    case Some(n) => Num(n)
  }

  /** `Tier.find().sort({ overall_order: 1 })`: every tier, ascending by order. */
  function GetTiers(tiers: seq<Row<Tier>>): (r: seq<Row<Tier>>)
    ensures SortedBy(r, OrderKey, false)
    ensures multiset(r) == multiset(tiers)
  {
    SortBy(tiers, OrderKey, false)
  }

  /** The body of `editTier`: every field it carries overwrites the stored one. */
  datatype TierUpdate = TierUpdate(
    title: Option<string>,
    category: Option<string>,
    level: Option<int>,
    minScore: Option<int>,
    maxScore: Option<int>,
    minExp: Option<int>,
    maxExp: Option<int>,
    multiplier: Option<real>,
    overallOrder: Option<int>)

  /** The title written: recomputed when the update has a non-empty category and
      a non-zero level, otherwise whatever title the body carries. */
  function UpdatedTitle(upd: TierUpdate): (t: Option<string>)
    ensures upd.category.Some? && upd.category.value != "" && upd.level.Some? && upd.level.value != 0 ==>
      t == Some(TierTitle(upd.category.value, upd.level.value))
    ensures !(upd.category.Some? && upd.category.value != "" && upd.level.Some? && upd.level.value != 0) ==>
      t == upd.title
  {
    if upd.category.Some? && upd.category.value != "" && upd.level.Some? && upd.level.value != 0
    then Some(TierTitle(upd.category.value, upd.level.value))
    else upd.title
  }

  function Over<T>(stored: T, given: Option<T>): T {
    if given.Some? then given.value else stored
  }

  /** The stored tier after the update. */
  function Edited(t: Tier, upd: TierUpdate): (r: Tier)
    ensures r.title == Over(t.title, UpdatedTitle(upd))
    ensures r.category == Over(t.category, upd.category) && r.level == Over(t.level, upd.level)
    ensures r.minScore == Over(t.minScore, if upd.minScore.Some? then Some(upd.minScore) else None)
    ensures r.maxScore == Over(t.maxScore, if upd.maxScore.Some? then Some(upd.maxScore) else None)
    ensures r.minExp == Over(t.minExp, if upd.minExp.Some? then Some(upd.minExp) else None)
    ensures r.maxExp == Over(t.maxExp, if upd.maxExp.Some? then Some(upd.maxExp) else None)
    ensures r.multiplier == Over(t.multiplier, upd.multiplier)
    ensures r.overallOrder == Over(t.overallOrder, if upd.overallOrder.Some? then Some(upd.overallOrder) else None)
  {
    Tier(Over(t.title, UpdatedTitle(upd)),
         Over(t.category, upd.category),
         Over(t.level, upd.level),
         if upd.minScore.Some? then upd.minScore else t.minScore,
         if upd.maxScore.Some? then upd.maxScore else t.maxScore,
         if upd.minExp.Some? then upd.minExp else t.minExp,
         if upd.maxExp.Some? then upd.maxExp else t.maxExp,
         Over(t.multiplier, upd.multiplier),
         if upd.overallOrder.Some? then upd.overallOrder else t.overallOrder)
  }

  /** Applying the same update twice is the same as applying it once. */
  lemma EditedIdempotent(t: Tier, upd: TierUpdate)
    ensures Edited(Edited(t, upd), upd) == Edited(t, upd)
  {
  }

  /** An edit with both category and level keeps the title derived from them. */
  lemma EditedTitleMatches(t: Tier, upd: TierUpdate)
    requires upd.category.Some? && upd.category.value != "" && upd.level.Some? && upd.level.value != 0
    ensures var r := Edited(t, upd); r.title == TierTitle(r.category, r.level)
  {
  }

  /** Some tier other than the one at `k` already has `title`. */
  predicate TitleTakenElsewhere(tiers: seq<Row<Tier>>, k: nat, title: string) {
    exists j :: 0 <= j < |tiers| && j != k && tiers[j].doc.title == title
  }

  /** `findByIdAndUpdate`: 404 for an unknown id; an update whose title another
      tier holds is refused by the unique index and the request fails. */
  method EditTier(db: Db, id: Id, upd: TierUpdate) returns (status: Status)
    modifies db`tiers
    ensures id !in Ids(old(db.tiers)) ==> status == NotFound && db.tiers == old(db.tiers)
    ensures id in Ids(old(db.tiers)) ==>
      var k := IndexOf(old(db.tiers), id).value;
      var r := Edited(old(db.tiers)[k].doc, upd);
      if TitleTakenElsewhere(old(db.tiers), k, r.title) then
        status == ServerError && db.tiers == old(db.tiers)
      else
        status == Ok && db.tiers == old(db.tiers)[k := Row(id, r)]
    ensures TitlesUnique(old(db.tiers)) ==> TitlesUnique(db.tiers)
    ensures Ids(db.tiers) == Ids(old(db.tiers))
  {
    var found := IndexOf(db.tiers, id);
    if found.None? {
      return NotFound;
    }
    var k := found.value;
    var r := Edited(db.tiers[k].doc, upd);
    if TitleTakenElsewhere(db.tiers, k, r.title) {
      return ServerError;
    }
    ghost var before := db.tiers;
    db.tiers := db.tiers[k := Row(id, r)];
    assert Ids(db.tiers) == Ids(before) by {
      assert forall i :: 0 <= i < |before| ==> db.tiers[i].id == before[i].id;
    }
    status := Ok;
  }

  /** `findByIdAndDelete`: 404 for an unknown id, otherwise that tier goes. */
  method DeleteTier(db: Db, id: Id) returns (status: Status)
    modifies db`tiers
    ensures id !in Ids(old(db.tiers)) ==> status == NotFound && db.tiers == old(db.tiers)
    ensures id in Ids(old(db.tiers)) ==>
      status == Ok && db.tiers == RemoveAt(old(db.tiers), IndexOf(old(db.tiers), id).value)
    ensures UniqueIds(old(db.tiers)) ==> UniqueIds(db.tiers) && Ids(db.tiers) == Ids(old(db.tiers)) - {id}
  {
    var found := IndexOf(db.tiers, id);
    if found.None? {
      return NotFound;
    }
    if UniqueIds(db.tiers) {
      RemoveAtIds(db.tiers, found.value);
    }
    db.tiers := RemoveAt(db.tiers, found.value);
    status := Ok;
  }
}
