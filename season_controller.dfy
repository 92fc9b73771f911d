/** The season table's handlers: `createSeason`, `getSeasons`, `getActiveSeason`,
    `updateSeason`, `deleteSeason`. `title` is a unique index of the collection. */
module SeasonController {
  import opened Base
  import opened Models
  import opened Ordering

  /** The unique `title` index. */
  ghost predicate TitlesUnique(seasons: seq<Row<Season>>) {
    forall i, j :: 0 <= i < j < |seasons| ==> seasons[i].doc.title != seasons[j].doc.title
  }

  /** The season `createSeason` saves: the start defaults to the current time
      (the schema's `Date.now`), the rewards to none. */
  function NewSeason(title: string, startDate: Option<int>, endDate: int, rewards: Option<seq<string>>, now: int): (s: Season)
    ensures s.title == title && s.endDate == endDate
    ensures s.startDate == (if startDate.Some? then startDate.value else now)
    ensures s.rewards == (if rewards.Some? then rewards.value else [])
    ensures !s.isActive && s.status == Unset
  {
    Season(title, startDate.GetOr(now), endDate, rewards.GetOr([]), false, Unset)
  }

  method CreateSeason(db: Db, title: string, startDate: Option<int>, endDate: int,
                      rewards: Option<seq<string>>, now: int, newId: Id) returns (status: Status)
    requires newId !in Ids(db.seasons)
    modifies db`seasons
    ensures SeasonTitled(old(db.seasons), title).Some? ==> status == Conflict && db.seasons == old(db.seasons)
    ensures SeasonTitled(old(db.seasons), title).None? ==>
      status == Created && db.seasons == old(db.seasons) + [Row(newId, NewSeason(title, startDate, endDate, rewards, now))]
    ensures TitlesUnique(old(db.seasons)) ==> TitlesUnique(db.seasons)
    ensures UniqueIds(old(db.seasons)) ==> UniqueIds(db.seasons)
  {
    var existing := SeasonTitled(db.seasons, title);
    if existing.Some? {
      return Conflict;
    }
    db.seasons := db.seasons + [Row(newId, NewSeason(title, startDate, endDate, rewards, now))];
    status := Created;
  }

  function StartKey(r: Row<Season>): Key {
    Num(r.doc.startDate)
  }

  /** `Season.find().sort({ startDate: -1 })`: every season, latest start first. */
  function GetSeasons(seasons: seq<Row<Season>>): (r: seq<Row<Season>>)
    ensures multiset(r) == multiset(seasons)
    ensures forall i, j :: 0 <= i < j < |r| ==> r[i].doc.startDate >= r[j].doc.startDate
  {
    var r := SortBy(seasons, StartKey, true);
    assert forall i, j :: 0 <= i < j < |r| ==> InOrder(StartKey(r[i]), StartKey(r[j]), true);
    r
  }

  /** `getActiveSeason`: the first season whose window holds `now`, or 404. */
  function GetActiveSeason(seasons: seq<Row<Season>>, now: int): (r: (Status, Option<Row<Season>>))
    ensures r.0 == Ok || r.0 == NotFound
    ensures r.0 == Ok <==> exists j :: 0 <= j < |seasons| && InWindow(seasons[j].doc, now)
    ensures r.0 == Ok ==>
      r.1.Some? && r.1.value in seasons && r.1.value.doc.startDate <= now <= r.1.value.doc.endDate
    ensures r.0 == NotFound ==> r.1.None?
  {
    match SeasonAt(seasons, now)
    case None => (NotFound, None)
    case Some(k) => (Ok, Some(seasons[k]))
  }

  /** The body of `updateSeason`: every field it carries overwrites the stored one. */
  datatype SeasonUpdate = SeasonUpdate(
    title: Option<string>,
    startDate: Option<int>,
    endDate: Option<int>,
    rewards: Option<seq<string>>,
    isActive: Option<bool>,
    status: Option<SeasonStatus>)

  function Updated(s: Season, upd: SeasonUpdate): (r: Season)
    ensures r.title == (if upd.title.Some? then upd.title.value else s.title)
    ensures r.startDate == (if upd.startDate.Some? then upd.startDate.value else s.startDate)
    ensures r.endDate == (if upd.endDate.Some? then upd.endDate.value else s.endDate)
    ensures r.rewards == (if upd.rewards.Some? then upd.rewards.value else s.rewards)
    ensures r.isActive == (if upd.isActive.Some? then upd.isActive.value else s.isActive)
    ensures r.status == (if upd.status.Some? then upd.status.value else s.status)
  {
    s.(title := upd.title.GetOr(s.title),
       startDate := upd.startDate.GetOr(s.startDate),
       endDate := upd.endDate.GetOr(s.endDate),
       rewards := upd.rewards.GetOr(s.rewards),
       isActive := upd.isActive.GetOr(s.isActive),
       status := upd.status.GetOr(s.status))
  }

  /** Applying the same update twice is the same as applying it once. */
  lemma UpdatedIdempotent(s: Season, upd: SeasonUpdate)
    ensures Updated(Updated(s, upd), upd) == Updated(s, upd)
  {
  }

  /** An empty body changes nothing. */
  lemma UpdatedNothing(s: Season)
    ensures Updated(s, SeasonUpdate(None, None, None, None, None, None)) == s
  {
  }

  predicate TitleTakenElsewhere(seasons: seq<Row<Season>>, k: nat, title: string) {
    exists j :: 0 <= j < |seasons| && j != k && seasons[j].doc.title == title
  }

  /** `findByIdAndUpdate`: 404 for an unknown id; a title another season holds is
      refused by the unique index and the request fails. */
  method UpdateSeason(db: Db, id: Id, upd: SeasonUpdate) returns (status: Status)
    modifies db`seasons
    ensures id !in Ids(old(db.seasons)) ==> status == NotFound && db.seasons == old(db.seasons)
    ensures id in Ids(old(db.seasons)) ==>
      var k := IndexOf(old(db.seasons), id).value;
      var r := Updated(old(db.seasons)[k].doc, upd);
      if TitleTakenElsewhere(old(db.seasons), k, r.title) then
        status == ServerError && db.seasons == old(db.seasons)
      else
        status == Ok && db.seasons == old(db.seasons)[k := Row(id, r)]
    ensures TitlesUnique(old(db.seasons)) ==> TitlesUnique(db.seasons)
    ensures Ids(db.seasons) == Ids(old(db.seasons))
  {
    var found := IndexOf(db.seasons, id);
    if found.None? {
      return NotFound;
    }
    var k := found.value;
    var r := Updated(db.seasons[k].doc, upd);
    if TitleTakenElsewhere(db.seasons, k, r.title) {
      return ServerError;
    }
    ghost var before := db.seasons;
    db.seasons := db.seasons[k := Row(id, r)];
    assert Ids(db.seasons) == Ids(before) by {
      assert forall i :: 0 <= i < |before| ==> db.seasons[i].id == before[i].id;
    }
    status := Ok;
  }

  /** `findByIdAndDelete`: 404 for an unknown id, otherwise exactly that season goes. */
  method DeleteSeason(db: Db, id: Id) returns (status: Status)
    modifies db`seasons
    ensures id !in Ids(old(db.seasons)) ==> status == NotFound && db.seasons == old(db.seasons)
    ensures id in Ids(old(db.seasons)) ==>
      status == Ok && db.seasons == RemoveAt(old(db.seasons), IndexOf(old(db.seasons), id).value)
    ensures UniqueIds(old(db.seasons)) ==>
      UniqueIds(db.seasons) && Ids(db.seasons) == Ids(old(db.seasons)) - {id}
  {
    var found := IndexOf(db.seasons, id);
    if found.None? {
      return NotFound;
    }
    if UniqueIds(db.seasons) {
      RemoveAtIds(db.seasons, found.value);
    }
    db.seasons := RemoveAt(db.seasons, found.value);
    status := Ok;
  }
}
