/** The seed `createStatsForNewSeason`: give every user a stat for the season
    running now, carrying the user's current tier. */
module DefaultStat {
  import opened Base
  import opened Models
  import opened UserStatModel

  /** The users in table order, each with the tier its new stat would carry. */
  function Carried(users: seq<Row<User>>): (ps: seq<Pending>)
    ensures |ps| == |users|
    ensures forall i :: 0 <= i < |users| ==> ps[i] == Pending(users[i].id, users[i].doc.currentTier)
  {
    seq(|users|, i requires 0 <= i < |users| => Pending(users[i].id, users[i].doc.currentTier))
  }

  /** One run of the seed at time `now`. The pre-save hook on each created stat
      changes nothing, because the stat already carries its user's `currentTier`. */
  method CreateStatsForNewSeason(db: Db, now: int)
    requires UniqueIds(db.users)
    modifies db`stats
    ensures SeasonAt(db.seasons, now).None? ==> db.stats == old(db.stats)
    ensures SeasonAt(db.seasons, now).Some? ==>
      db.stats == Backfill(old(db.stats), Carried(db.users), db.seasons[SeasonAt(db.seasons, now).value].id)
    ensures StatsUnique(old(db.stats)) ==> StatsUnique(db.stats)
  {
    var active := SeasonAt(db.seasons, now);
    if active.None? {
      return;
    }
    var season := db.seasons[active.value].id;
    var users := db.users;   // User.find()
    for i := 0 to |users|
      invariant db.stats == Backfill(old(db.stats), Carried(users[..i]), season)
    {
      var user := users[i];
      var p := Pending(user.id, user.doc.currentTier);
      var existing := StatIndex(db.stats, user.id, season);
      if existing.None? {
        FindDocUnique(users, i);
        var stat := PreSave(NewUserStat(user.id, season).(highestTier := user.doc.currentTier), users);
        assert stat == StatFor(p, season);
        var inserted := Insert(db.stats, stat);   // UserStat.create, through the unique index
        db.stats := inserted.value;
      }
      assert Carried(users[..i + 1]) == Carried(users[..i]) + [p];
      BackfillAppend(old(db.stats), Carried(users[..i]), [p], season);
    }
    assert users[..|users|] == users;
    if StatsUnique(old(db.stats)) {
      BackfillUnique(old(db.stats), Carried(users), season);
    }
  }

  /** What one run adds: only stats for `season`, each for a user that had none,
      carrying that user's `currentTier`; the existing stats stay as they were. */
  lemma SeedAddsOnlyMissing(stats: seq<UserStat>, users: seq<Row<User>>, season: Id)
    ensures var r := Backfill(stats, Carried(users), season);
      |r| >= |stats| && r[..|stats|] == stats &&
      forall k :: |stats| <= k < |r| ==>
        exists i :: 0 <= i < |users| && !HasStat(stats, users[i].id, season) &&
          r[k] == NewUserStat(users[i].id, season).(highestTier := users[i].doc.currentTier)
  {
    var r := Backfill(stats, Carried(users), season);
    BackfillExtends(stats, Carried(users), season);
    forall k | |stats| <= k < |r|
      ensures exists i :: 0 <= i < |users| && !HasStat(stats, users[i].id, season) &&
                          r[k] == NewUserStat(users[i].id, season).(highestTier := users[i].doc.currentTier)
    {
      var j :| 0 <= j < |Carried(users)| && r[k] == StatFor(Carried(users)[j], season) &&
               !HasStat(stats, Carried(users)[j].user, season);
      assert Carried(users)[j] == Pending(users[j].id, users[j].doc.currentTier);
    }
  }

  /** After one run every user has a stat for the season, so a second run creates nothing. */
  lemma SeedSecondRunCreatesNothing(stats: seq<UserStat>, users: seq<Row<User>>, season: Id)
    ensures forall i :: 0 <= i < |users| ==> HasStat(Backfill(stats, Carried(users), season), users[i].id, season)
    ensures Backfill(Backfill(stats, Carried(users), season), Carried(users), season)
              == Backfill(stats, Carried(users), season)
  {
    BackfillCovers(stats, Carried(users), season);
    BackfillIdempotent(stats, Carried(users), season);
    forall i | 0 <= i < |users|
      ensures HasStat(Backfill(stats, Carried(users), season), users[i].id, season)
    {
      assert Carried(users)[i].user == users[i].id;
    }
  }
}
