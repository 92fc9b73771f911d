/** One tick of the season job: find (or create) the running season, find the
    default tier, stream the users in batches of 200, give each batched user
    lacking one a stat for the season, and reset every batched user's tier. */
module SeasonUpdater {
  import opened Base
  import opened Models
  import opened UserStatModel

  const BatchSize: nat := 200

  predicate Running(s: Season, now: int) {
    InWindow(s, now) && s.status == Active
  }

  /** `Season.findOne({ startDate: { $lte: now }, endDate: { $gte: now }, status: "active" })`. */
  function RunningSeason(seasons: seq<Row<Season>>, now: int): (k: Option<nat>)
    ensures k.Some? ==> k.value < |seasons| && Running(seasons[k.value].doc, now)
    ensures k.None? ==> forall j :: 0 <= j < |seasons| ==> !Running(seasons[j].doc, now)
  {
    FirstWhere(seasons, (s: Season) => Running(s, now))
  }

  /** The season created when none is running: titled after the current time,
      from now to three months later, with no rewards. */
  function DefaultSeason(now: int, threeMonthsLater: int): (s: Season)
    ensures s.title == "Season " + IntToString(now)
    ensures s.startDate == now && s.endDate == threeMonthsLater && s.rewards == []
  {
    Season("Season " + IntToString(now), now, threeMonthsLater, [], false, Unset)
  }

  predicate IsDefaultTier(t: Tier) {
    t.category == "Rookie" && t.level == 1 && t.overallOrder == Some(1)
  }

  /** `Tier.findOne({ category: "Rookie", level: 1, overall_order: 1 })`. */
  function DefaultTier(tiers: seq<Row<Tier>>): (k: Option<nat>)
    ensures k.Some? ==> k.value < |tiers| && IsDefaultTier(tiers[k.value].doc)
    ensures k.None? ==> forall j :: 0 <= j < |tiers| ==> !IsDefaultTier(tiers[j].doc)
  {
    FirstWhere(tiers, IsDefaultTier)
  }

  predicate Distinct(s: seq<Id>) {
    forall i, j :: 0 <= i < j < |s| ==> s[i] != s[j]
  }

  /** `User.find({}).select("_id")`: the ids in table order. */
  function UserIds(users: seq<Row<User>>): (ids: seq<Id>)
    ensures |ids| == |users|
    ensures forall i :: 0 <= i < |users| ==> ids[i] == users[i].id
    ensures UniqueIds(users) ==> Distinct(ids)
  {
    seq(|users|, i requires 0 <= i < |users| => users[i].id)
  }

  /** The batch's users paired with the default tier, for the shared insertion. */
  function Tag(ids: seq<Id>, tier: Id): (ps: seq<Pending>)
    ensures |ps| == |ids|
    ensures forall i :: 0 <= i < |ids| ==> ps[i] == Pending(ids[i], Some(tier))
  {
    seq(|ids|, i requires 0 <= i < |ids| => Pending(ids[i], Some(tier)))
  }

  lemma TagAppend(a: seq<Id>, b: seq<Id>, tier: Id)
    ensures Tag(a + b, tier) == Tag(a, tier) + Tag(b, tier)
  {
  }

  /** `newUserStats`: a stat per batch user without one for the season,
      judged against the table as it was before the batch. */
  function Fresh(stats: seq<UserStat>, batch: seq<Id>, season: Id, tier: Id): seq<UserStat>
    decreases |batch|
  {
    if |batch| == 0 then []
    else
      (if HasStat(stats, batch[0], season) then [] else [StatFor(Pending(batch[0], Some(tier)), season)])
        + Fresh(stats, batch[1..], season, tier)
  }

  /** `updateMany({ _id: { $in: batch } }, { currentTier: tier })`. */
  function ResetTiers(users: seq<Row<User>>, batch: seq<Id>, tier: Id): (r: seq<Row<User>>)
    ensures |r| == |users|
    ensures forall i :: 0 <= i < |users| && users[i].id in batch ==>
      r[i] == Row(users[i].id, users[i].doc.(currentTier := Some(tier)))
    ensures forall i :: 0 <= i < |users| && users[i].id !in batch ==> r[i] == users[i]
  {
    seq(|users|, i requires 0 <= i < |users| =>
      if users[i].id in batch then Row(users[i].id, users[i].doc.(currentTier := Some(tier))) else users[i])
  }

  lemma ResetTiersAppend(users: seq<Row<User>>, a: seq<Id>, b: seq<Id>, tier: Id)
    ensures ResetTiers(ResetTiers(users, a, tier), b, tier) == ResetTiers(users, a + b, tier)
  {
  }

  lemma {:induction false} FreshIgnoresOthers(stats: seq<UserStat>, s: UserStat, batch: seq<Id>, season: Id, tier: Id)
    requires s.user !in batch
    ensures Fresh(stats + [s], batch, season, tier) == Fresh(stats, batch, season, tier)
    decreases |batch|
  {
    if |batch| > 0 {
      HasStatAppend(stats, s, batch[0], season);
      FreshIgnoresOthers(stats, s, batch[1..], season, tier);
    }
  }

  lemma DistinctTail(batch: seq<Id>)
    requires Distinct(batch) && |batch| > 0
    ensures Distinct(batch[1..]) && batch[0] !in batch[1..]
  {
    var rest := batch[1..];
    forall i, j | 0 <= i < j < |rest| ensures rest[i] != rest[j] {
      assert rest[i] == batch[i + 1] && rest[j] == batch[j + 1];
    }
    forall j | 0 <= j < |rest| ensures rest[j] != batch[0] {
      assert rest[j] == batch[j + 1];
    }
  }

  lemma TagTail(batch: seq<Id>, tier: Id)
    requires |batch| > 0
    ensures Tag(batch, tier)[0] == Pending(batch[0], Some(tier))
    ensures Tag(batch, tier)[1..] == Tag(batch[1..], tier)
  {
  }

  /** The first `i` users of the batch decided, the rest still to come. */
  lemma FreshStep(stats: seq<UserStat>, batch: seq<Id>, i: nat, season: Id, tier: Id)
    requires i < |batch|
    ensures Fresh(stats, batch[i..], season, tier) ==
      (if HasStat(stats, batch[i], season) then [] else [StatFor(Pending(batch[i], Some(tier)), season)])
        + Fresh(stats, batch[i + 1..], season, tier)
  {
    assert batch[i..][0] == batch[i] && batch[i..][1..] == batch[i + 1..];
  }

  lemma BackfillHead(stats: seq<UserStat>, ps: seq<Pending>, season: Id)
    requires |ps| > 0
    ensures Backfill(stats, ps, season) ==
      Backfill(if HasStat(stats, ps[0].user, season) then stats else stats + [StatFor(ps[0], season)], ps[1..], season)
  {
  }

  /** For a batch of distinct users, inserting `newUserStats` in one go is the
      user-by-user insertion of the seed: the batch step and the seed agree. */
  lemma {:induction false} FreshIsBackfill(stats: seq<UserStat>, batch: seq<Id>, season: Id, tier: Id)
    requires Distinct(batch)
    ensures stats + Fresh(stats, batch, season, tier) == Backfill(stats, Tag(batch, tier), season)
    decreases |batch|, 0
  {
    if |batch| == 0 {
      assert stats + [] == stats;
    } else {
      var rest := batch[1..];
      DistinctTail(batch);
      TagTail(batch, tier);
      BackfillHead(stats, Tag(batch, tier), season);
      FreshStep(stats, batch, 0, season, tier);
      assert batch[0..] == batch;
      if HasStat(stats, batch[0], season) {
        FreshIsBackfill(stats, rest, season, tier);
        assert [] + Fresh(stats, rest, season, tier) == Fresh(stats, rest, season, tier);
      } else {
        var s := StatFor(Pending(batch[0], Some(tier)), season);
        assert s.user == batch[0];
        FreshAdded(stats, s, rest, season, tier);
      }
    }
  }

  /** The step of `FreshIsBackfill` for a first user that lacks a stat. */
  lemma {:induction false} FreshAdded(stats: seq<UserStat>, s: UserStat, rest: seq<Id>, season: Id, tier: Id)
    requires Distinct(rest) && s.user !in rest
    ensures stats + ([s] + Fresh(stats, rest, season, tier)) == Backfill(stats + [s], Tag(rest, tier), season)
    decreases |rest|, 1
  {
    var tail := Fresh(stats, rest, season, tier);
    FreshIgnoresOthers(stats, s, rest, season, tier);
    FreshIsBackfill(stats + [s], rest, season, tier);
    assert stats + ([s] + tail) == (stats + [s]) + tail;
  }

  /** `newUserStats` holds exactly the batch users without a stat for the season,
      each with the default tier as its highest. */
  lemma {:induction false} FreshExactlyMissing(stats: seq<UserStat>, batch: seq<Id>, season: Id, tier: Id)
    ensures forall s :: s in Fresh(stats, batch, season, tier) ==>
      exists j :: 0 <= j < |batch| && !HasStat(stats, batch[j], season) &&
                  s == NewUserStat(batch[j], season).(highestTier := Some(tier))
    ensures forall j :: 0 <= j < |batch| && !HasStat(stats, batch[j], season) ==>
      NewUserStat(batch[j], season).(highestTier := Some(tier)) in Fresh(stats, batch, season, tier)
    decreases |batch|
  {
    if |batch| > 0 {
      var rest := batch[1..];
      FreshExactlyMissing(stats, rest, season, tier);
      var f := Fresh(stats, batch, season, tier);
      var head := if HasStat(stats, batch[0], season) then [] else [StatFor(Pending(batch[0], Some(tier)), season)];
      assert f == head + Fresh(stats, rest, season, tier);
      forall s | s in f
        ensures exists j :: 0 <= j < |batch| && !HasStat(stats, batch[j], season) &&
                            s == NewUserStat(batch[j], season).(highestTier := Some(tier))
      {
        if s in head {
          assert s == NewUserStat(batch[0], season).(highestTier := Some(tier));
        } else {
          var j :| 0 <= j < |rest| && !HasStat(stats, rest[j], season) &&
                   s == NewUserStat(rest[j], season).(highestTier := Some(tier));
          assert rest[j] == batch[j + 1];
        }
      }
      forall j | 0 <= j < |batch| && !HasStat(stats, batch[j], season)
        ensures NewUserStat(batch[j], season).(highestTier := Some(tier)) in f
      {
        if j > 0 { assert batch[j] == rest[j - 1]; }
      }
    }
  }

  lemma {:induction false} FreshEmptyWhenCovered(stats: seq<UserStat>, batch: seq<Id>, season: Id, tier: Id)
    requires forall j :: 0 <= j < |batch| ==> HasStat(stats, batch[j], season)
    ensures Fresh(stats, batch, season, tier) == []
    decreases |batch|
  {
    if |batch| > 0 {
      assert HasStat(stats, batch[0], season);
      FreshEmptyWhenCovered(stats, batch[1..], season, tier);
    }
  }

  /** Processing the same batch a second time inserts nothing. */
  lemma SecondBatchRunInsertsNothing(stats: seq<UserStat>, batch: seq<Id>, season: Id, tier: Id)
    requires Distinct(batch)
    ensures Fresh(stats + Fresh(stats, batch, season, tier), batch, season, tier) == []
  {
    FreshIsBackfill(stats, batch, season, tier);
    BackfillCovers(stats, Tag(batch, tier), season);
    forall j | 0 <= j < |batch|
      ensures HasStat(stats + Fresh(stats, batch, season, tier), batch[j], season)
    {
      assert Tag(batch, tier)[j].user == batch[j];
    }
    FreshEmptyWhenCovered(stats + Fresh(stats, batch, season, tier), batch, season, tier);
  }

  /** `processUserBatch`: returns how many stats it inserted. */
  method ProcessUserBatch(db: Db, batch: seq<Id>, season: Id, tier: Id) returns (created: nat)
    modifies db`stats, db`users
    ensures db.stats == old(db.stats) + Fresh(old(db.stats), batch, season, tier)
    ensures created == |Fresh(old(db.stats), batch, season, tier)|
    ensures db.users == ResetTiers(old(db.users), batch, tier)
  {
    var stats := db.stats;
    var existing := set u | u in batch && HasStat(stats, u, season);
    ghost var target := Fresh(stats, batch, season, tier);
    var newUserStats: seq<UserStat> := [];
    for i := 0 to |batch|
      invariant newUserStats + Fresh(stats, batch[i..], season, tier) == target
      invariant db.stats == stats && db.users == old(db.users)
    {
      var u := batch[i];
      FreshStep(stats, batch, i, season, tier);
      ghost var rest := Fresh(stats, batch[i + 1..], season, tier);
      assert u in existing <==> HasStat(stats, u, season);
      if u !in existing {
        var s := StatFor(Pending(u, Some(tier)), season);
        assert newUserStats + ([s] + rest) == (newUserStats + [s]) + rest;
        newUserStats := newUserStats + [s];
      } else {
        assert [] + rest == rest;
      }
    }
    assert newUserStats == target by {
      assert batch[|batch|..] == [];
      assert newUserStats + [] == newUserStats;
    }
    if |newUserStats| > 0 {
      db.stats := stats + newUserStats;   // insertMany
    } else {
      assert stats + newUserStats == stats;
    }
    created := |newUserStats|;
    db.users := ResetTiers(db.users, batch, tier);
  }

  datatype TickError = DuplicateSeasonTitle | NoDefaultTier

  /** A processed batch: its number and the users in it. */
  datatype Batch = Batch(number: nat, users: seq<Id>)

  datatype TickResult = Completed(season: Id, batches: seq<Batch>) | Failed(error: TickError)

  /** The users of the batches, in order. */
  function Flatten(batches: seq<Batch>): seq<Id> {
    if |batches| == 0 then [] else Flatten(batches[..|batches| - 1]) + batches[|batches| - 1].users
  }

  /** Batches numbered 1, 2, ...; all but the last hold exactly 200 users, the last
      at least one. */
  ghost predicate WellBatched(batches: seq<Batch>) {
    (forall j :: 0 <= j < |batches| ==> batches[j].number == j + 1 && 0 < |batches[j].users| <= BatchSize) &&
    (forall j :: 0 <= j < |batches| - 1 ==> |batches[j].users| == BatchSize)
  }

  /** Batches numbered 1, 2, ..., each holding exactly 200 users. */
  ghost predicate FullBatches(batches: seq<Batch>) {
    forall j :: 0 <= j < |batches| ==> batches[j].number == j + 1 && |batches[j].users| == BatchSize
  }

  lemma FullBatchesExtend(batches: seq<Batch>, batch: seq<Id>)
    requires FullBatches(batches) && |batch| == BatchSize
    ensures FullBatches(batches + [Batch(|batches| + 1, batch)])
  {
  }

  lemma FullBatchesWell(batches: seq<Batch>)
    requires FullBatches(batches)
    ensures WellBatched(batches)
  {
  }

  lemma FullBatchesThenLast(batches: seq<Batch>, batch: seq<Id>)
    requires FullBatches(batches) && 0 < |batch| < BatchSize
    ensures WellBatched(batches + [Batch(|batches| + 1, batch)])
  {
  }

  lemma DistinctSplit(a: seq<Id>, b: seq<Id>)
    requires Distinct(a + b)
    ensures Distinct(b)
  {
    forall i, j | 0 <= i < j < |b| ensures b[i] != b[j] {
      assert b[i] == (a + b)[|a| + i] && b[j] == (a + b)[|a| + j];
    }
  }

  /** One run of the job body, after `Season.updateSeasonStatuses`: `now` is the
      current time, `threeMonthsLater` the end date of a created season and
      `newSeasonId` the id such a season receives. */
  method SeasonCronTick(db: Db, now: int, threeMonthsLater: int, newSeasonId: Id) returns (result: TickResult)
    requires UniqueIds(db.users)
    requires newSeasonId !in Ids(db.seasons)
    modifies db`seasons, db`stats, db`users
    // the season: the running one, else one created
    ensures RunningSeason(old(db.seasons), now).Some? ==> db.seasons == old(db.seasons)
    ensures RunningSeason(old(db.seasons), now).None? ==>
      if SeasonTitled(old(db.seasons), DefaultSeason(now, threeMonthsLater).title).Some? then
        db.seasons == old(db.seasons) && result == Failed(DuplicateSeasonTitle)
      else
        db.seasons == old(db.seasons) + [Row(newSeasonId, DefaultSeason(now, threeMonthsLater))]
    // a failure leaves users and stats alone
    ensures result.Failed? ==> db.users == old(db.users) && db.stats == old(db.stats)
    ensures result.Failed? <==>
      (RunningSeason(old(db.seasons), now).None? &&
       SeasonTitled(old(db.seasons), DefaultSeason(now, threeMonthsLater).title).Some?) ||
      DefaultTier(db.tiers).None?
    ensures result == Failed(NoDefaultTier) ==> DefaultTier(db.tiers).None?
    // a completed run
    ensures result.Completed? ==>
      var tier := db.tiers[DefaultTier(db.tiers).value].id;
      var ids := UserIds(old(db.users));
      (result.season == if RunningSeason(old(db.seasons), now).Some?
                        then old(db.seasons)[RunningSeason(old(db.seasons), now).value].id
                        else newSeasonId) &&
      Flatten(result.batches) == ids &&
      WellBatched(result.batches) &&
      db.stats == Backfill(old(db.stats), Tag(ids, tier), result.season) &&
      db.users == ResetTiers(old(db.users), ids, tier)
    ensures StatsUnique(old(db.stats)) ==> StatsUnique(db.stats)
  {
    var running := RunningSeason(db.seasons, now);
    var season: Id;
    if running.Some? {
      season := db.seasons[running.value].id;
    } else {
      var created := DefaultSeason(now, threeMonthsLater);
      if SeasonTitled(db.seasons, created.title).Some? {
        return Failed(DuplicateSeasonTitle);   // the unique title index refuses it
      }
      db.seasons := db.seasons + [Row(newSeasonId, created)];
      season := newSeasonId;
    }

    var defaultTier := DefaultTier(db.tiers);
    if defaultTier.None? {
      return Failed(NoDefaultTier);
    }
    var tier := db.tiers[defaultTier.value].id;

    var batches := ProcessAllUsers(db, season, tier);
    result := Completed(season, batches);
  }

  /** The streaming state after the first `i` users: the logged batches hold
      `done`, the open batch holds the rest of the prefix, and the tables are as
      processing `done` leaves them. */
  ghost predicate Streamed(stats: seq<UserStat>, users: seq<Row<User>>,
                           stats0: seq<UserStat>, users0: seq<Row<User>>, ids: seq<Id>, i: nat,
                           batches: seq<Batch>, done: seq<Id>, batch: seq<Id>, season: Id, tier: Id) {
    i <= |ids| && done == Flatten(batches) && done + batch == ids[..i] &&
    |batch| < BatchSize && FullBatches(batches) &&
    stats == Backfill(stats0, Tag(done, tier), season) &&
    users == ResetTiers(users0, done, tier)
  }

  /** The users streamed into batches of 200, each processed as it fills, then
      the remainder. */
  method ProcessAllUsers(db: Db, season: Id, tier: Id) returns (batches: seq<Batch>)
    requires UniqueIds(db.users)
    modifies db`stats, db`users
    ensures Flatten(batches) == UserIds(old(db.users))
    ensures WellBatched(batches)
    ensures db.stats == Backfill(old(db.stats), Tag(UserIds(old(db.users)), tier), season)
    ensures db.users == ResetTiers(old(db.users), UserIds(old(db.users)), tier)
    ensures StatsUnique(old(db.stats)) ==> StatsUnique(db.stats)
  {
    ghost var stats0, users0 := db.stats, db.users;
    var ids := UserIds(db.users);
    var batch: seq<Id> := [];
    var batchNumber: nat := 1;
    batches := [];
    ghost var done: seq<Id> := [];
    for i := 0 to |ids|
      invariant Streamed(db.stats, db.users, stats0, users0, ids, i, batches, done, batch, season, tier)
      invariant batchNumber == |batches| + 1
    {
      batches, done, batch, batchNumber :=
        StreamOne(db, stats0, users0, ids, i, batches, done, batch, batchNumber, season, tier);
    }
    assert done + batch == ids by {
      assert ids[..|ids|] == ids;
    }
    if |batch| > 0 {
      FullBatchesThenLast(batches, batch);
      batches := RunBatch(db, stats0, users0, ids, batches, done, batch, season, tier);
      done := done + batch;
    } else {
      FullBatchesWell(batches);
      assert done == done + batch;
    }
    if StatsUnique(stats0) {
      BackfillUnique(stats0, Tag(ids, tier), season);
    }
  }

  /** One streamed user: pushed onto the open batch, which is processed and
      emptied once it holds 200. */
  method StreamOne(db: Db, ghost stats0: seq<UserStat>, ghost users0: seq<Row<User>>, ids: seq<Id>, i: nat,
                   batches: seq<Batch>, ghost done: seq<Id>, batch: seq<Id>, batchNumber: nat, season: Id, tier: Id)
    returns (batches': seq<Batch>, ghost done': seq<Id>, batch': seq<Id>, batchNumber': nat)
    requires Distinct(ids) && i < |ids|
    requires Streamed(db.stats, db.users, stats0, users0, ids, i, batches, done, batch, season, tier)
    requires batchNumber == |batches| + 1
    modifies db`stats, db`users
    ensures Streamed(db.stats, db.users, stats0, users0, ids, i + 1, batches', done', batch', season, tier)
    ensures batchNumber' == |batches'| + 1
  {
    batch' := batch + [ids[i]];
    assert done + batch' == ids[..i + 1] by {
      assert ids[..i + 1] == ids[..i] + [ids[i]];
    }
    if |batch'| == BatchSize {
      FullBatchesExtend(batches, batch');
      batches' := RunBatch(db, stats0, users0, ids, batches, done, batch', season, tier);
      done' := done + batch';
      batch' := [];
      batchNumber' := batchNumber + 1;
      assert done' + batch' == done';
    } else {
      batches', done', batchNumber' := batches, done, batchNumber;
    }
  }

  /** One `processUserBatch` call inside the loop, and its entry in the batch log. */
  method RunBatch(db: Db, ghost stats0: seq<UserStat>, ghost users0: seq<Row<User>>, ghost ids: seq<Id>,
                  logged: seq<Batch>, ghost prior: seq<Id>, batch: seq<Id>, season: Id, tier: Id)
    returns (batches: seq<Batch>)
    requires prior == Flatten(logged)
    requires Distinct(ids) && |prior + batch| <= |ids| && prior + batch == ids[..|prior + batch|]
    requires db.stats == Backfill(stats0, Tag(prior, tier), season)
    requires db.users == ResetTiers(users0, prior, tier)
    modifies db`stats, db`users
    ensures batches == logged + [Batch(|logged| + 1, batch)]
    ensures Flatten(batches) == prior + batch
    ensures db.stats == Backfill(stats0, Tag(prior + batch, tier), season)
    ensures db.users == ResetTiers(users0, prior + batch, tier)
  {
    assert Distinct(prior + batch) by {
      var n := |prior + batch|;
      forall i, j | 0 <= i < j < n ensures (prior + batch)[i] != (prior + batch)[j] {
        assert (prior + batch)[i] == ids[i] && (prior + batch)[j] == ids[j];
      }
    }
    DistinctSplit(prior, batch);
    var _ := ProcessUserBatch(db, batch, season, tier);
    FreshIsBackfill(Backfill(stats0, Tag(prior, tier), season), batch, season, tier);
    TagAppend(prior, batch, tier);
    BackfillAppend(stats0, Tag(prior, tier), Tag(batch, tier), season);
    ResetTiersAppend(users0, prior, batch, tier);
    batches := logged + [Batch(|logged| + 1, batch)];
    assert batches[..|batches| - 1] == logged;
  }

  /** A second tick in the same season inserts no stat and leaves the tiers as
      the first tick set them. */
  lemma SecondTickChangesNothing(stats: seq<UserStat>, users: seq<Row<User>>, season: Id, tier: Id)
    ensures var ids := UserIds(users);
      Backfill(Backfill(stats, Tag(ids, tier), season), Tag(ids, tier), season) == Backfill(stats, Tag(ids, tier), season) &&
      ResetTiers(ResetTiers(users, ids, tier), UserIds(ResetTiers(users, ids, tier)), tier) == ResetTiers(users, ids, tier)
  {
    BackfillIdempotent(stats, Tag(UserIds(users), tier), season);
  }
}
