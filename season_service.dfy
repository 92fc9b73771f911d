/** `addSeasonStatToUser`: append one season entry to a user's `seasonStats`,
    refusing a season the user already has. */
module SeasonService {
  import opened Base
  import opened Models

  datatype SeasonStatInput = SeasonStatInput(
    seasonId: string,
    totalScore: Option<int>,
    bestScore: Option<int>,
    tier: Option<string>,
    gamesPlayed: Option<int>,
    startDate: Option<int>,
    endDate: Option<int>)

  /** The two thrown errors, the TypeError of `some` on a user without
      `seasonStats` (none is created with one), and the successful result. */
  datatype AddOutcome = UserNotFound | NoSeasonStats | SeasonAlreadyExists | Added(user: User)

  /** The entry pushed: missing numbers become 0, a missing tier "Bronze". */
  function NewSeasonStat(input: SeasonStatInput): (s: SeasonStat)
    ensures s.seasonId == input.seasonId
    ensures s.totalScore == (if input.totalScore.Some? then input.totalScore.value else 0)
    ensures s.bestScore == (if input.bestScore.Some? then input.bestScore.value else 0)
    ensures s.gamesPlayed == (if input.gamesPlayed.Some? then input.gamesPlayed.value else 0)
    ensures s.tier == (if input.tier.Some? then input.tier.value else "Bronze")
    ensures s.startDate == input.startDate && s.endDate == input.endDate
  {
    SeasonStat(input.seasonId, input.totalScore.GetOr(0), input.bestScore.GetOr(0),
               input.tier.GetOr("Bronze"), input.gamesPlayed.GetOr(0), input.startDate, input.endDate)
  }

  /** `user.seasonStats.some(stat => stat.seasonId === seasonId)`. */
  function HasSeason(stats: seq<SeasonStat>, seasonId: string): (b: bool)
    ensures b <==> exists i :: 0 <= i < |stats| && stats[i].seasonId == seasonId
  {
    if |stats| == 0 then false
    else stats[0].seasonId == seasonId || HasSeason(stats[1..], seasonId)
  }

  ghost predicate DistinctSeasons(stats: seq<SeasonStat>) {
    forall i, j :: 0 <= i < j < |stats| ==> stats[i].seasonId != stats[j].seasonId
  }

  /** The duplicate check keeps season ids distinct. */
  lemma AppendKeepsDistinct(stats: seq<SeasonStat>, input: SeasonStatInput)
    requires DistinctSeasons(stats) && !HasSeason(stats, input.seasonId)
    ensures DistinctSeasons(stats + [NewSeasonStat(input)])
  {
  }

  method AddSeasonStatToUser(db: Db, userId: Id, input: SeasonStatInput) returns (outcome: AddOutcome)
    modifies db`users
    ensures userId !in Ids(old(db.users)) ==> outcome == UserNotFound && db.users == old(db.users)
    ensures userId in Ids(old(db.users)) ==>
      var k := IndexOf(old(db.users), userId).value;
      var user := old(db.users)[k].doc;
      if user.seasonStats.None? then
        outcome == NoSeasonStats && db.users == old(db.users)
      else if HasSeason(user.seasonStats.value, input.seasonId) then
        outcome == SeasonAlreadyExists && db.users == old(db.users)
      else
        var updated := user.(seasonStats := Some(user.seasonStats.value + [NewSeasonStat(input)]));
        outcome == Added(updated) && db.users == old(db.users)[k := Row(userId, updated)]
  {
    var found := IndexOf(db.users, userId);
    if found.None? {
      return UserNotFound;
    }
    var k := found.value;
    var user := db.users[k].doc;
    if user.seasonStats.None? {
      return NoSeasonStats;
    }
    if HasSeason(user.seasonStats.value, input.seasonId) {
      return SeasonAlreadyExists;
    }
    user := user.(seasonStats := Some(user.seasonStats.value + [NewSeasonStat(input)]));
    db.users := db.users[k := Row(userId, user)];
    outcome := Added(user);
  }
}
