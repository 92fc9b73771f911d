/** `calculateDailyRewardIfNotGiven`: award today's daily stat once. */
module RewardService {
  import opened Base
  import opened Models

  /** `floor(min(0.05 * score + games, 2 * (0.3 * games)))`. */
  function FinalReward(score: int, games: int): (r: int)
    ensures r <= (0.05 * score as real + games as real).Floor
    ensures r <= (0.6 * games as real).Floor
    ensures r == (0.05 * score as real + games as real).Floor || r == (0.6 * games as real).Floor
    ensures games == 0 && score >= 0 ==> r == 0
  {
    var adRevenue := games as real * 0.3;
    var rawReward := score as real * 0.05 + games as real * 1.0;
    var maxReward := adRevenue * 2.0;
    var m := if rawReward <= maxReward then rawReward else maxReward;
    FloorMonotone(m, rawReward);
    FloorMonotone(m, maxReward);
    m.Floor
  }

  lemma FloorMonotone(x: real, y: real)
    requires x <= y
    ensures x.Floor <= y.Floor
  {
  }

  /** `dailyStats.find(s => s.date == today)`: the first stat of the day. */
  function TodayStat(stats: seq<DailyStat>, today: int): (k: Option<nat>)
    ensures k.Some? ==> k.value < |stats| && stats[k.value].date == today
    ensures k.Some? ==> forall j :: 0 <= j < k.value ==> stats[j].date != today
    ensures k.None? ==> forall j :: 0 <= j < |stats| ==> stats[j].date != today
  {
    if |stats| == 0 then None
    else if stats[0].date == today then Some(0)
    else match TodayStat(stats[1..], today)
      case None => None
      case Some(k) => Some(k + 1)
  }

  /** Today's stat exists and has no `coinsAwarded` yet: the case that awards. */
  predicate Unawarded(u: User, today: int) {
    u.dailyStats.Some? && TodayStat(u.dailyStats.value, today).Some? &&
    u.dailyStats.value[TodayStat(u.dailyStats.value, today).value].coinsAwarded.None?
  }

  /** The user document after the call. Without an unawarded stat for today
      nothing changes; otherwise `totalCoins` grows by the reward (NaN when it was
      never set), the reward is recorded on that stat, and every other daily stat
      and every other field is kept. */
  function Awarded(u: User, today: int): (r: User)
    ensures r.(totalCoins := u.totalCoins, dailyStats := u.dailyStats) == u
    ensures !Unawarded(u, today) ==> r == u
    ensures Unawarded(u, today) ==>
      var stats := u.dailyStats.value;
      var k := TodayStat(stats, today).value;
      var reward := FinalReward(stats[k].score, stats[k].games);
      (u.totalCoins.Amount? ==> r.totalCoins == Amount(u.totalCoins.value + reward)) &&
      (!u.totalCoins.Amount? ==> r.totalCoins == NotANumber) &&
      r.dailyStats.Some? && |r.dailyStats.value| == |stats| &&
      r.dailyStats.value[k].coinsAwarded == Some(reward) &&
      r.dailyStats.value[k].(coinsAwarded := None) == stats[k] &&
      (forall j :: 0 <= j < |stats| && j != k ==> r.dailyStats.value[j] == stats[j])
  {
    if !Unawarded(u, today) then u
    else
      var stats := u.dailyStats.value;
      var k := TodayStat(stats, today).value;
      var reward := FinalReward(stats[k].score, stats[k].games);
      u.(totalCoins := Plus(u.totalCoins, reward),
         dailyStats := Some(stats[k := stats[k].(coinsAwarded := Some(reward))]))
  }

  /** A second call on the same day changes nothing. */
  lemma {:induction false} AwardedOnce(u: User, today: int)
    ensures Awarded(Awarded(u, today), today) == Awarded(u, today)
  {
    if Unawarded(u, today) {
      var stats := u.dailyStats.value;
      var k := TodayStat(stats, today).value;
      var a := Awarded(u, today).dailyStats.value;
      assert a[k].date == today;
      assert forall j :: 0 <= j < k ==> a[j] == stats[j];
      assert TodayStat(a, today) == Some(k) by {
        TodayStatAt(a, today, k);
      }
    }
  }

  lemma {:induction false} TodayStatAt(stats: seq<DailyStat>, today: int, k: nat)
    requires k < |stats| && stats[k].date == today
    requires forall j :: 0 <= j < k ==> stats[j].date != today
    ensures TodayStat(stats, today) == Some(k)
  {
    if k > 0 {
      TodayStatAt(stats[1..], today, k - 1);
    }
  }

  /** The service on the user with id `userId`, followed by `user.save()`. A user
      without `dailyStats` (none is created with one) makes `find` throw a
      TypeError: the promise rejects and nothing is written. */
  method CalculateDailyRewardIfNotGiven(db: Db, userId: Id, today: int) returns (thrown: bool)
    requires userId in Ids(db.users)
    modifies db`users
    ensures var k := IndexOf(old(db.users), userId).value;
      thrown <==> old(db.users)[k].doc.dailyStats.None?
    ensures thrown ==> db.users == old(db.users)
    ensures !thrown ==> var k := IndexOf(old(db.users), userId).value;
      db.users == old(db.users)[k := Row(userId, Awarded(old(db.users)[k].doc, today))]
  {
    var k := IndexOf(db.users, userId).value;
    var user := db.users[k].doc;
    if user.dailyStats.None? {
      return true;
    }
    thrown := false;
    var stats := user.dailyStats.value;
    var found := TodayStat(stats, today);
    if found.None? || stats[found.value].coinsAwarded.Some? {
      return;
    }
    var i := found.value;
    var stat := stats[i];
    var finalReward := FinalReward(stat.score, stat.games);
    user := user.(totalCoins := Plus(user.totalCoins, finalReward));
    stat := stat.(coinsAwarded := Some(finalReward));
    user := user.(dailyStats := Some(stats[i := stat]));
    db.users := db.users[k := Row(userId, user)];
  }
}
