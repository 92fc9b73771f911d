/** The daily reward sweep: for every user, today's game score plus a share of
    the estimated ad earnings, converted to coins; then the ad counters are reset.
    Amounts are exact reals: the binary rounding of JavaScript numbers is not modelled. */
module DailyReward {
  import opened Base
  import opened Models
  import GameController

  const PointsToCoins: real := 10.0     // 10 points = 1 coin
  const MaxScore: real := 1000.0        // score at which ad earnings are no longer scaled down
  const AdEarningFraction: real := 0.4  // ad earnings may add at most this fraction of the score

  /** Per-ad estimates: 0.08 per banner, 0.25 per interstitial, 0.4 per rewarded ad. */
  function EstimatedAdEarnings(ads: AdCounters): (e: real)
    ensures ads.banner >= 0 && ads.interstitial >= 0 && ads.rewarded >= 0 ==> e >= 0.0
  {
    ads.banner as real * 0.08 + ads.interstitial as real * 0.25 + ads.rewarded as real * 0.4
  }

  function Min(a: real, b: real): (m: real)
    ensures m <= a && m <= b && (m == a || m == b)
  {
    if a <= b then a else b
  }

  /** Ad earnings scaled by how much of `MaxScore` the player reached today. */
  function ScaledAdEarnings(estimated: real, totalScore: int): (s: real)
    ensures estimated >= 0.0 && totalScore >= 0 ==> 0.0 <= s <= estimated
    ensures totalScore as real >= MaxScore ==> s == estimated
    ensures totalScore == 0 ==> s == 0.0
  {
    var factor := Min(totalScore as real / MaxScore, 1.0);
    assert estimated >= 0.0 && totalScore >= 0 ==> 0.0 <= estimated * factor <= estimated by {
      if estimated >= 0.0 && totalScore >= 0 {
        assert 0.0 <= factor <= 1.0;
        MulBounds(estimated, factor);
      }
    }
    estimated * factor
  }

  lemma MulBounds(a: real, f: real)
    requires a >= 0.0 && 0.0 <= f <= 1.0
    ensures 0.0 <= a * f <= a
  {
    assert a * f <= a * 1.0;
  }

  /** The scaled ad earnings, capped at 40% of today's score. */
  function CappedAdEarnings(scaled: real, totalScore: int): (c: real)
    ensures c <= scaled
    ensures c <= totalScore as real * AdEarningFraction
    ensures c == scaled || c == totalScore as real * AdEarningFraction
  {
    Min(scaled, totalScore as real * AdEarningFraction)
  }

  /** Coins for one day: `floor((totalScore + capped ad earnings) / 10)`;
      a user without `adsWatchedToday` counts as having watched no ads. */
  function DailyCoins(totalScore: int, ads: Option<AdCounters>): (coins: int)
    ensures
      var capped := CappedAdEarnings(ScaledAdEarnings(EstimatedAdEarnings(ads.GetOr(NoAds)), totalScore), totalScore);
      coins as real * PointsToCoins <= totalScore as real + capped < (coins + 1) as real * PointsToCoins
    // no play today means no coins, however many ads were watched
    ensures totalScore == 0 ==> coins == 0
    // ads can only add, and add at most 40% of the score
    ensures totalScore >= 0 && NonNegative(ads.GetOr(NoAds)) ==>
      totalScore / 10 <= coins && coins as real * PointsToCoins <= totalScore as real * 1.4
  {
    var estimated := EstimatedAdEarnings(ads.GetOr(NoAds));
    var capped := CappedAdEarnings(ScaledAdEarnings(estimated, totalScore), totalScore);
    var points := totalScore as real + capped;
    var coins := (points / PointsToCoins).Floor;
    assert totalScore >= 0 && NonNegative(ads.GetOr(NoAds)) ==> totalScore / 10 <= coins by {
      if totalScore >= 0 && NonNegative(ads.GetOr(NoAds)) {
        assert capped >= 0.0;
        assert (totalScore / 10) as real <= totalScore as real / PointsToCoins <= points / PointsToCoins;
      }
    }
    coins
  }

  predicate NonNegative(ads: AdCounters) {
    ads.banner >= 0 && ads.interstitial >= 0 && ads.rewarded >= 0
  }

  /** The query `Game.find({ user, createdAt: { $gte: startOfDay } })`: a game of
      this user created at or after the start of the day. Only games with a result
      carry a `user` field (see `GameController.GamesWellFormed`). */
  predicate PlayedToday(g: Game, user: Id, startOfDay: int) {
    g.user == Some(user) && g.createdAt >= startOfDay && g.play.Some?
  }

  /** `games.reduce((sum, g) => sum + g.score, 0)` over today's games of `user`. */
  function TodayScore(games: seq<Row<Game>>, user: Id, startOfDay: int): (total: int)
    ensures (forall i :: 0 <= i < |games| ==> !PlayedToday(games[i].doc, user, startOfDay)) ==> total == 0
    ensures (forall i :: 0 <= i < |games| && PlayedToday(games[i].doc, user, startOfDay) ==> games[i].doc.play.value.score >= 0)
              ==> total >= 0
  {
    if |games| == 0 then 0
    else
      var g := games[0].doc;
      (if PlayedToday(g, user, startOfDay) then g.play.value.score else 0)
        + TodayScore(games[1..], user, startOfDay)
  }

  /** `coin_earned += coinsEarned` and the ad counters back to zero. A user with
      no `coin_earned` (none is created with one) ends with NaN. */
  function Credit(u: User, coins: int): (r: User)
    ensures u.coinEarned.Amount? ==> r.coinEarned == Amount(u.coinEarned.value + coins)
    ensures !u.coinEarned.Amount? ==> r.coinEarned == NotANumber
    ensures r.adsWatchedToday == Some(NoAds)
    ensures r.(coinEarned := u.coinEarned, adsWatchedToday := u.adsWatchedToday) == u
  {
    u.(coinEarned := Plus(u.coinEarned, coins), adsWatchedToday := Some(NoAds))
  }

  /** The user document after the sweep has processed it. */
  function Swept(u: Row<User>, games: seq<Row<Game>>, startOfDay: int): Row<User> {
    Row(u.id, Credit(u.doc, DailyCoins(TodayScore(games, u.id, startOfDay), u.doc.adsWatchedToday)))
  }

  /** One tick of `dailyRewardCron`: every user is credited and reset, in table order.
      The games table is as settlement leaves it, so every game that names a user
      has a score and the `reduce` of the source never meets a missing one. */
  method DailyRewardTick(db: Db, startOfDay: int)
    requires GameController.GamesWellFormed(db.games)
    modifies db`users
    ensures |db.users| == |old(db.users)|
    ensures forall i :: 0 <= i < |db.users| ==> db.users[i] == Swept(old(db.users[i]), db.games, startOfDay)
  {
    var users := db.users;   // User.find()
    for i := 0 to |users|
      invariant |db.users| == |users|
      invariant forall j :: 0 <= j < i ==> db.users[j] == Swept(users[j], db.games, startOfDay)
      invariant forall j :: i <= j < |users| ==> db.users[j] == users[j]
    {
      var user := users[i];
      var totalScore := TodayScore(db.games, user.id, startOfDay);
      var coinsEarned := DailyCoins(totalScore, user.doc.adsWatchedToday);
      var updated := user.doc.(coinEarned := Plus(user.doc.coinEarned, coinsEarned));
      updated := updated.(adsWatchedToday := Some(NoAds));
      db.users := db.users[i := Row(user.id, updated)];   // user.save()
    }
  }

  /** The worked example: 100 points and ten rewarded ads give 10 coins. */
  lemma DailyCoinsExample()
    ensures EstimatedAdEarnings(AdCounters(0, 0, 10)) == 4.0
    ensures ScaledAdEarnings(4.0, 100) == 0.4
    ensures DailyCoins(100, Some(AdCounters(0, 0, 10))) == 10
  {
  }
}
