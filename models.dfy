/** The documents of each collection, as the controllers and jobs read and
    write them, and the store that holds the collections.

    Several fields the controllers use are not declared by the shown schemas:
    - a tier's `category`, `level`, `min_exp`, `max_exp`, `min_score`,
      `max_score` and `overall_order` (the schema has `lvl` and `min_exp_required`);
    - a season's `rewards`, `isActive` and `status`;
    - a game's `user` and `startTime` (the schema has `userId`);
    - a user's `adsWatchedToday`, `dailyStats`, `seasonStats`, `totalCoins`
      and `coin_earned`.
    They are kept here as plain fields, as the code writes them. No code creates
    a user with the last five, so on a user they may be absent: they are
    `Option`s, or a `NumField` that may be unset or NaN.

    Required fields are not enforced either. A game created by `gameStart`
    lacks `score`, `duration`, `startedAt` and `endedAt`, and one created by
    `saveGameResult` lacks `userId`; the schema would refuse both saves. */
module Models {
  import opened Base

  /** `adsWatchedToday`: how many ads of each kind the user watched today. */
  datatype AdCounters = AdCounters(banner: int, interstitial: int, rewarded: int)

  const NoAds := AdCounters(0, 0, 0)

  /** A JavaScript number field that no schema declares: unset, a number, or NaN. */
  datatype NumField = Undefined | Amount(value: int) | NotANumber

  /** `field += n`: adding to an unset field gives NaN, and NaN stays NaN. */
  function Plus(f: NumField, n: int): (r: NumField)
    ensures f.Amount? ==> r == Amount(f.value + n)
    ensures !f.Amount? ==> r == NotANumber
  {
    match f
    case Amount(v) => Amount(v + n)
    case _ => NotANumber
  }

  /** One entry of `user.dailyStats` (reward service). */
  datatype DailyStat = DailyStat(date: int, score: int, games: int, coinsAwarded: Option<int>)

  /** One entry of `user.seasonStats` (season service). */
  datatype SeasonStat = SeasonStat(
    seasonId: string, totalScore: int, bestScore: int, tier: string,
    gamesPlayed: int, startDate: Option<int>, endDate: Option<int>)

  datatype User = User(
    name: string,
    email: string,
    phone: string,
    profilePic: string,
    currentTier: Option<Id>,          // reference to a Tier
    coinEarned: NumField,             // `coin_earned`, credited by the daily reward job
    adsWatchedToday: Option<AdCounters>,
    totalCoins: NumField,             // credited by the reward service
    dailyStats: Option<seq<DailyStat>>,
    seasonStats: Option<seq<SeasonStat>>)

  /** A rung of the tier ladder. The score bounds and the overall order are
      optional: `createTier` never writes `min_score`/`max_score`. */
  datatype Tier = Tier(
    title: string,
    category: string,
    level: int,
    minScore: Option<int>,
    maxScore: Option<int>,
    minExp: Option<int>,
    maxExp: Option<int>,
    multiplier: real,
    overallOrder: Option<int>)

  datatype SeasonStatus = Unset | Upcoming | Active | Ended

  datatype Season = Season(
    title: string,
    startDate: int,
    endDate: int,
    rewards: seq<string>,
    isActive: bool,        // queried by the game controller, never written by the core
    status: SeasonStatus)  // written by `Season.updateSeasonStatuses`, outside the model

  datatype GameStatus = InProgress | End

  /** The result fields a submission writes (`score`, `duration`, `startedAt`, `endedAt`). */
  datatype Play = Play(score: int, duration: int, startedAt: int, endedAt: int)

  /** A game session. `gameStart` fills `userId`, `startTime` and `season`;
      `saveGameResult` fills `user` and the result (`play`). */
  datatype Game = Game(
    user: Option<Id>,
    userId: Option<Id>,
    season: Option<Id>,
    status: GameStatus,
    startTime: Option<int>,
    play: Option<Play>,
    coinsEarned: int,
    adsViewed: int,
    createdAt: int)

  /** Per (user, season) aggregate. */
  datatype UserStat = UserStat(
    user: Id,
    season: Id,
    gamesPlayed: int,          // total_game_played
    adsWatched: int,           // total_ads_watched
    coinsEarned: int,          // total_coin_earned
    bestScore: int,            // best_score
    highestTier: Option<Id>)   // highest_tier_reached

  datatype Bird = Bird(name: string)

  datatype StoreItem = StoreItem(
    name: string, price: int, itemType: string, itemId: Id, isAvailable: bool, createdAt: int)

  datatype UserItem = UserItem(user: Id, storeItem: Id, purchasedAt: int, isEquipped: bool)

  /** The database: one table per collection, rows in natural (insertion) order. */
  class Db {
    var users: seq<Row<User>>
    var games: seq<Row<Game>>
    var stats: seq<UserStat>
    var tiers: seq<Row<Tier>>
    var seasons: seq<Row<Season>>
    var birds: seq<Row<Bird>>
    var storeItems: seq<Row<StoreItem>>
    var userItems: seq<Row<UserItem>>
  }

  /** `startDate <= now <= endDate`, both ends inclusive. */
  predicate InWindow(s: Season, now: int) {
    s.startDate <= now <= s.endDate
  }

  /** `Season.findOne({ startDate: { $lte: now }, endDate: { $gte: now } })`. */
  function SeasonAt(seasons: seq<Row<Season>>, now: int): (k: Option<nat>)
    ensures k.Some? ==> k.value < |seasons| && InWindow(seasons[k.value].doc, now)
    ensures k.None? ==> forall j :: 0 <= j < |seasons| ==> !InWindow(seasons[j].doc, now)
  {
    FirstWhere(seasons, (s: Season) => InWindow(s, now))
  }

  predicate Titled(s: Season, title: string) {
    s.title == title
  }

  /** `Season.findOne({ title })`; titles are a unique index of the collection. */
  function SeasonTitled(seasons: seq<Row<Season>>, title: string): (k: Option<nat>)
    ensures k.Some? ==> k.value < |seasons| && seasons[k.value].doc.title == title
    ensures k.None? ==> forall j :: 0 <= j < |seasons| ==> seasons[j].doc.title != title
  {
    FirstWhere(seasons, (s: Season) => Titled(s, title))
  }

  /** Populating a tier reference: the referenced tier, or none when the
      reference is absent or names no tier. */
  function TierOf(tiers: seq<Row<Tier>>, ref: Option<Id>): (t: Option<Tier>)
    ensures t.Some? ==> ref.Some? && Row(ref.value, t.value) in tiers
    ensures ref.Some? && ref.value in Ids(tiers) ==> t.Some?
  {
    match ref
    case None => None
    case Some(id) => FindDoc(tiers, id)
  }
}
