/** The game controller: opening a session (`gameStart`), settling a session
    (`saveGameResult`: the game record, the per-season stat, the tier gates),
    the top-10 leaderboard and a user's game history. */
module GameController {
  import opened Base
  import opened Models
  import opened Ordering
  import opened UserStatModel

  /** Every game that names its `user` carries a result: only settlement sets `user`,
      and it always writes the result with it. */
  ghost predicate GamesWellFormed(games: seq<Row<Game>>) {
    forall i :: 0 <= i < |games| && games[i].doc.user.Some? ==> games[i].doc.play.Some?
  }

  // ---------------------------------------------------------------- gameStart

  predicate IsActive(s: Season) {
    s.isActive
  }

  /** `Season.findOne({ isActive: true })`. */
  function ActiveSeason(seasons: seq<Row<Season>>): (k: Option<nat>)
    ensures k.Some? ==> k.value < |seasons| && seasons[k.value].doc.isActive
    ensures k.None? ==> forall j :: 0 <= j < |seasons| ==> !seasons[j].doc.isActive
  {
    FirstWhere(seasons, IsActive)
  }

  /** The game `gameStart` creates: in progress, in the active season, no result yet. */
  function OpenedGame(userId: Option<Id>, season: Id, now: int): (g: Game)
    ensures g.status == InProgress && g.season == Some(season) && g.userId == userId
    ensures g.startTime == Some(now) && g.play.None? && g.user.None?
  {
    Game(None, userId, Some(season), InProgress, Some(now), None, 0, 0, now)
  }

  /** `gameStart`: 402 without an active season, otherwise exactly one new game. */
  method GameStart(db: Db, userId: Option<Id>, now: int, newId: Id) returns (status: Status)
    requires newId !in Ids(db.games)
    modifies db`games
    ensures ActiveSeason(db.seasons).None? ==> status == PaymentRequired && db.games == old(db.games)
    ensures ActiveSeason(db.seasons).Some? ==>
      status == Created &&
      db.games == old(db.games) + [Row(newId, OpenedGame(userId, db.seasons[ActiveSeason(db.seasons).value].id, now))]
    ensures UniqueIds(old(db.games)) ==> UniqueIds(db.games)
    ensures GamesWellFormed(old(db.games)) ==> GamesWellFormed(db.games)
  {
    var current := ActiveSeason(db.seasons);
    if current.None? {
      return PaymentRequired;
    }
    var game := OpenedGame(userId, db.seasons[current.value].id, now);
    db.games := db.games + [Row(newId, game)];
    status := Created;
  }

  // ----------------------------------------------------------- saveGameResult

  /** The request body; `adsViewed` defaults to 0. */
  datatype SaveRequest = SaveRequest(
    userId: Option<Id>,
    score: Option<int>,
    duration: Option<int>,   // seconds
    adsViewed: Option<int>,
    seasonId: Option<Id>,
    gameId: Option<Id>)

  predicate MissingFields(req: SaveRequest) {
    req.userId.None? || req.score.None? || req.duration.None?
  }

  /** The season of the session: the one named, else the active one. */
  function SessionSeason(seasons: seq<Row<Season>>, seasonId: Option<Id>): (k: Option<nat>)
    ensures seasonId.Some? ==> (k.Some? <==> seasonId.value in Ids(seasons))
    ensures seasonId.Some? && k.Some? ==> k.value < |seasons| && seasons[k.value].id == seasonId.value
    ensures seasonId.None? ==> k == ActiveSeason(seasons)
  {
    match seasonId
    case Some(id) => IndexOf(seasons, id)
    case None => ActiveSeason(seasons)
  }

  /** `Math.floor(score / 10)`. */
  function Coins(score: int): (c: int)
    ensures c * 10 <= score < c * 10 + 10
    ensures score >= 0 ==> c >= 0
  {
    score / 10
  }

  /** The result fields: the session ended `now` and began `duration` seconds earlier (times in ms). */
  function SessionPlay(score: int, duration: int, now: int): (p: Play)
    ensures p.score == score && p.duration == duration
    ensures p.endedAt == now && p.endedAt - p.startedAt == duration * 1000
  {
    Play(score, duration, now - duration * 1000, now)
  }

  /** `Game.findById({ _id: gameId })` for a given `gameId`: the stored game, if
      one exists. An absent `gameId` fails to cast before this lookup (see
      `SaveGameResult`). */
  function GameSlot(games: seq<Row<Game>>, gameId: Id): (k: Option<nat>)
    ensures k.Some? ==> k.value < |games| && games[k.value].id == gameId
    ensures k.None? <==> gameId !in Ids(games)
  {
    IndexOf(games, gameId)
  }

  /** `new Game({ user, score, duration, startedAt, endedAt, coinsEarned, adsViewed })`. */
  function NewResult(user: Id, p: Play, coins: int, ads: int, now: int): (g: Game)
    ensures g.user == Some(user) && g.play == Some(p) && g.coinsEarned == coins && g.adsViewed == ads
    ensures g.season.None? && g.userId.None? && g.status == InProgress
  {
    Game(Some(user), None, None, InProgress, None, Some(p), coins, ads, now)
  }

  /** The overwrite of a found game: the result and `adsViewed` are replaced and
      everything else, `coinsEarned` included, is kept. */
  function Resubmitted(g: Game, p: Play, ads: int): (r: Game)
    ensures r.play == Some(p) && r.adsViewed == ads
    ensures r.coinsEarned == g.coinsEarned && r.user == g.user && r.season == g.season
    ensures r.(play := g.play, adsViewed := g.adsViewed) == g
  {
    g.(play := Some(p), adsViewed := ads)
  }

  /** One session folded into an existing stat: counters grow, the best score is the maximum. */
  function FoldSession(s: UserStat, score: int, ads: int, coins: int): (r: UserStat)
    ensures r.gamesPlayed == s.gamesPlayed + 1
    ensures r.adsWatched == s.adsWatched + ads && r.coinsEarned == s.coinsEarned + coins
    ensures r.bestScore >= s.bestScore && r.bestScore >= score
    ensures r.bestScore == s.bestScore || r.bestScore == score
    ensures r.user == s.user && r.season == s.season && r.highestTier == s.highestTier
  {
    var best := if score > s.bestScore then score else s.bestScore;
    s.(gamesPlayed := s.gamesPlayed + 1, adsWatched := s.adsWatched + ads,
       coinsEarned := s.coinsEarned + coins, bestScore := best)
  }

  /** The stat created by a user's first session of a season. */
  function FirstSession(user: Id, season: Id, score: int, ads: int, coins: int): (r: UserStat)
    ensures IsStatOf(r, user, season)
    ensures r.gamesPlayed == 1 && r.adsWatched == ads && r.coinsEarned == coins && r.bestScore == score
    ensures r.highestTier.None?
  {
    UserStat(user, season, 1, ads, coins, score, None)
  }

  /** A session as the stat sees it. */
  datatype Session = Session(score: int, ads: int)

  function FoldAll(s: UserStat, sessions: seq<Session>): UserStat
    decreases |sessions|
  {
    if |sessions| == 0 then s
    else FoldAll(FoldSession(s, sessions[0].score, sessions[0].ads, Coins(sessions[0].score)), sessions[1..])
  }

  function SumAds(sessions: seq<Session>): int {
    if |sessions| == 0 then 0 else sessions[0].ads + SumAds(sessions[1..])
  }

  function SumCoins(sessions: seq<Session>): int {
    if |sessions| == 0 then 0 else Coins(sessions[0].score) + SumCoins(sessions[1..])
  }

  /** After any run of sessions the stat counts them all, sums their ads and
      coins, and its best score is the maximum of the old best and every score. */
  lemma {:induction false} FoldAllTotals(s: UserStat, sessions: seq<Session>)
    ensures var r := FoldAll(s, sessions);
      r.gamesPlayed == s.gamesPlayed + |sessions| &&
      r.adsWatched == s.adsWatched + SumAds(sessions) &&
      r.coinsEarned == s.coinsEarned + SumCoins(sessions) &&
      r.bestScore >= s.bestScore &&
      (forall i :: 0 <= i < |sessions| ==> r.bestScore >= sessions[i].score) &&
      (r.bestScore == s.bestScore || exists i :: 0 <= i < |sessions| && r.bestScore == sessions[i].score)
    decreases |sessions|
  {
    if |sessions| > 0 {
      var head := sessions[0];
      var next := FoldSession(s, head.score, head.ads, Coins(head.score));
      var tail := sessions[1..];
      FoldAllTotals(next, tail);
      var r := FoldAll(s, sessions);
      assert r == FoldAll(next, tail);
      forall i | 0 <= i < |sessions| ensures r.bestScore >= sessions[i].score {
        if i > 0 { assert sessions[i] == tail[i - 1]; }
      }
      if r.bestScore != s.bestScore {
        if r.bestScore == next.bestScore {
          assert r.bestScore == sessions[0].score;
        } else {
          var i :| 0 <= i < |tail| && r.bestScore == tail[i].score;
          assert sessions[i + 1] == tail[i];
        }
      }
    }
  }

  /** The tier query matches a tier whose bounds are both present and contain the score. */
  predicate Contains(t: Tier, score: int) {
    t.minScore.Some? && t.maxScore.Some? && t.minScore.value <= score <= t.maxScore.value
  }

  /** `Tier.findOne({ min_score: { $lte: s }, max_score: { $gte: s } }).sort({ min_score: -1 })`:
      a containing tier with the largest `min_score`, the first in table order among equals. */
  function ResolveTier(tiers: seq<Row<Tier>>, score: int): (k: Option<nat>)
    ensures k.Some? ==>
      k.value < |tiers| && Contains(tiers[k.value].doc, score) &&
      (forall j :: 0 <= j < |tiers| && Contains(tiers[j].doc, score) ==>
         tiers[j].doc.minScore.value <= tiers[k.value].doc.minScore.value) &&
      (forall j :: 0 <= j < k.value && Contains(tiers[j].doc, score) ==>
         tiers[j].doc.minScore.value < tiers[k.value].doc.minScore.value)
    ensures k.None? <==> forall j :: 0 <= j < |tiers| ==> !Contains(tiers[j].doc, score)
    decreases |tiers|
  {
    if |tiers| == 0 then None
    else
      var n := |tiers| - 1;
      var front := tiers[..n];
      var r := ResolveTier(front, score);
      assert forall j :: 0 <= j < n ==> front[j] == tiers[j];
      if !Contains(tiers[n].doc, score) then r
      else if r.None? || tiers[n].doc.minScore.value > tiers[r.value].doc.minScore.value then Some(n)
      else r
  }

  /** A tier reference as the two tier gates compare it: nothing
      (absent, or a populate that found no tier), a populated tier, or an id the
      pre-save hook copied in after population (it has no `min_score`). */
  datatype TierView = NoTier | Doc(tier: Tier) | BareId

  function Populated(tiers: seq<Row<Tier>>, ref: Option<Id>): (v: TierView)
    ensures v.NoTier? <==> TierOf(tiers, ref).None?
    ensures v.Doc? ==> TierOf(tiers, ref) == Some(v.tier)
  {
    match TierOf(tiers, ref)
    case None => NoTier
    case Some(t) => Doc(t)
  }

  /** `!current || newMin > current.min_score`, where comparing with a missing
      `min_score` is false, as in JavaScript. */
  predicate Advances(newMin: int, current: TierView) {
    match current
    case NoTier => true
    case Doc(t) => t.minScore.Some? && newMin > t.minScore.value
    case BareId => false
  }

  /** The reference after the gate: the resolved tier when it advances on the current one. */
  function Gate(tiers: seq<Row<Tier>>, ref: Option<Id>, view: TierView, score: int): (r: Option<Id>)
    ensures ResolveTier(tiers, score).None? ==> r == ref
    // a resolved tier that advances on the current one is always taken
    ensures ResolveTier(tiers, score).Some? &&
            Advances(tiers[ResolveTier(tiers, score).value].doc.minScore.value, view) ==>
      r == Some(tiers[ResolveTier(tiers, score).value].id)
    ensures r != ref ==>
      var k := ResolveTier(tiers, score).value;
      ResolveTier(tiers, score).Some? && r == Some(tiers[k].id) && Advances(tiers[k].doc.minScore.value, view)
  {
    match ResolveTier(tiers, score)
    case None => ref
    case Some(k) => if Advances(tiers[k].doc.minScore.value, view) then Some(tiers[k].id) else ref
  }

  /** The gate never lowers a reference by `min_score`: once it names a tier with a
      `min_score`, it still names one afterwards, with a `min_score` at least as large. */
  lemma GateNeverLowers(tiers: seq<Row<Tier>>, ref: Option<Id>, view: TierView, score: int)
    requires UniqueIds(tiers)
    requires TierOf(tiers, ref).Some? && TierOf(tiers, ref).value.minScore.Some?
    requires view == Populated(tiers, ref) || view == BareId
    ensures var after := TierOf(tiers, Gate(tiers, ref, view, score));
      after.Some? && after.value.minScore.Some? &&
      after.value.minScore.value >= TierOf(tiers, ref).value.minScore.value
  {
    var r := Gate(tiers, ref, view, score);
    if r != ref {
      var k := ResolveTier(tiers, score).value;
      FindDocUnique(tiers, k);
    }
  }

  /** With no current tier, the resolved tier is always taken. */
  lemma GateFillsAbsent(tiers: seq<Row<Tier>>, ref: Option<Id>, score: int)
    requires TierOf(tiers, ref).None? && ResolveTier(tiers, score).Some?
    ensures Gate(tiers, ref, Populated(tiers, ref), score) == Some(tiers[ResolveTier(tiers, score).value].id)
  {
  }

  /** The stat after its first save (or its creation) and the view of
      its highest tier the gate then sees. */
  datatype SavedStat = SavedStat(stat: UserStat, view: TierView)

  /** An existing stat: its highest tier is populated first; when that finds no tier,
      the pre-save hook copies in the owner's `currentTier` as a bare id. */
  function HookedExisting(s: UserStat, users: seq<Row<User>>, tiers: seq<Row<Tier>>): (r: SavedStat)
    ensures r.stat.(highestTier := s.highestTier) == s
    ensures r.view == Populated(tiers, r.stat.highestTier) || r.view == BareId
    ensures TierOf(tiers, s.highestTier).Some? ==> r.stat == s && r.view == Doc(TierOf(tiers, s.highestTier).value)
    ensures s.highestTier.None? ==> r.stat == PreSave(s, users)
  {
    match TierOf(tiers, s.highestTier)
    case Some(t) => SavedStat(s, Doc(t))
    case None =>
      match FindDoc(users, s.user)
      case Some(u) => if u.currentTier.Some? then SavedStat(s.(highestTier := u.currentTier), BareId) else SavedStat(s, NoTier)
      case None => SavedStat(s, NoTier)
  }

  /** A created stat: the hook fills its highest tier, which is then populated. */
  function HookedNew(s: UserStat, users: seq<Row<User>>, tiers: seq<Row<Tier>>): (r: SavedStat)
    ensures r.stat == PreSave(s, users) && r.view == Populated(tiers, r.stat.highestTier)
  {
    var saved := PreSave(s, users);
    SavedStat(saved, Populated(tiers, saved.highestTier))
  }

  /** The stat of the session's (user, season) after its first save. */
  function SessionStat(stats: seq<UserStat>, user: Id, season: Id, score: int, ads: int,
                       users: seq<Row<User>>, tiers: seq<Row<Tier>>): SavedStat
  {
    match StatIndex(stats, user, season)
    case Some(k) => HookedExisting(FoldSession(stats[k], score, ads, Coins(score)), users, tiers)
    case None => HookedNew(FirstSession(user, season, score, ads, Coins(score)), users, tiers)
  }

  /** The stat with its highest tier gated on its own best score. */
  function Graded(saved: SavedStat, tiers: seq<Row<Tier>>): UserStat {
    saved.stat.(highestTier := Gate(tiers, saved.stat.highestTier, saved.view, saved.stat.bestScore))
  }

  lemma UpdateKeepsUnique(stats: seq<UserStat>, k: nat, s: UserStat)
    requires k < |stats| && IsStatOf(s, stats[k].user, stats[k].season) && StatsUnique(stats)
    ensures StatsUnique(stats[k := s])
  {
    var t := stats[k := s];
    forall i, j | 0 <= i < j < |t| ensures !IsStatOf(t[j], t[i].user, t[i].season) {
      assert IsStatOf(t[i], stats[i].user, stats[i].season) && IsStatOf(t[j], stats[j].user, stats[j].season);
    }
  }

  /** The games table after `game.save()`. */
  function GamesAfter(games: seq<Row<Game>>, gameId: Id, user: Id, p: Play, coins: int,
                      ads: int, now: int, newId: Id): seq<Row<Game>>
  {
    match GameSlot(games, gameId)
    case Some(g) => games[g := Row(games[g].id, Resubmitted(games[g].doc, p, ads))]
    case None => games + [Row(newId, NewResult(user, p, coins, ads, now))]
  }

  /** The stats table with the stat of (user, season) replaced, or appended when there was none. */
  function StatsAfter(stats: seq<UserStat>, s: UserStat, user: Id, season: Id): seq<UserStat> {
    match StatIndex(stats, user, season)
    case Some(k) => stats[k := s]
    case None => stats + [s]
  }

  /** The game found by `gameId`, or a new one, receives the result and is saved. */
  method SaveGame(db: Db, gameId: Id, user: Id, p: Play, coins: int, ads: int, now: int, newId: Id)
    requires newId !in Ids(db.games)
    modifies db`games
    ensures db.games == GamesAfter(old(db.games), gameId, user, p, coins, ads, now, newId)
    ensures UniqueIds(old(db.games)) ==> UniqueIds(db.games)
    ensures GamesWellFormed(old(db.games)) ==> GamesWellFormed(db.games)
  {
    var slot := GameSlot(db.games, gameId);
    var game := if slot.Some? then db.games[slot.value].doc else NewResult(user, p, coins, ads, now);
    game := Resubmitted(game, p, ads);
    if slot.Some? {
      db.games := db.games[slot.value := Row(db.games[slot.value].id, game)];
    } else {
      db.games := db.games + [Row(newId, game)];
    }
  }

  /** The stat of (user, season) is folded or created, and saved. */
  method SaveStat(db: Db, user: Id, season: Id, score: int, ads: int) returns (saved: SavedStat, pos: nat)
    modifies db`stats
    ensures saved == SessionStat(old(db.stats), user, season, score, ads, db.users, db.tiers)
    ensures IsStatOf(saved.stat, user, season)
    ensures db.stats == StatsAfter(old(db.stats), saved.stat, user, season)
    ensures pos < |db.stats| && db.stats[pos] == saved.stat
    ensures forall s :: StatsAfter(old(db.stats), saved.stat, user, season)[pos := s]
                          == StatsAfter(old(db.stats), s, user, season)
    ensures StatsUnique(old(db.stats)) ==> StatsUnique(db.stats)
  {
    var existing := StatIndex(db.stats, user, season);
    if existing.Some? {
      pos := existing.value;
      saved := HookedExisting(FoldSession(db.stats[pos], score, ads, Coins(score)), db.users, db.tiers);
      if StatsUnique(db.stats) { UpdateKeepsUnique(db.stats, pos, saved.stat); }
      db.stats := db.stats[pos := saved.stat];
    } else {
      var created := PreSave(FirstSession(user, season, score, ads, Coins(score)), db.users);
      var inserted := Insert(db.stats, created);
      db.stats := inserted.value;
      pos := |db.stats| - 1;
      saved := SavedStat(created, Populated(db.tiers, created.highestTier));
    }
  }

  /** `saveGameResult` at time `now`; `newGameId` is the id a created game receives. */
  method SaveGameResult(db: Db, req: SaveRequest, now: int, newGameId: Id) returns (status: Status)
    requires newGameId !in Ids(db.games)
    modifies db`games, db`stats, db`users
    // the three refusals, each before any write
    ensures MissingFields(req) ==>
      status == BadRequest && db.games == old(db.games) && db.stats == old(db.stats) && db.users == old(db.users)
    ensures !MissingFields(req) && req.userId.value !in Ids(old(db.users)) ==>
      status == NotFound && db.games == old(db.games) && db.stats == old(db.stats) && db.users == old(db.users)
    ensures !MissingFields(req) && req.userId.value in Ids(old(db.users)) && SessionSeason(db.seasons, req.seasonId).None? ==>
      status == BadRequest && db.games == old(db.games) && db.stats == old(db.stats) && db.users == old(db.users)
    // an absent `gameId` is cast to an ObjectId and throws: the catch answers 500
    ensures !MissingFields(req) && req.userId.value in Ids(old(db.users)) && SessionSeason(db.seasons, req.seasonId).Some? &&
            req.gameId.None? ==>
      status == ServerError && db.games == old(db.games) && db.stats == old(db.stats) && db.users == old(db.users)
    ensures status == Created <==>
      !MissingFields(req) && req.userId.value in Ids(old(db.users)) && SessionSeason(db.seasons, req.seasonId).Some? &&
      req.gameId.Some?
    ensures status == Created ==>
      var user, score, ads := req.userId.value, req.score.value, req.adsViewed.GetOr(0);
      var season := db.seasons[SessionSeason(db.seasons, req.seasonId).value].id;
      var saved := SessionStat(old(db.stats), user, season, score, ads, old(db.users), db.tiers);
      var k := IndexOf(old(db.users), user).value;
      var u := old(db.users)[k].doc;
      // the game: overwritten when `gameId` names one, else created
      db.games == GamesAfter(old(db.games), req.gameId.value, user, SessionPlay(score, req.duration.value, now),
                             Coins(score), ads, now, newGameId) &&
      // the stat: folded or created, then gated on its best score
      db.stats == StatsAfter(old(db.stats), Graded(saved, db.tiers), user, season) &&
      // the user: only `currentTier` may change, by the gate on the same best score
      db.users == old(db.users)[k := Row(user, u.(currentTier := Gate(db.tiers, u.currentTier,
                                         Populated(db.tiers, u.currentTier), saved.stat.bestScore)))]
    ensures UniqueIds(old(db.games)) ==> UniqueIds(db.games)
    ensures GamesWellFormed(old(db.games)) ==> GamesWellFormed(db.games)
    ensures StatsUnique(old(db.stats)) ==> StatsUnique(db.stats)
  {
    if req.userId.None? || req.score.None? || req.duration.None? {
      return BadRequest;
    }
    var userId, score, duration := req.userId.value, req.score.value, req.duration.value;
    var ads := req.adsViewed.GetOr(0);

    var ku := IndexOf(db.users, userId);
    if ku.None? {
      return NotFound;
    }
    var user := db.users[ku.value].doc;

    var ks := SessionSeason(db.seasons, req.seasonId);
    if ks.None? {
      return BadRequest;
    }
    var season := db.seasons[ks.value].id;

    if req.gameId.None? {
      return ServerError;
    }
    Settle(db, req.gameId.value, userId, ku.value, season, score, duration, ads, now, newGameId);
    status := Created;
  }

  /** The writes of a validated submission: the game, the stat, then the gates. */
  method Settle(db: Db, gameId: Id, userId: Id, ku: nat, season: Id, score: int, duration: int,
                ads: int, now: int, newGameId: Id)
    requires newGameId !in Ids(db.games)
    requires ku < |db.users| && db.users[ku].id == userId
    modifies db`games, db`stats, db`users
    ensures var saved := SessionStat(old(db.stats), userId, season, score, ads, old(db.users), db.tiers);
      db.stats == StatsAfter(old(db.stats), Graded(saved, db.tiers), userId, season)
    ensures db.games == GamesAfter(old(db.games), gameId, userId, SessionPlay(score, duration, now),
                                   Coins(score), ads, now, newGameId)
    ensures var saved := SessionStat(old(db.stats), userId, season, score, ads, old(db.users), db.tiers);
      var u := old(db.users)[ku].doc;
      db.users == old(db.users)[ku := Row(userId, u.(currentTier := Gate(db.tiers, u.currentTier,
                                          Populated(db.tiers, u.currentTier), saved.stat.bestScore)))]
    ensures UniqueIds(old(db.games)) ==> UniqueIds(db.games)
    ensures GamesWellFormed(old(db.games)) ==> GamesWellFormed(db.games)
    ensures StatsUnique(old(db.stats)) ==> StatsUnique(db.stats)
  {
    var play := SessionPlay(score, duration, now);
    SaveGame(db, gameId, userId, play, Coins(score), ads, now, newGameId);
    var saved, pos := SaveStat(db, userId, season, score, ads);
    ApplyGates(db, ku, saved, pos);
  }

  /** The tier resolved from the best score, and the two gates on the user's
      `currentTier` and the stat's `highest_tier_reached`. */
  method ApplyGates(db: Db, ku: nat, saved: SavedStat, pos: nat)
    requires ku < |db.users| && pos < |db.stats| && db.stats[pos] == saved.stat
    modifies db`users, db`stats
    ensures var u := old(db.users)[ku];
      db.users == old(db.users)[ku := Row(u.id, u.doc.(currentTier := Gate(db.tiers, u.doc.currentTier,
                                          Populated(db.tiers, u.doc.currentTier), saved.stat.bestScore)))]
    ensures db.stats == old(db.stats)[pos := Graded(saved, db.tiers)]
    ensures StatsUnique(old(db.stats)) ==> StatsUnique(db.stats)
  {
    var userId := db.users[ku].id;
    var user := db.users[ku].doc;
    var scoreTillNow := saved.stat.bestScore;
    var newTier := ResolveTier(db.tiers, scoreTillNow);
    if newTier.Some? {
      var t := db.tiers[newTier.value];
      var minScore := t.doc.minScore.value;
      if Advances(minScore, Populated(db.tiers, user.currentTier)) {
        user := user.(currentTier := Some(t.id));
        db.users := db.users[ku := Row(userId, user)];   // user.save()
      }
      if Advances(minScore, saved.view) {
        var graded := PreSave(saved.stat.(highestTier := Some(t.id)), db.users);
        if StatsUnique(db.stats) { UpdateKeepsUnique(db.stats, pos, graded); }
        db.stats := db.stats[pos := graded];   // userStat.save()
      }
    }
  }

  /** Settling a session never lowers the user's tier or the stat's highest tier
      by `min_score`. */
  lemma SettlementNeverLowers(tiers: seq<Row<Tier>>, users: seq<Row<User>>, u: User, saved: SavedStat)
    requires UniqueIds(tiers)
    requires saved.view == Populated(tiers, saved.stat.highestTier) || saved.view == BareId
    ensures var before := TierOf(tiers, u.currentTier);
      before.Some? && before.value.minScore.Some? ==>
        var after := TierOf(tiers, Gate(tiers, u.currentTier, Populated(tiers, u.currentTier), saved.stat.bestScore));
        after.Some? && after.value.minScore.Some? && after.value.minScore.value >= before.value.minScore.value
    ensures var before := TierOf(tiers, saved.stat.highestTier);
      before.Some? && before.value.minScore.Some? ==>
        var after := TierOf(tiers, Graded(saved, tiers).highestTier);
        after.Some? && after.value.minScore.Some? && after.value.minScore.value >= before.value.minScore.value
  {
    var before := TierOf(tiers, u.currentTier);
    if before.Some? && before.value.minScore.Some? {
      GateNeverLowers(tiers, u.currentTier, Populated(tiers, u.currentTier), saved.stat.bestScore);
    }
    var sBefore := TierOf(tiers, saved.stat.highestTier);
    if sBefore.Some? && sBefore.value.minScore.Some? {
      GateNeverLowers(tiers, saved.stat.highestTier, saved.view, saved.stat.bestScore);
    }
  }

  // -------------------------------------------------------------- leaderboard

  /** One `$group` bucket: the `user` field (absent for games never settled) and `$max` of `score`. */
  datatype Group = Group(user: Option<Id>, maxScore: Key)

  datatype Entry = Entry(userId: Id, name: string, maxScore: Key)

  function ScoreOf(g: Game): Key {
    if g.play.Some? then Num(g.play.value.score) else Missing
  }

  function GroupScore(g: Group): Key {
    g.maxScore
  }

  function EntryScore(e: Entry): Key {
    e.maxScore
  }

  /** `$max`, which skips missing values. */
  function MaxKey(a: Key, b: Key): (m: Key)
    ensures KeyLe(a, m) && KeyLe(b, m) && (m == a || m == b)
  {
    if KeyLe(a, b) then b else a
  }

  /** The `$max` of `score` over the games whose `user` field is `user`. */
  function GroupMax(games: seq<Row<Game>>, user: Option<Id>): (m: Key)
    ensures forall i :: 0 <= i < |games| && games[i].doc.user == user ==> KeyLe(ScoreOf(games[i].doc), m)
    ensures m.Num? ==> exists i :: 0 <= i < |games| && games[i].doc.user == user && ScoreOf(games[i].doc) == m
    decreases |games|
  {
    if |games| == 0 then Missing
    else
      var rest := GroupMax(games[1..], user);
      assert forall i :: 1 <= i < |games| ==> games[i] == games[1..][i - 1];
      if games[0].doc.user == user then MaxKey(ScoreOf(games[0].doc), rest) else rest
  }

  /** The distinct `user` values of the games, one per `$group` bucket. */
  function GroupKeys(games: seq<Row<Game>>): (ks: seq<Option<Id>>)
    ensures forall i, j :: 0 <= i < j < |ks| ==> ks[i] != ks[j]
    ensures forall k :: k in ks <==> exists i :: 0 <= i < |games| && games[i].doc.user == k
    decreases |games|
  {
    if |games| == 0 then []
    else
      var rest := GroupKeys(games[1..]);
      assert forall i :: 1 <= i < |games| ==> games[i] == games[1..][i - 1];
      if games[0].doc.user in rest then rest else [games[0].doc.user] + rest
  }

  function Groups(games: seq<Row<Game>>): (gs: seq<Group>)
    ensures |gs| == |GroupKeys(games)|
    ensures forall i :: 0 <= i < |gs| ==> gs[i] == Group(GroupKeys(games)[i], GroupMax(games, GroupKeys(games)[i]))
  {
    var ks := GroupKeys(games);
    seq(|ks|, i requires 0 <= i < |ks| => Group(ks[i], GroupMax(games, ks[i])))
  }

  /** `$sort: { maxScore: -1 }` then `$limit: 10`. */
  function TopGroups(games: seq<Row<Game>>): seq<Group> {
    var sorted := SortBy(Groups(games), GroupScore, true);
    sorted[..if |sorted| < 10 then |sorted| else 10]
  }

  /** `$lookup` of each bucket's user and `$unwind`, which drops a bucket with no user. */
  function LookupUsers(groups: seq<Group>, users: seq<Row<User>>): (r: seq<Entry>)
    ensures |r| <= |groups|
    decreases |groups|
  {
    if |groups| == 0 then []
    else
      var rest := LookupUsers(groups[1..], users);
      var g := groups[0];
      if g.user.Some? && g.user.value in Ids(users) then
        [Entry(g.user.value, FindDoc(users, g.user.value).value.name, g.maxScore)] + rest
      else rest
  }

  /** `getLeaderboard`. */
  function Leaderboard(games: seq<Row<Game>>, users: seq<Row<User>>): seq<Entry> {
    LookupUsers(TopGroups(games), users)
  }

  ghost predicate DistinctUsers(gs: seq<Group>) {
    forall i, j :: 0 <= i < j < |gs| ==> gs[i].user != gs[j].user
  }

  ghost predicate DistinctEntries(es: seq<Entry>) {
    forall i, j :: 0 <= i < j < |es| ==> es[i].userId != es[j].userId
  }

  /** Every entry comes from the bucket of an existing user and carries its maximum. */
  lemma {:induction false} LookupUsersSound(groups: seq<Group>, users: seq<Row<User>>)
    ensures forall e :: e in LookupUsers(groups, users) ==>
      e.userId in Ids(users) && e.name == FindDoc(users, e.userId).value.name &&
      Group(Some(e.userId), e.maxScore) in groups
    decreases |groups|
  {
    if |groups| > 0 {
      LookupUsersSound(groups[1..], users);
      assert groups == [groups[0]] + groups[1..];
    }
  }

  /** Every bucket of an existing user yields an entry. */
  lemma {:induction false} LookupUsersComplete(groups: seq<Group>, users: seq<Row<User>>)
    ensures forall g :: g in groups && g.user.Some? && g.user.value in Ids(users) ==>
      exists e :: e in LookupUsers(groups, users) && e.userId == g.user.value
    decreases |groups|
  {
    if |groups| > 0 {
      var tail := groups[1..];
      LookupUsersComplete(tail, users);
      var r := LookupUsers(groups, users);
      var rest := LookupUsers(tail, users);
      assert forall e :: e in rest ==> e in r;
      forall g | g in groups && g.user.Some? && g.user.value in Ids(users)
        ensures exists e :: e in r && e.userId == g.user.value
      {
        if g == groups[0] {
          assert r[0].userId == g.user.value;
        } else {
          assert g in tail;
        }
      }
    }
  }

  /** Dropping buckets keeps the descending order. */
  lemma {:induction false} LookupUsersSorted(groups: seq<Group>, users: seq<Row<User>>)
    requires SortedBy(groups, GroupScore, true)
    ensures SortedBy(LookupUsers(groups, users), EntryScore, true)
    decreases |groups|
  {
    if |groups| > 0 {
      var tail := groups[1..];
      assert SortedBy(tail, GroupScore, true);
      LookupUsersSorted(tail, users);
      var rest := LookupUsers(tail, users);
      var g := groups[0];
      if g.user.Some? && g.user.value in Ids(users) {
        LookupUsersSound(tail, users);
        forall j | 0 <= j < |rest| ensures InOrder(g.maxScore, rest[j].maxScore, true) {
          assert rest[j] in rest;
          var i :| 0 <= i < |tail| && tail[i] == Group(Some(rest[j].userId), rest[j].maxScore);
          assert groups[i + 1] == tail[i];
        }
      }
    }
  }

  /** One bucket per user gives one entry per user. */
  lemma {:induction false} LookupUsersDistinct(groups: seq<Group>, users: seq<Row<User>>)
    requires DistinctUsers(groups)
    ensures DistinctEntries(LookupUsers(groups, users))
    decreases |groups|
  {
    if |groups| > 0 {
      var tail := groups[1..];
      assert DistinctUsers(tail);
      LookupUsersDistinct(tail, users);
      var rest := LookupUsers(tail, users);
      var g := groups[0];
      if g.user.Some? && g.user.value in Ids(users) {
        LookupUsersSound(tail, users);
        forall j | 0 <= j < |rest| ensures g.user.value != rest[j].userId {
          assert rest[j] in rest;
          var i :| 0 <= i < |tail| && tail[i] == Group(Some(rest[j].userId), rest[j].maxScore);
          assert groups[i + 1] == tail[i];
        }
      }
    }
  }

  predicate NoDup<T(==)>(s: seq<T>) {
    forall i, j :: 0 <= i < j < |s| ==> s[i] != s[j]
  }

  lemma {:induction false} NoDupCount<T>(s: seq<T>, x: T)
    requires NoDup(s)
    ensures multiset(s)[x] <= 1
  {
    if |s| > 0 {
      assert s == [s[0]] + s[1..];
      assert NoDup(s[1..]);
      NoDupCount(s[1..], x);
      if x == s[0] {
        assert x !in s[1..];
      }
    }
  }

  lemma RepeatCount<T>(s: seq<T>, i: nat, j: nat)
    requires i < j < |s| && s[i] == s[j]
    ensures multiset(s)[s[i]] >= 2
  {
    assert s == s[..j] + s[j..];
    assert s[i] in s[..j];
    assert s[j] in s[j..];
  }

  /** The buckets, sorted, still have one per user. */
  lemma SortedGroupsDistinct(games: seq<Row<Game>>)
    ensures DistinctUsers(SortBy(Groups(games), GroupScore, true))
  {
    var gs := Groups(games);
    var sorted := SortBy(gs, GroupScore, true);
    assert NoDup(gs);
    forall i, j | 0 <= i < j < |sorted| ensures sorted[i].user != sorted[j].user {
      if sorted[i].user == sorted[j].user {
        assert sorted[i] in multiset(gs) && sorted[j] in multiset(gs);
        var a :| 0 <= a < |gs| && gs[a] == sorted[i];
        var b :| 0 <= b < |gs| && gs[b] == sorted[j];
        assert sorted[i] == sorted[j];
        RepeatCount(sorted, i, j);
        NoDupCount(gs, sorted[i]);
        assert false;
      }
    }
  }

  /** The leaderboard: at most 10 entries, best first, one per existing user, each
      carrying that user's maximum game score. */
  lemma LeaderboardShape(games: seq<Row<Game>>, users: seq<Row<User>>)
    ensures var lb := Leaderboard(games, users);
      |lb| <= 10 &&
      SortedBy(lb, EntryScore, true) &&
      DistinctEntries(lb) &&
      forall e :: e in lb ==>
        e.userId in Ids(users) && e.name == FindDoc(users, e.userId).value.name &&
        e.maxScore == GroupMax(games, Some(e.userId)) &&
        exists i :: 0 <= i < |games| && games[i].doc.user == Some(e.userId)
  {
    var gs := Groups(games);
    var sorted := SortBy(gs, GroupScore, true);
    var top := TopGroups(games);
    SortedGroupsDistinct(games);
    assert SortedBy(top, GroupScore, true);
    assert DistinctUsers(top);
    LookupUsersSorted(top, users);
    LookupUsersDistinct(top, users);
    LookupUsersSound(top, users);
    var lb := Leaderboard(games, users);
    forall e | e in lb
      ensures e.maxScore == GroupMax(games, Some(e.userId))
      ensures exists i :: 0 <= i < |games| && games[i].doc.user == Some(e.userId)
    {
      var g := Group(Some(e.userId), e.maxScore);
      assert g in top;
      assert g in multiset(sorted);
      assert g in gs;
      var a :| 0 <= a < |gs| && gs[a] == g;
      assert GroupKeys(games)[a] == Some(e.userId);
      assert Some(e.userId) in GroupKeys(games);
    }
  }

  /** A user with a game who is missing from the leaderboard was outscored: ten
      buckets, each with a maximum at least that user's, filled the top 10. */
  lemma LeaderboardOmitsOnlyOutscored(games: seq<Row<Game>>, users: seq<Row<User>>, u: Id, i: nat)
    requires i < |games| && games[i].doc.user == Some(u) && u in Ids(users)
    requires forall e :: e in Leaderboard(games, users) ==> e.userId != u
    ensures |TopGroups(games)| == 10
    ensures forall g :: g in TopGroups(games) ==> KeyLe(GroupMax(games, Some(u)), g.maxScore)
  {
    var gs := Groups(games);
    var sorted := SortBy(gs, GroupScore, true);
    var top := TopGroups(games);
    assert Some(u) in GroupKeys(games);
    var a :| 0 <= a < |GroupKeys(games)| && GroupKeys(games)[a] == Some(u);
    var mine := Group(Some(u), GroupMax(games, Some(u)));
    assert gs[a] == mine;
    SortByMembers(gs, GroupScore, true);
    assert mine in sorted;
    var p :| 0 <= p < |sorted| && sorted[p] == mine;
    LookupUsersComplete(top, users);
    assert p >= |top|;
    forall g | g in top ensures KeyLe(GroupMax(games, Some(u)), g.maxScore) {
      var q :| 0 <= q < |top| && top[q] == g;
      assert sorted[q] == g;
      assert InOrder(GroupScore(sorted[q]), GroupScore(sorted[p]), true);
    }
  }

  // ------------------------------------------------------------- getUserGames

  function EndedAt(g: Row<Game>): Key {
    if g.doc.play.Some? then Num(g.doc.play.value.endedAt) else Missing
  }

  /** `Game.find({ user: userId }).sort({ endedAt: -1 })`. */
  function GetUserGames(games: seq<Row<Game>>, userId: Id): (r: seq<Row<Game>>)
    ensures forall g :: g in r <==> g in games && g.doc.user == Some(userId)
    ensures forall g :: multiset(r)[g] == if g.doc.user == Some(userId) then multiset(games)[g] else 0
    ensures SortedBy(r, EndedAt, true)
    ensures |r| <= |games|
  {
    var mine := Filter(games, (g: Row<Game>) => g.doc.user == Some(userId));
    var r := SortBy(mine, EndedAt, true);
    SortByMembers(mine, EndedAt, true);
    r
  }
}
