# Flappy-bird backend: settlement, seasons and rewards in Dafny

This project models the bookkeeping core of a flappy-bird game backend (an
Express/Mongoose server written in TypeScript) and proves properties of that
model. The collections are tables of rows (`Row(id, doc)`, in natural order)
held in the fields of one `Models.Db` object. Every handler and job is a method
on that object with a field frame (`modifies db`tiers`), so "nothing else
changes" is part of each contract. HTTP outcomes are a `Status` datatype
(200, 201, 400, 402, 404, 409, 500). The current time, the start of the day,
"three months later" and the ids of created documents are parameters.

What is modelled:

- **Settlement of a game session** (`GameController`):
  - `gameStart` opens a session in the active season.
  - `saveGameResult` refuses a bad request before any write. It saves the game,
    with `floor(score / 10)` coins on a new game; a resubmission keeps the stored
    coins. It folds the session into the per-(user, season) stat, resolves a tier
    from the best score, and moves the user's `currentTier` and the stat's
    `highest_tier_reached` only when the new tier has a strictly higher
    `min_score`.
  - The top-10 leaderboard (group by user, maximum score, sort, limit, user
    lookup) and a user's game history.
- **Season rollover** (`SeasonUpdater`). The nightly job finds or creates the
  running season and finds the default tier. It then streams the users into
  batches of 200; for each batch it inserts a stat for the users lacking one and
  resets every batched user's tier.
- **Daily rewards** (`DailyReward`, `RewardService`, `RewardUtils`, `SeasonUtils`):
  - the ad-earnings formula of the daily sweep, in exact `real` arithmetic;
  - the once-per-day award on `dailyStats`;
  - the score-to-coin reward and the score-threshold tier ladder.
- **Small services** (`OtpService`, `SeasonService`, `DefaultStat`, `UserStatModel`):
  - the OTP store with a five-minute expiry;
  - the season-stat append with its duplicate check;
  - the seed that backfills stats for the running season;
  - the UserStat defaults, the unique (user, season) index and the pre-save hook.
- **Table handlers** (`UserController`, `TierController`, `SeasonController`,
  `UserItemController`, `StoreController`). These cover the ad-counter increment,
  the partial profile update, tier title derivation and uniqueness, season title
  uniqueness and the active window, duplicate-ownership rejection, and store-item
  validation and filtering. Each states its error ordering, and each table
  invariant (unique ids, unique titles, unique pairs) is preserved by every
  operation that writes the table.

`Base` holds the shared vocabulary: `Option`, rows, first-match lookup, removal,
filtering and decimal rendering of integers. `Ordering` holds a stable
insertion sort over keys that may be missing, as MongoDB's `sort` orders them.

## Model

| member | source | states |
|---|---|---|
| Base.IndexOf | src/controllers/tier.controller.ts:56 | `findById`: the position of the first row with the id, and None exactly when no row has it |
| Base.FindDoc | src/controllers/game.controller.ts:38-41 | the document found by id is a row of the table, and one is found whenever the id is present |
| Base.RemoveAtIds | src/controllers/tier.controller.ts:74 | `findByIdAndDelete` on a table with unique ids removes exactly that id and keeps the ids unique |
| Base.NatToStringInjective | src/controllers/tier.controller.ts:14 | decimal rendering of naturals is injective |
| Base.IntToStringInjective | src/controllers/tier.controller.ts:14 | decimal rendering of integers (sign included) is injective and contains no space |
| Ordering.SortBy | src/controllers/tier.controller.ts:42 | the sorted result is ordered by the key in the requested direction and is a permutation of the input |
| Ordering.SortByMembers | src/controllers/season.controller.ts:27 | sorting keeps exactly the same members |
| Models.SeasonAt | src/seed/default-stat.ts:9-12 | the season found has `startDate <= now <= endDate`, and None means no season's window holds `now` |
| Models.SeasonTitled | src/controllers/season.controller.ts:9 | the season found carries the title, and None means no season does |
| Models.TierOf | src/controllers/game.controller.ts:38-40 | population of a tier reference yields a row of the tier table, and always does when the reference is present |
| Models.Plus | src/jobs/dailyReward.ts:53 | `+=` on a number adds, and on an unset field or NaN gives NaN |
| GameController.ActiveSeason | src/controllers/game.controller.ts:10 | the season found is active, and None means no season is |
| GameController.OpenedGame | src/controllers/game.controller.ts:13-18 | the opened game is in progress, in the given season, started now, without a result |
| GameController.GameStart | src/controllers/game.controller.ts:9-19 | 402 and no write without an active season; otherwise exactly one new game in that season is appended |
| GameController.SessionSeason | src/controllers/game.controller.ts:44-47 | the named season when a `seasonId` is given and present, else the active season |
| GameController.Coins | src/controllers/game.controller.ts:53 | `10 * c <= score < 10 * c + 10` (floor of score / 10), non-negative for non-negative scores |
| GameController.SessionPlay | src/controllers/game.controller.ts:49-50 | the session ended now and `endedAt - startedAt == duration * 1000` |
| GameController.GameSlot | src/controllers/game.controller.ts:55 | for a given `gameId`, the position of the stored game with that id, and None exactly when there is none |
| GameController.NewResult | src/controllers/game.controller.ts:56-66 | a new game carries the user, the result, the coins and the ads viewed |
| GameController.Resubmitted | src/controllers/game.controller.ts:68-72 | the overwrite replaces the result and `adsViewed` and keeps every other field, `coinsEarned` included |
| GameController.FoldSession | src/controllers/game.controller.ts:84-91 | games played +1, ads and coins added, and the best score is the maximum of the old best and the score |
| GameController.FirstSession | src/controllers/game.controller.ts:94-101 | a first stat counts 1 game, the session's ads, coins and score, and no highest tier |
| GameController.FoldAllTotals | src/controllers/game.controller.ts:84-91 | after any run of sessions the stat counts them all, sums their ads and coins, and its best score is the maximum of the old best and every score |
| GameController.ResolveTier | src/controllers/game.controller.ts:108-111 | the tier found has bounds containing the score and the largest `min_score` of all such tiers; None means no tier contains it |
| GameController.Populated | src/controllers/game.controller.ts:38-40 | the tier view is empty exactly when population finds no tier, and otherwise is that tier |
| GameController.Gate | src/controllers/game.controller.ts:113-127 | the reference becomes the resolved tier exactly when that tier's `min_score` advances on the current one, and is kept otherwise |
| GameController.GateNeverLowers | src/controllers/game.controller.ts:115-127 | after the gate a reference that named a tier with a `min_score` names one with a `min_score` at least as large |
| GameController.GateFillsAbsent | src/controllers/game.controller.ts:115-116 | with no current tier the resolved tier is always taken |
| GameController.HookedExisting | src/controllers/game.controller.ts:77-92 | the folded stat is saved through the pre-save hook, which only touches the highest tier and only when population found none |
| GameController.HookedNew | src/controllers/game.controller.ts:94-104 | a created stat passes the pre-save hook and is then populated |
| GameController.UpdateKeepsUnique | src/models/user-stat.model.ts:43 | replacing a stat by one with the same (user, season) keeps the unique index |
| GameController.SaveGame | src/controllers/game.controller.ts:55-74 | the game named by `gameId` is overwritten or a new one is appended; ids stay unique |
| GameController.SaveStat | src/controllers/game.controller.ts:77-105 | the (user, season) stat is folded or created and saved in place; the unique index is kept |
| GameController.SaveGameResult | src/controllers/game.controller.ts:22-140 | 400, 404, 400 with no write, in that order, then 500 with no write when `gameId` is absent (its ObjectId cast throws); otherwise 201 with the game saved, the stat folded and gated, and only the user's `currentTier` changed, by the gate |
| GameController.Settle | src/controllers/game.controller.ts:49-128 | the three writes of a validated submission: the games, stats and users tables afterwards |
| GameController.ApplyGates | src/controllers/game.controller.ts:107-128 | both gates applied to the resolved tier of the stat's best score, each saved in place |
| GameController.SettlementNeverLowers | src/controllers/game.controller.ts:113-127 | settlement never lowers the user's tier or the stat's highest tier by `min_score` |
| GameController.MaxKey | src/controllers/game.controller.ts:148 | `$max` of two keys is one of them and above both |
| GameController.GroupMax | src/controllers/game.controller.ts:146-149 | the group maximum bounds every score of that user's games and is one of them when present |
| GameController.GroupKeys | src/controllers/game.controller.ts:146-147 | one bucket per distinct `user` value of the games, and no other |
| GameController.Groups | src/controllers/game.controller.ts:144-150 | each bucket carries its user and that user's `$max` of score |
| GameController.LookupUsers | src/controllers/game.controller.ts:153-161 | `$lookup` plus `$unwind` never adds entries |
| GameController.LookupUsersSound | src/controllers/game.controller.ts:153-168 | every entry belongs to an existing user, carries that user's name and comes from that user's bucket |
| GameController.LookupUsersComplete | src/controllers/game.controller.ts:153-161 | every bucket of an existing user yields an entry |
| GameController.LookupUsersSorted | src/controllers/game.controller.ts:151-161 | dropping unmatched buckets keeps the descending order |
| GameController.LookupUsersDistinct | src/controllers/game.controller.ts:146-161 | one bucket per user gives one entry per user |
| GameController.SortedGroupsDistinct | src/controllers/game.controller.ts:146-151 | sorting the buckets keeps one per user |
| GameController.LeaderboardShape | src/controllers/game.controller.ts:143-173 | at most 10 entries, best first, one per existing user, each with that user's maximum game score |
| GameController.LeaderboardOmitsOnlyOutscored | src/controllers/game.controller.ts:151-152 | a user with a game who is left out was outscored: ten buckets scoring at least as much fill the top 10 |
| GameController.GetUserGames | src/controllers/game.controller.ts:176-181 | exactly that user's games, each as often as in the table, latest `endedAt` first |
| SeasonUpdater.RunningSeason | src/jobs/season-updater.ts:20-24 | the season found holds `now` and is marked active; None means none is |
| SeasonUpdater.DefaultSeason | src/jobs/season-updater.ts:27-37 | the created season is titled after the time and runs from now to three months later, with no rewards |
| SeasonUpdater.DefaultTier | src/jobs/season-updater.ts:46-50 | the tier found is Rookie, level 1, order 1; None means no tier is |
| SeasonUpdater.UserIds | src/jobs/season-updater.ts:55 | the streamed ids are the users' ids in table order, distinct when the table's ids are |
| SeasonUpdater.Tag | src/jobs/season-updater.ts:111-115 | each batch user is paired with the default tier |
| SeasonUpdater.TagAppend | src/jobs/season-updater.ts:59-60 | pairing distributes over concatenation of batches |
| SeasonUpdater.ResetTiers | src/jobs/season-updater.ts:125-128 | every batched user gets the default tier and every other user is unchanged |
| SeasonUpdater.ResetTiersAppend | src/jobs/season-updater.ts:125-128 | resetting two batches in turn is resetting their concatenation |
| SeasonUpdater.FreshIgnoresOthers | src/jobs/season-updater.ts:101-115 | stats of other seasons or users do not affect which stats a batch inserts |
| SeasonUpdater.FreshStep | src/jobs/season-updater.ts:109-115 | the new stats of a batch are decided user by user |
| SeasonUpdater.BackfillHead | src/jobs/season-updater.ts:109-118 | the first step of the user-by-user insertion |
| SeasonUpdater.FreshIsBackfill | src/jobs/season-updater.ts:101-118 | for distinct users, the batch's single `insertMany` equals the seed's user-by-user insertion |
| SeasonUpdater.FreshAdded | src/jobs/season-updater.ts:109-118 | the step of that equality for a first user that lacks a stat |
| SeasonUpdater.FreshExactlyMissing | src/jobs/season-updater.ts:101-115 | the new stats are exactly one per batch user lacking a stat for the season, each with the default tier as its highest |
| SeasonUpdater.FreshEmptyWhenCovered | src/jobs/season-updater.ts:117 | when every batch user has a stat, nothing is inserted |
| SeasonUpdater.SecondBatchRunInsertsNothing | src/jobs/season-updater.ts:109-118 | processing the same batch again inserts no stat |
| SeasonUpdater.ProcessUserBatch | src/jobs/season-updater.ts:92-131 | the stats table gains exactly the batch's new stats, the users table is reset on the batch, and the count of inserted stats is returned |
| SeasonUpdater.FullBatchesExtend | src/jobs/season-updater.ts:62-70 | appending a full batch with the next number keeps the log consecutive and full |
| SeasonUpdater.FullBatchesWell | src/jobs/season-updater.ts:62-70 | a log of full batches is well batched |
| SeasonUpdater.FullBatchesThenLast | src/jobs/season-updater.ts:75-81 | full batches and a non-empty remainder numbered next are well batched |
| SeasonUpdater.DistinctSplit | src/jobs/season-updater.ts:59-60 | the parts of a distinct stream are distinct and disjoint |
| SeasonUpdater.SeasonCronTick | src/jobs/season-updater.ts:15-87 | the running season is used or one is created; a missing default tier or a refused season leaves users and stats alone; a completed run partitions every user into batches of 200, backfills their stats and resets their tiers |
| SeasonUpdater.ProcessAllUsers | src/jobs/season-updater.ts:55-82 | the batches, numbered from 1, hold every user once, all but the last have 200 users and the last is non-empty; the tables are those of processing all users |
| SeasonUpdater.StreamOne | src/jobs/season-updater.ts:59-71 | one streamed user joins the open batch, which is processed and emptied when it reaches 200 |
| SeasonUpdater.RunBatch | src/jobs/season-updater.ts:63-70 | one `processUserBatch` call adds its batch to the log with the next number |
| SeasonUpdater.SecondTickChangesNothing | src/jobs/season-updater.ts:55-128 | a second tick in the same season inserts no stat and leaves the tiers as the first set them |
| DailyReward.EstimatedAdEarnings | src/jobs/dailyReward.ts:35-36 | estimated ad earnings are non-negative for non-negative counters |
| DailyReward.ScaledAdEarnings | src/jobs/dailyReward.ts:39-40 | scaled earnings lie between 0 and the estimate, equal it at 1000 points or more and are 0 without score |
| DailyReward.MulBounds | src/jobs/dailyReward.ts:39-40 | scaling by a factor in [0, 1] never increases a non-negative amount |
| DailyReward.CappedAdEarnings | src/jobs/dailyReward.ts:43-46 | capped earnings are at most the scaled earnings and at most 40% of the score |
| DailyReward.DailyCoins | src/jobs/dailyReward.ts:49-50 | coins are the floor of (score + capped earnings) / 10; 0 with no score; between `score / 10` and 14% of the score for non-negative inputs |
| DailyReward.TodayScore | src/jobs/dailyReward.ts:22-27 | the sum of today's game scores of the user: 0 without such games and non-negative for non-negative scores |
| DailyReward.Credit | src/jobs/dailyReward.ts:53-56 | `coin_earned` grows by the coins, or becomes NaN when the user has none; the ad counters become zero; nothing else changes |
| DailyReward.DailyRewardTick | src/jobs/dailyReward.ts:15-59 | on a games table as settlement leaves it (a game that names its user has a score), every user, in table order, is credited with its day's coins and reset; a user with no `coin_earned` ends with NaN |
| DailyReward.DailyCoinsExample | src/jobs/dailyReward.ts:35-50 | 100 points and ten rewarded ads give 10 coins |
| SeasonUtils.TierFromScore | src/utils/season.utils.ts:1-7 | the tier is in 1..5, its lower threshold (inclusive) is reached and the next one is not |
| SeasonUtils.TierFromScoreMonotone | src/utils/season.utils.ts:2-6 | a higher score never gives a lower tier |
| SeasonUtils.TierFromScoreBoundaries | src/utils/season.utils.ts:2-6 | the edges of every band, and a negative score gives 1 |
| RewardUtils.CoinsFromScore | src/utils/reward.utils.ts:3 | `10 * c <= score < 10 * c + 10` |
| RewardUtils.CalculateReward | src/utils/reward.utils.ts:1-4 | the reward minus 5 per game is the floor of score / 10 |
| RewardUtils.CalculateRewardMonotone | src/utils/reward.utils.ts:3 | non-decreasing in the score and in the number of games |
| RewardUtils.CalculateRewardPerGame | src/utils/reward.utils.ts:3 | each extra game adds exactly 5 |
| RewardUtils.CalculateRewardSmallScore | src/utils/reward.utils.ts:3 | for 0 <= score < 10 the reward is 5 per game |
| RewardService.FinalReward | src/services/reward.service.ts:15-19 | the reward is one of the two floors and at most both, so at most `floor(0.6 * games)`; 0 with no games and a non-negative score |
| RewardService.FloorMonotone | src/services/reward.service.ts:19 | floor is monotone |
| RewardService.TodayStat | src/services/reward.service.ts:9-11 | the first daily stat dated today, or None when there is none |
| RewardService.Awarded | src/services/reward.service.ts:9-21 | unchanged without an unawarded stat for today; otherwise `totalCoins` grows by the reward (NaN when unset), today's stat records the reward, the other stats and fields are kept |
| RewardService.AwardedOnce | src/services/reward.service.ts:13-21 | a second call on the same day changes nothing |
| RewardService.TodayStatAt | src/services/reward.service.ts:9-11 | the first stat dated today is found where it is |
| RewardService.CalculateDailyRewardIfNotGiven | src/services/reward.service.ts:3-24 | throws exactly when the user has no `dailyStats`, with no write; otherwise the user's row is replaced by the awarded user and nothing else changes |
| OtpService.OtpStore.StoreOtp | src/services/otp.service.ts:8-13 | the record for the email is replaced by the code expiring five minutes from now; other emails are unchanged |
| OtpService.OtpStore.VerifyOtp | src/services/otp.service.ts:15-20 | false without a record or after expiry, and otherwise true exactly when the codes match |
| OtpService.StoreThenVerify | src/services/otp.service.ts:8-20 | a stored code verifies at any time up to its expiry |
| OtpService.ExpiredNeverVerifies | src/services/otp.service.ts:18 | after expiry no code verifies |
| SeasonService.NewSeasonStat | src/services/season.service.ts:27-35 | missing numbers become 0 and a missing tier "Bronze" |
| SeasonService.HasSeason | src/services/season.service.ts:22-24 | true exactly when some entry has the season id |
| SeasonService.AppendKeepsDistinct | src/services/season.service.ts:22-35 | after the duplicate check, appending keeps the season ids distinct |
| SeasonService.AddSeasonStatToUser | src/services/season.service.ts:14-39 | an unknown user, a user without `seasonStats` (a TypeError) or a present season is an error with no change; otherwise exactly one entry is appended |
| DefaultStat.Carried | src/seed/default-stat.ts:18-29 | each user paired with its `currentTier` |
| DefaultStat.CreateStatsForNewSeason | src/seed/default-stat.ts:5-36 | nothing without a running season; otherwise the stats of users lacking one are inserted in user order; the unique index is kept |
| DefaultStat.SeedAddsOnlyMissing | src/seed/default-stat.ts:18-30 | existing stats are kept and each added stat is for a user that had none, carrying that user's `currentTier` |
| DefaultStat.SeedSecondRunCreatesNothing | src/seed/default-stat.ts:18-34 | afterwards every user has a stat, so a second run creates nothing |
| UserStatModel.NewUserStat | src/models/user-stat.model.ts:10-38 | counters default to 0 and the highest tier to none |
| UserStatModel.StatIndex | src/seed/default-stat.ts:20-23 | the first stat of the (user, season) pair, or None when there is none |
| UserStatModel.HasStatAppend | src/models/user-stat.model.ts:43 | after an append, a pair has a stat exactly when it had one or the new stat is its |
| UserStatModel.Insert | src/models/user-stat.model.ts:43 | the unique index refuses exactly a second stat of a pair, and keeps uniqueness otherwise |
| UserStatModel.SecondInsertConflicts | src/models/user-stat.model.ts:43 | a second stat for the same pair is always refused |
| UserStatModel.PreSave | src/models/user-stat.model.ts:46-52 | only the highest tier changes, only when absent, to the owner's `currentTier` when the owner exists |
| UserStatModel.PreSaveIdempotent | src/models/user-stat.model.ts:46-52 | running the hook twice is running it once |
| UserStatModel.BackfillAppend | src/seed/default-stat.ts:18-34 | inserting for two lists of users in turn is inserting for their concatenation |
| UserStatModel.BackfillExtends | src/seed/default-stat.ts:18-34 | existing stats are kept, and each added stat is for a pending user that had none |
| UserStatModel.BackfillCovers | src/seed/default-stat.ts:18-34 | afterwards every pending user has a stat for the season |
| UserStatModel.BackfillKeepsHasStat | src/seed/default-stat.ts:18-34 | a user who had a stat still has one |
| UserStatModel.BackfillNoop | src/seed/default-stat.ts:25 | when every pending user has a stat nothing is inserted |
| UserStatModel.BackfillIdempotent | src/seed/default-stat.ts:18-34 | a second insertion inserts nothing |
| UserStatModel.BackfillUnique | src/models/user-stat.model.ts:43 | the insertion never violates the unique (user, season) index |
| UserController.ParseAdKind | src/controllers/user.controller.ts:54-60 | each of the three accepted types is recognised, and exactly the other values are refused |
| UserController.Bump | src/controllers/user.controller.ts:71 | the named counter grows by the count and the other two are unchanged |
| UserController.BumpTwice | src/controllers/user.controller.ts:71 | two increments of a counter are one increment by their sum |
| UserController.Watched | src/controllers/user.controller.ts:54-71 | absent counters start from zero and the count defaults to 1 |
| UserController.IncrementAdsWatched | src/controllers/user.controller.ts:51-82 | 400 for a malformed id, then 400 for a bad type, then 404, each with no change; otherwise only the user's counters change and are returned |
| UserController.Patched | src/controllers/user.controller.ts:38-40 | each of name, phone and picture is overwritten only when supplied non-empty; every other field is kept |
| UserController.PatchedIdempotent | src/controllers/user.controller.ts:38-40 | sending the same change twice is sending it once |
| UserController.PatchedNothing | src/controllers/user.controller.ts:38-40 | a body with no non-empty field changes nothing |
| UserController.UpdateUserInfo | src/controllers/user.controller.ts:27-48 | 400 for a malformed id, then 404, with no change; otherwise only that user is patched |
| TierController.TierTitleInjective | src/controllers/tier.controller.ts:14 | different (category, level) pairs never share a title |
| TierController.TierTitled | src/controllers/tier.controller.ts:17 | the tier found carries the title, and None means no tier does |
| TierController.NewTier | src/controllers/tier.controller.ts:14-30 | the saved tier is titled "category level", carries the request's fields and the default multiplier 0.2 when none is given (src/models/tier.model.ts:15-21), and no score bounds |
| TierController.CreateTier | src/controllers/tier.controller.ts:5-38 | 400 for a missing or falsy category or level, then 409 for a taken title, each with no insert; otherwise exactly one tier is appended; unique titles and ids are kept |
| TierController.GetTiers | src/controllers/tier.controller.ts:42 | every tier, ascending by `overall_order`, as a permutation of the table |
| TierController.UpdatedTitle | src/controllers/tier.controller.ts:52-54 | the title is recomputed exactly when the update has a truthy category and level |
| TierController.Edited | src/controllers/tier.controller.ts:56-59 | every field the update carries overwrites the stored one; the others are kept |
| TierController.EditedIdempotent | src/controllers/tier.controller.ts:56-59 | applying the same update twice is applying it once |
| TierController.EditedTitleMatches | src/controllers/tier.controller.ts:52-54 | an edit with both category and level leaves a title derived from them |
| TierController.EditTier | src/controllers/tier.controller.ts:47-68 | 404 for an unknown id with no change; a title held by another tier is refused by the unique index and the request fails; otherwise only that tier is replaced; unique titles and the ids are kept |
| TierController.DeleteTier | src/controllers/tier.controller.ts:71-82 | 404 for an unknown id with no change; otherwise exactly that tier is removed |
| SeasonController.NewSeason | src/controllers/season.controller.ts:14-19 | the start defaults to now (src/models/season.model.ts:11-15), the rewards to none, and the season is neither active nor given a status |
| SeasonController.CreateSeason | src/controllers/season.controller.ts:5-23 | 409 with no insert for a taken title; otherwise exactly one season is appended; unique titles and ids are kept |
| SeasonController.GetSeasons | src/controllers/season.controller.ts:27 | every season, latest start first, as a permutation of the table |
| SeasonController.GetActiveSeason | src/controllers/season.controller.ts:34-46 | 200 exactly when some season's window holds now (both ends inclusive), returning such a season; 404 otherwise |
| SeasonController.Updated | src/controllers/season.controller.ts:51-56 | every field the body carries (title, dates, rewards, `isActive`, `status`) overwrites the stored one; the others are kept |
| SeasonController.UpdatedIdempotent | src/controllers/season.controller.ts:53-56 | applying the same update twice is applying it once |
| SeasonController.UpdatedNothing | src/controllers/season.controller.ts:53-56 | an empty update changes nothing |
| SeasonController.UpdateSeason | src/controllers/season.controller.ts:49-63 | 404 for an unknown id with no change; a title held by another season is refused by the unique index and the request fails; otherwise only that season is replaced; unique titles and the ids are kept |
| SeasonController.DeleteSeason | src/controllers/season.controller.ts:66-76 | 404 for an unknown id with no change; otherwise exactly that season is removed |
| UserItemController.Owned | src/controllers/userItem.controller.ts:23-26 | the item found is the (user, store item) pair, and None means no item is |
| UserItemController.Purchase | src/controllers/userItem.controller.ts:31-34 | a purchase is the pair, bought now and not equipped (src/models/user-item.model.ts:15-24) |
| UserItemController.PurchaseThenOwned | src/controllers/userItem.controller.ts:23-36 | once bought, the pair is owned, so buying it again is refused |
| UserItemController.CreateUserItem | src/controllers/userItem.controller.ts:9-40 | 400, then 404 for an unknown store item, then 409 for an owned pair, each with no insert; otherwise exactly one purchase is appended; unique pairs (src/models/user-item.model.ts:30) and ids are kept |
| UserItemController.ItemsOf | src/controllers/userItem.controller.ts:53-55 | exactly that user's items, each as often as in the table, latest purchase first |
| UserItemController.GetUserItems | src/controllers/userItem.controller.ts:46-58 | 400 with no items without `userId`; otherwise that user's items |
| UserItemController.DeleteUserItem | src/controllers/userItem.controller.ts:98-107 | 404 for an unknown id with no change; otherwise exactly that item is removed; unique pairs are kept |
| StoreController.NewStoreItem | src/controllers/store.controller.ts:35-41 | the saved item carries the request's fields, is available unless told otherwise (src/models/store.model.ts:38-41) and is created now |
| StoreController.CreateStoreItem | src/controllers/store.controller.ts:13-47 | 400 for a falsy field (a zero price included), then 400 for an item type other than Bird, then 404 for an unknown bird, each with no insert; otherwise exactly one item is appended |
| StoreController.EmptyQueryMatchesAll | src/controllers/store.controller.ts:55-69 | a query without parameters filters nothing |
| StoreController.AvailabilityFilter | src/controllers/store.controller.ts:61-62 | any `isAvailable` value other than "true" selects unavailable items |
| StoreController.GetAllStoreItems | src/controllers/store.controller.ts:53-88 | exactly the items matching every supplied filter, each as often as in the table, newest first |
| StoreController.MinPriceNarrows | src/controllers/store.controller.ts:65-69 | adding a minimum price only drops items, and keeps those at or above it |

## Left out

- HTTP and Express plumbing: routes, request parsing, response bodies and messages. Only the status codes and the table effects are modelled.
- Mongoose schema validation is not modelled. This covers `min`/`max`/`enum` bounds, `runValidators`, `trim` on titles, and required fields. The model therefore lets these writes succeed, though a required field is missing in each:
  - a created tier has no `min_exp_required`;
  - `gameStart`'s `Game.create` sets none of the required `score`, `duration`, `startedAt` and `endedAt`, and the handler has no try/catch;
  - `saveGameResult`'s `new Game` has no required `userId`, so its `save()` throws and the catch answers 500. As the schema stands, only a resubmission of an existing game reaches 201 in the source.
- Strict mode is not modelled either. Fields the shown schemas do not declare are plain fields, kept as the code writes them:
  - the tier's `category`, `level`, `min_exp`, `max_exp`, `min_score`, `max_score` and `overall_order` (the schema has `lvl` and `min_exp_required`);
  - the season's `rewards`, `isActive` and `status`;
  - the game's `user` and `startTime` (the schema has `userId`). As the schema stands no saved game carries `user`, so the leaderboard's `$group` on `$user`, `getUserGames`' `find({ user })` and the daily sweep's game query all key on a field that is never stored; the model keys them on the `user` that settlement writes;
  - the user's counters and stat lists. No code creates a user with `coin_earned`, `totalCoins`, `dailyStats` or `seasonStats`, so these are optional: `+=` on an unset counter gives NaN (`Models.NumField`), and reading an absent list throws.
- Malformed ObjectIds. `isValid` in the user handlers is modelled as `IdParam`. Elsewhere an id that cannot be cast raises a CastError, and that 500 path is not modelled: every id is a well-formed `nat`. The one exception is an absent `gameId` in `saveGameResult`: `findById({ _id: undefined })` casts the object itself and throws, which `SaveGameResult` models as 500 with no write.
- Thrown database errors are not modelled, apart from a unique-index rejection. `editTier` and `updateSeason` have no try/catch, so when the index refuses a title another row holds the request fails and no table changes; the model shows that outcome as `ServerError`, whatever status the Express version then sends.
- `Season.updateSeasonStatuses` and `refreshSeasonStatuses`: the static is not defined in the season schema. The cron tick starts from the season table as that call leaves it.
- `SeasonCronTick`: a created season titled after the current time can collide with an existing title. The model then fails the tick with no user or stat change; the source would throw and be caught.
- `ProcessUserBatch`: `insertMany` does not run the pre-save hook, and the model does not run it either. It appends the batch's stats without a unique-index check, which is safe because the stats are built only for users without one.
- The `$text` search parameter of `getAllStoreItems`, and `populate` of the returned items in `getAllStoreItems` (`itemId`) and `getUserItems` (`storeItem`): `StoreController.GetAllStoreItems` and `UserItemController.ItemsOf` return the rows themselves.
- Price bounds of the store query arrive as integers, so `Number()` of a non-numeric string (NaN) and fractional prices are not modelled.
- `ITEM_MODELS` lookups of inherited keys such as "constructor": only the own key "Bird" is modelled.
- `createSeason` with no `title`: `findOne({ title: undefined })` then matches any season, which the model does not express; the title is a string.
- IEEE-754 floating point: the formulas use exact `real` arithmetic, so binary rounding of 0.08, 0.25, 0.4, 0.3 and 0.05 is not modelled.
- Date arithmetic: "now", the start of the day and "three months later" are parameters, times are integers, and `setHours`/`setMonth` are not modelled.
- Cron scheduling and the interleaving of concurrent handlers: each tick and request is one sequential call.
- OTP generation (`generateOtp`, random) and sending (`sendOtpEmail`, nodemailer) are foreign calls and are left out.
- The order of ties in sorts. `Ordering.SortBy` is a stable insertion sort; the contracts state the order by key and the multiset of rows, not where rows with equal keys land.
- Generated ObjectIds: a created document's id is a parameter with a freshness precondition.
- `getUserDetails`, `getUserItemById`, `updateUserItem`, `getStoreItemById`, `updateStoreItem` and `deleteStoreItem` lie outside the modelled core.
- RewardService.Awarded: `coinsAwarded` is an `Option<int>` (see `Unawarded`), so a stored `null` cannot be expressed. The source's `!== undefined` test would treat `null` as already awarded.
- SeasonService.AddSeasonStatToUser: the service default-imports `User`, which the user model exports only by name. As written, the lookup is `undefined.findById` and every call rejects. The model assumes the import works.
- Authentication, JWT, OAuth, uploads, Razorpay payouts and the find-or-create seeds for birds, seasons and tiers are not part of this model.
