/** The UserStat collection: field defaults, the unique (user, season) index,
    the pre-save hook, and the insertion of stats for users that lack one
    (shared by the default-stat seed and the season rollover). */
module UserStatModel {
  import opened Base
  import opened Models

  /** A stat as the schema defaults make it: all counters 0, no highest tier. */
  function NewUserStat(user: Id, season: Id): (s: UserStat)
    ensures s.user == user && s.season == season
    ensures s.gamesPlayed == 0 && s.adsWatched == 0 && s.coinsEarned == 0 && s.bestScore == 0
    ensures s.highestTier.None?
  {
    UserStat(user, season, 0, 0, 0, 0, None)
  }

  predicate IsStatOf(s: UserStat, user: Id, season: Id) {
    s.user == user && s.season == season
  }

  /** `UserStat.findOne({ user, season })`: the first matching stat. */
  function StatIndex(stats: seq<UserStat>, user: Id, season: Id): (k: Option<nat>)
    ensures k.Some? ==> k.value < |stats| && IsStatOf(stats[k.value], user, season)
    ensures k.Some? ==> forall j :: 0 <= j < k.value ==> !IsStatOf(stats[j], user, season)
    ensures k.None? ==> forall j :: 0 <= j < |stats| ==> !IsStatOf(stats[j], user, season)
  {
    if |stats| == 0 then None
    else if IsStatOf(stats[0], user, season) then Some(0)
    else match StatIndex(stats[1..], user, season)
      case None => None
      case Some(k) => Some(k + 1)
  }

  predicate HasStat(stats: seq<UserStat>, user: Id, season: Id) {
    StatIndex(stats, user, season).Some?
  }

  /** The unique index `{ user: 1, season: 1 }`. */
  ghost predicate StatsUnique(stats: seq<UserStat>) {
    forall i, j :: 0 <= i < j < |stats| ==> !IsStatOf(stats[j], stats[i].user, stats[i].season)
  }

  lemma HasStatAppend(stats: seq<UserStat>, s: UserStat, user: Id, season: Id)
    ensures HasStat(stats + [s], user, season) <==> HasStat(stats, user, season) || IsStatOf(s, user, season)
  {
    var t := stats + [s];
    if HasStat(stats, user, season) {
      var k := StatIndex(stats, user, season).value;
      assert IsStatOf(t[k], user, season);
    } else if IsStatOf(s, user, season) {
      assert IsStatOf(t[|stats|], user, season);
    } else {
      assert forall j :: 0 <= j < |t| ==> !IsStatOf(t[j], user, season) by {
        forall j | 0 <= j < |t| ensures !IsStatOf(t[j], user, season) {
          if j < |stats| { assert t[j] == stats[j]; }
        }
      }
    }
  }

  /** Inserting through the unique index: refused when the pair already has a stat. */
  function Insert(stats: seq<UserStat>, s: UserStat): (r: Option<seq<UserStat>>)
    ensures r.None? <==> HasStat(stats, s.user, s.season)
    ensures r.Some? ==> r.value == stats + [s]
    ensures StatsUnique(stats) && r.Some? ==> StatsUnique(r.value)
  {
    if HasStat(stats, s.user, s.season) then None else Some(stats + [s])
  }

  /** A second stat for the same (user, season) is always refused. */
  lemma SecondInsertConflicts(stats: seq<UserStat>, s: UserStat, t: UserStat)
    requires Insert(stats, s).Some? && IsStatOf(t, s.user, s.season)
    ensures Insert(Insert(stats, s).value, t).None?
  {
    HasStatAppend(stats, s, t.user, t.season);
  }

  /** The pre-save hook: a stat without `highest_tier_reached` takes its user's
      `currentTier`, when the user exists and has one. */
  function PreSave(stat: UserStat, users: seq<Row<User>>): (s: UserStat)
    ensures s.(highestTier := stat.highestTier) == stat
    ensures stat.highestTier.Some? ==> s.highestTier == stat.highestTier
    ensures stat.highestTier.None? ==>
      match FindDoc(users, stat.user)
      case Some(u) => s.highestTier == u.currentTier
      case None => s.highestTier.None?
  {
    if stat.highestTier.Some? then stat
    else match FindDoc(users, stat.user)
      case Some(u) => if u.currentTier.Some? then stat.(highestTier := u.currentTier) else stat
      case None => stat
  }

  lemma PreSaveIdempotent(stat: UserStat, users: seq<Row<User>>)
    ensures PreSave(PreSave(stat, users), users) == PreSave(stat, users)
  {
  }

  /** A user waiting for a stat, with the tier to record as its highest. */
  datatype Pending = Pending(user: Id, tier: Option<Id>)

  function StatFor(p: Pending, season: Id): UserStat {
    NewUserStat(p.user, season).(highestTier := p.tier)
  }

  /** Users taken in order; each one lacking a stat for `season` gets one. */
  function Backfill(stats: seq<UserStat>, pending: seq<Pending>, season: Id): seq<UserStat>
    decreases |pending|
  {
    if |pending| == 0 then stats
    else
      var p := pending[0];
      Backfill(if HasStat(stats, p.user, season) then stats else stats + [StatFor(p, season)],
               pending[1..], season)
  }

  lemma {:induction false} BackfillAppend(stats: seq<UserStat>, xs: seq<Pending>, ys: seq<Pending>, season: Id)
    ensures Backfill(stats, xs + ys, season) == Backfill(Backfill(stats, xs, season), ys, season)
    decreases |xs|
  {
    if |xs| > 0 {
      assert (xs + ys)[1..] == xs[1..] + ys;
      var p := xs[0];
      var next := if HasStat(stats, p.user, season) then stats else stats + [StatFor(p, season)];
      BackfillAppend(next, xs[1..], ys, season);
    } else {
      assert xs + ys == ys;
    }
  }

  /** Existing stats are kept as they are, and every added stat belongs to
      `season` and to a pending user that had no stat for it. */
  lemma {:induction false} BackfillExtends(stats: seq<UserStat>, pending: seq<Pending>, season: Id)
    ensures var r := Backfill(stats, pending, season);
      |r| >= |stats| && r[..|stats|] == stats &&
      forall k :: |stats| <= k < |r| ==>
        exists j :: 0 <= j < |pending| && r[k] == StatFor(pending[j], season) &&
                    !HasStat(stats, pending[j].user, season)
    decreases |pending|
  {
    if |pending| > 0 {
      var p := pending[0];
      var lacking := !HasStat(stats, p.user, season);
      var next := if lacking then stats + [StatFor(p, season)] else stats;
      BackfillExtends(next, pending[1..], season);
      var r := Backfill(stats, pending, season);
      assert r == Backfill(next, pending[1..], season);
      assert r[..|stats|] == stats by {
        assert r[..|next|] == next;
        assert next[..|stats|] == stats;
      }
      forall k | |stats| <= k < |r|
        ensures exists j :: 0 <= j < |pending| && r[k] == StatFor(pending[j], season) &&
                            !HasStat(stats, pending[j].user, season)
      {
        if k < |next| {
          assert lacking && k == |stats| && r[k] == next[k];
          assert r[k] == StatFor(pending[0], season);
        } else {
          var j :| 0 <= j < |pending[1..]| && r[k] == StatFor(pending[1..][j], season) &&
                   !HasStat(next, pending[1..][j].user, season);
          if lacking { HasStatAppend(stats, StatFor(p, season), pending[1..][j].user, season); }
          assert pending[1..][j] == pending[j + 1];
        }
      }
    }
  }

  /** Afterwards every pending user has a stat for `season`. */
  lemma {:induction false} BackfillCovers(stats: seq<UserStat>, pending: seq<Pending>, season: Id)
    ensures forall j :: 0 <= j < |pending| ==> HasStat(Backfill(stats, pending, season), pending[j].user, season)
    decreases |pending|
  {
    if |pending| > 0 {
      var p := pending[0];
      var next := if HasStat(stats, p.user, season) then stats else stats + [StatFor(p, season)];
      HasStatAppend(stats, StatFor(p, season), p.user, season);
      assert HasStat(next, p.user, season);
      BackfillCovers(next, pending[1..], season);
      BackfillKeepsHasStat(next, pending[1..], season, p.user);
      forall j | 1 <= j < |pending|
        ensures HasStat(Backfill(stats, pending, season), pending[j].user, season)
      {
        assert pending[j] == pending[1..][j - 1];
      }
    }
  }

  lemma {:induction false} BackfillKeepsHasStat(stats: seq<UserStat>, pending: seq<Pending>, season: Id, user: Id)
    requires HasStat(stats, user, season)
    ensures HasStat(Backfill(stats, pending, season), user, season)
    decreases |pending|
  {
    if |pending| > 0 {
      var p := pending[0];
      if !HasStat(stats, p.user, season) {
        HasStatAppend(stats, StatFor(p, season), user, season);
      }
      var next := if HasStat(stats, p.user, season) then stats else stats + [StatFor(p, season)];
      BackfillKeepsHasStat(next, pending[1..], season, user);
    }
  }

  /** When every pending user already has a stat, nothing is inserted. */
  lemma {:induction false} BackfillNoop(stats: seq<UserStat>, pending: seq<Pending>, season: Id)
    requires forall j :: 0 <= j < |pending| ==> HasStat(stats, pending[j].user, season)
    ensures Backfill(stats, pending, season) == stats
    decreases |pending|
  {
    if |pending| > 0 {
      assert HasStat(stats, pending[0].user, season);
      BackfillNoop(stats, pending[1..], season);
    }
  }

  /** Running the insertion a second time inserts nothing. */
  lemma BackfillIdempotent(stats: seq<UserStat>, pending: seq<Pending>, season: Id)
    ensures Backfill(Backfill(stats, pending, season), pending, season) == Backfill(stats, pending, season)
  {
    BackfillCovers(stats, pending, season);
    BackfillNoop(Backfill(stats, pending, season), pending, season);
  }

  /** The unique (user, season) index is never violated by the insertion. */
  lemma {:induction false} BackfillUnique(stats: seq<UserStat>, pending: seq<Pending>, season: Id)
    requires StatsUnique(stats)
    ensures StatsUnique(Backfill(stats, pending, season))
    decreases |pending|
  {
    if |pending| > 0 {
      var p := pending[0];
      var next := if HasStat(stats, p.user, season) then stats else stats + [StatFor(p, season)];
      assert StatsUnique(next) by {
        if !HasStat(stats, p.user, season) {
          assert Insert(stats, StatFor(p, season)) == Some(next);
        }
      }
      BackfillUnique(next, pending[1..], season);
    }
  }
}
