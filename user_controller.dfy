/** `incrementAdsWatched` and `updateUserInfo`: in-place updates of one user. */
module UserController {
  import opened Base
  import opened Models

  /** A `:userId` path parameter: a well-formed ObjectId, or a string that is not one. */
  datatype IdParam = WellFormed(id: Id) | Malformed

  datatype AdKind = Banner | Interstitial | Rewarded

  /** The accepted `type` values; anything else, or no `type`, is refused. */
  function ParseAdKind(s: Option<string>): (k: Option<AdKind>)
    ensures k == Some(Banner) <==> s == Some("banner")
    ensures k == Some(Interstitial) <==> s == Some("interstitial")
    ensures k == Some(Rewarded) <==> s == Some("rewarded")
    ensures k.None? <==> s !in {Some("banner"), Some("interstitial"), Some("rewarded")}
  {
    match s
    case Some("banner") => Some(Banner)
    case Some("interstitial") => Some(Interstitial)
    case Some("rewarded") => Some(Rewarded)
    case _ => None
  }

  function Counter(c: AdCounters, kind: AdKind): int {
    match kind
    case Banner => c.banner
    case Interstitial => c.interstitial
    case Rewarded => c.rewarded
  }

  /** `adsWatchedToday[type] += count`: the named counter grows by `count`, the
      other two keep their values. */
  function Bump(c: AdCounters, kind: AdKind, count: int): (r: AdCounters)
    ensures Counter(r, kind) == Counter(c, kind) + count
    ensures forall k: AdKind :: k != kind ==> Counter(r, k) == Counter(c, k)
  {
    match kind
    case Banner => c.(banner := c.banner + count)
    case Interstitial => c.(interstitial := c.interstitial + count)
    case Rewarded => c.(rewarded := c.rewarded + count)
  }

  /** Two increments of one counter add up to a single increment by their sum. */
  lemma BumpTwice(c: AdCounters, kind: AdKind, x: int, y: int)
    ensures Bump(Bump(c, kind, x), kind, y) == Bump(c, kind, x + y)
  {
    var r, s := Bump(Bump(c, kind, x), kind, y), Bump(c, kind, x + y);
    assert forall k: AdKind :: Counter(r, k) == Counter(s, k);
    assert Counter(r, Banner) == Counter(s, Banner);
    assert Counter(r, Interstitial) == Counter(s, Interstitial);
    assert Counter(r, Rewarded) == Counter(s, Rewarded);
  }

  /** The counters after the handler: absent counters start from zero. */
  function Watched(u: User, kind: AdKind, count: Option<int>): (r: AdCounters)
    ensures u.adsWatchedToday.None? ==>
      Counter(r, kind) == count.GetOr(1) &&
      forall k: AdKind :: k != kind ==> Counter(r, k) == 0
    ensures u.adsWatchedToday.Some? ==>
      Counter(r, kind) == Counter(u.adsWatchedToday.value, kind) + count.GetOr(1) &&
      forall k: AdKind :: k != kind ==> Counter(r, k) == Counter(u.adsWatchedToday.value, k)
  {
    Bump(u.adsWatchedToday.GetOr(NoAds), kind, count.GetOr(1))
  }

  /** The handler on the user table; on success it also returns the new counters. */
  method IncrementAdsWatched(db: Db, userId: IdParam, kind: Option<string>, count: Option<int>)
    returns (status: Status, counters: Option<AdCounters>)
    modifies db`users
    ensures userId.Malformed? ==> status == BadRequest && db.users == old(db.users)
    ensures userId.WellFormed? && ParseAdKind(kind).None? ==>
      status == BadRequest && db.users == old(db.users)
    ensures userId.WellFormed? && ParseAdKind(kind).Some? && userId.id !in Ids(old(db.users)) ==>
      status == NotFound && db.users == old(db.users)
    ensures status == Ok <==>
      userId.WellFormed? && ParseAdKind(kind).Some? && userId.id in Ids(old(db.users))
    ensures status == Ok ==>
      var k := IndexOf(old(db.users), userId.id).value;
      var u := old(db.users)[k].doc;
      var c := Watched(u, ParseAdKind(kind).value, count);
      counters == Some(c) &&
      db.users == old(db.users)[k := Row(userId.id, u.(adsWatchedToday := Some(c)))]
    ensures status != Ok ==> counters.None?
  {
    counters := None;
    if userId.Malformed? {
      return BadRequest, None;
    }
    var parsed := ParseAdKind(kind);
    if parsed.None? {
      return BadRequest, None;
    }
    var found := IndexOf(db.users, userId.id);
    if found.None? {
      return NotFound, None;
    }
    var k := found.value;
    var user := db.users[k].doc;
    var current := if user.adsWatchedToday.Some? then user.adsWatchedToday.value else NoAds;
    current := Bump(current, parsed.value, count.GetOr(1));
    user := user.(adsWatchedToday := Some(current));
    db.users := db.users[k := Row(userId.id, user)];
    status, counters := Ok, Some(current);
  }

  /** JavaScript truthiness of an optional string field of the body. */
  predicate Truthy(s: Option<string>) {
    s.Some? && s.value != ""
  }

  /** The profile change: each of `name`, `phone`, `profilePic` is overwritten only
      when supplied non-empty; every other field is kept. */
  function Patched(u: User, name: Option<string>, phone: Option<string>, pic: Option<string>): (r: User)
    ensures r.(name := u.name, phone := u.phone, profilePic := u.profilePic) == u
    ensures r.name == (if Truthy(name) then name.value else u.name)
    ensures r.phone == (if Truthy(phone) then phone.value else u.phone)
    ensures r.profilePic == (if Truthy(pic) then pic.value else u.profilePic)
  {
    var u1 := if Truthy(name) then u.(name := name.value) else u;
    var u2 := if Truthy(phone) then u1.(phone := phone.value) else u1;
    if Truthy(pic) then u2.(profilePic := pic.value) else u2
  }

  /** Sending the same change twice is the same as sending it once. */
  lemma PatchedIdempotent(u: User, name: Option<string>, phone: Option<string>, pic: Option<string>)
    ensures Patched(Patched(u, name, phone, pic), name, phone, pic) == Patched(u, name, phone, pic)
  {
  }

  /** A body whose three fields are all absent or empty changes nothing. */
  lemma PatchedNothing(u: User, name: Option<string>, phone: Option<string>, pic: Option<string>)
    requires !Truthy(name) && !Truthy(phone) && !Truthy(pic)
    ensures Patched(u, name, phone, pic) == u
  {
  }

  method UpdateUserInfo(db: Db, userId: IdParam, name: Option<string>, phone: Option<string>, pic: Option<string>)
    returns (status: Status)
    modifies db`users
    ensures userId.Malformed? ==> status == BadRequest && db.users == old(db.users)
    ensures userId.WellFormed? && userId.id !in Ids(old(db.users)) ==>
      status == NotFound && db.users == old(db.users)
    ensures status == Ok <==> userId.WellFormed? && userId.id in Ids(old(db.users))
    ensures status == Ok ==>
      var k := IndexOf(old(db.users), userId.id).value;
      db.users == old(db.users)[k := Row(userId.id, Patched(old(db.users)[k].doc, name, phone, pic))]
  {
    if userId.Malformed? {
      return BadRequest;
    }
    var found := IndexOf(db.users, userId.id);
    if found.None? {
      return NotFound;
    }
    var k := found.value;
    var user := db.users[k].doc;
    if Truthy(name) { user := user.(name := name.value); }
    if Truthy(phone) { user := user.(phone := phone.value); }
    if Truthy(pic) { user := user.(profilePic := pic.value); }
    db.users := db.users[k := Row(userId.id, user)];
    status := Ok;
  }
}
