/** Shared vocabulary of the model: optional values, document ids, table rows,
    the HTTP statuses the controllers answer with, and number rendering. */
module Base {

  datatype Option<T> = None | Some(value: T) {
    function GetOr(default: T): T {
      match this
      case Some(v) => v
      case None => default
    }
  }

  /** A document id (a MongoDB ObjectId); how ids are generated is outside the model. */
  type Id = nat

  /** One document of a collection together with its `_id`. */
  datatype Row<T> = Row(id: Id, doc: T)

  /** The HTTP status codes the modelled handlers respond with. */
  datatype Status = Ok | Created | BadRequest | PaymentRequired | NotFound | Conflict | ServerError {
    function Code(): int {
      match this
      case Ok => 200
      case Created => 201
      case BadRequest => 400
      case PaymentRequired => 402
      case NotFound => 404
      case Conflict => 409
      case ServerError => 500
    }
  }

  /** The ids present in a table. */
  function Ids<T>(rows: seq<Row<T>>): set<Id> {
    set i | 0 <= i < |rows| :: rows[i].id
  }

  /** `_id` is a primary key: no two rows share one. */
  ghost predicate UniqueIds<T>(rows: seq<Row<T>>) {
    forall i, j :: 0 <= i < j < |rows| ==> rows[i].id != rows[j].id
  }

  /** `findById`: the position of the first row carrying `id`, if any. */
  function IndexOf<T>(rows: seq<Row<T>>, id: Id): (r: Option<nat>)
    ensures r.Some? ==> r.value < |rows| && rows[r.value].id == id
    ensures r.Some? ==> forall j :: 0 <= j < r.value ==> rows[j].id != id
    ensures r.None? <==> id !in Ids(rows)
  {
    if |rows| == 0 then None
    else if rows[0].id == id then Some(0)
    else
      var rest := IndexOf(rows[1..], id);
      assert Ids(rows) == {rows[0].id} + Ids(rows[1..]) by {
        forall x | x in Ids(rows) ensures x in {rows[0].id} + Ids(rows[1..]) {
          var i :| 0 <= i < |rows| && rows[i].id == x;
          if i > 0 { assert rows[1..][i - 1].id == x; }
        }
      }
      match rest
      case None => None
      case Some(k) => Some(k + 1)
  }

  /** The document `findById` returns, if any. */
  function FindDoc<T>(rows: seq<Row<T>>, id: Id): (r: Option<T>)
    ensures r.Some? <==> id in Ids(rows)
    ensures r.Some? ==> Row(id, r.value) in rows
  {
    match IndexOf(rows, id)
    case None => None
    case Some(k) => Some(rows[k].doc)
  }

  /** `findOne(filter)` in natural order: the position of the first row whose
      document satisfies `p`, if any. */
  function FirstWhere<T>(rows: seq<Row<T>>, p: T -> bool): (r: Option<nat>)
    ensures r.Some? ==> r.value < |rows| && p(rows[r.value].doc)
    ensures r.Some? ==> forall j :: 0 <= j < r.value ==> !p(rows[j].doc)
    ensures r.None? ==> forall j :: 0 <= j < |rows| ==> !p(rows[j].doc)
  {
    if |rows| == 0 then None
    else if p(rows[0].doc) then Some(0)
    else match FirstWhere(rows[1..], p)
      case None => None
      case Some(k) => Some(k + 1)
  }

  lemma {:induction false} FindDocUnique<T>(rows: seq<Row<T>>, k: nat)
    requires UniqueIds(rows) && k < |rows|
    ensures FindDoc(rows, rows[k].id) == Some(rows[k].doc)
  {
    assert rows[k].id in Ids(rows);
  }

  /** `findByIdAndDelete` on the row at position `k`. */
  function RemoveAt<T>(s: seq<T>, k: nat): (r: seq<T>)
    requires k < |s|
    ensures |r| == |s| - 1
    ensures forall j :: 0 <= j < k ==> r[j] == s[j]
    ensures forall j :: k <= j < |r| ==> r[j] == s[j + 1]
  {
    s[..k] + s[k + 1..]
  }

  /** Removing the row at `k` from a table with unique ids removes exactly its id. */
  lemma RemoveAtIds<T>(rows: seq<Row<T>>, k: nat)
    requires UniqueIds(rows) && k < |rows|
    ensures UniqueIds(RemoveAt(rows, k))
    ensures Ids(RemoveAt(rows, k)) == Ids(rows) - {rows[k].id}
  {
    var r := RemoveAt(rows, k);
    forall i, j | 0 <= i < j < |r| ensures r[i].id != r[j].id {
      var i' := if i < k then i else i + 1;
      var j' := if j < k then j else j + 1;
      assert r[i] == rows[i'] && r[j] == rows[j'];
    }
    forall x | x in Ids(rows) - {rows[k].id} ensures x in Ids(r) {
      var i :| 0 <= i < |rows| && rows[i].id == x;
      if i < k { assert r[i] == rows[i]; } else { assert r[i - 1] == rows[i]; }
    }
    forall x | x in Ids(r) ensures x in Ids(rows) - {rows[k].id} {
      var i :| 0 <= i < |r| && r[i].id == x;
      var i' := if i < k then i else i + 1;
      assert r[i] == rows[i'];
    }
  }

  /** Keeps the elements satisfying `p`, in order. */
  function Filter<T(!new)>(s: seq<T>, p: T -> bool): (r: seq<T>)
    ensures |r| <= |s|
    ensures forall x :: x in r <==> x in s && p(x)
    ensures forall x :: multiset(r)[x] == if p(x) then multiset(s)[x] else 0
  {
    if |s| == 0 then []
    else
      var rest := Filter(s[1..], p);
      assert s == [s[0]] + s[1..];
      assert multiset(s) == multiset([s[0]]) + multiset(s[1..]);
      if p(s[0]) then
        assert multiset([s[0]] + rest) == multiset([s[0]]) + multiset(rest);
        [s[0]] + rest
      else rest
  }

  function Digit(d: nat): char
    requires d < 10
  {
    (48 + d) as char
  }

  /** Decimal rendering of a natural number, as JavaScript's template strings produce it. */
  function NatToString(n: nat): (r: string)
    ensures |r| >= 1
    ensures |r| == 1 <==> n < 10
    ensures forall i :: 0 <= i < |r| ==> '0' <= r[i] <= '9'
  {
    if n < 10 then [Digit(n)] else NatToString(n / 10) + [Digit(n % 10)]
  }

  lemma {:induction false} NatToStringInjective(m: nat, n: nat)
    requires NatToString(m) == NatToString(n)
    ensures m == n
    decreases m
  {
    var r := NatToString(m);
    if m >= 10 {
      var a, b := NatToString(m / 10), NatToString(n / 10);
      assert r == a + [Digit(m % 10)];
      assert r == b + [Digit(n % 10)];
      assert a == r[..|r| - 1] == b;
      assert Digit(m % 10) == r[|r| - 1] == Digit(n % 10);
      NatToStringInjective(m / 10, n / 10);
    } else {
      assert Digit(m) == r[0] == Digit(n);
    }
  }

  /** Decimal rendering of an integer, with a leading '-' for negatives. */
  function IntToString(i: int): (r: string)
    ensures |r| >= 1
    ensures ' ' !in r
  {
    if i < 0 then "-" + NatToString(-i) else NatToString(i)
  }

  /** Different numbers render differently. */
  lemma IntToStringInjective(i: int, j: int)
    requires IntToString(i) == IntToString(j)
    ensures i == j
  {
    assert (i < 0) == (IntToString(i)[0] == '-');
    assert (j < 0) == (IntToString(j)[0] == '-');
    if i < 0 {
      assert NatToString(-i) == IntToString(i)[1..] == NatToString(-j);
      NatToStringInjective(-i, -j);
    } else {
      NatToStringInjective(i, j);
    }
  }
}
