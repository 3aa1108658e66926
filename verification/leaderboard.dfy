/** The snake leaderboard query: scores joined with their users, highest
    first, at most ten. */
module Leaderboard {
  import opened Common
  import opened Models

  const TopCount: nat := 10

  /** One row of the query result: `{"user_id", "points", "username"}`. */
  datatype Entry = Entry(userId: int, points: int, username: string)

  predicate SortedDesc(s: seq<Entry>)
  {
    forall i, j :: 0 <= i < j < |s| ==> s[i].points >= s[j].points
  }

  /** Places `x` before the first entry it does not score below. */
  function Insert(x: Entry, s: seq<Entry>): (r: seq<Entry>)
    requires SortedDesc(s)
    ensures SortedDesc(r)
    ensures multiset(r) == multiset(s) + multiset{x}
    ensures |r| == |s| + 1
  {
    if s == [] then [x]
    else if x.points >= s[0].points then
      [x] + s
    else
      assert s == [s[0]] + s[1..];
      var t := Insert(x, s[1..]);
      assert forall e :: e in t ==> e.points <= s[0].points by {
        forall e | e in t
          ensures e.points <= s[0].points
        {
          assert e in multiset(t);
          assert e in multiset(s[1..]) || e == x;
        }
      }
      [s[0]] + t
  }

  /** Orders entries by points, highest first; equal scores keep their order. */
  function SortDesc(s: seq<Entry>): (r: seq<Entry>)
    ensures SortedDesc(r)
    ensures multiset(r) == multiset(s)
    ensures |r| == |s|
  {
    if s == [] then []
    else
      assert s == [s[0]] + s[1..];
      Insert(s[0], SortDesc(s[1..]))
  }

  /** The leaderboard row of one stats row, if its user still exists (the
      query is an inner join with `users`). */
  function EntryOf(db: Db, k: Id): Option<Entry>
    requires k in db.snakes
  {
    var s := db.snakes[k];
    if 0 <= s.userId && s.userId in db.users then Some(Entry(s.userId, s.points, db.users[s.userId].username))
    else None
  }

  function JoinRows(db: Db, ids: seq<Id>): (r: seq<Entry>)
    requires forall k :: k in ids ==> k in db.snakes
    ensures forall e :: e in r ==> exists k :: k in ids && EntryOf(db, k) == Some(e)
    ensures forall k :: k in ids && EntryOf(db, k).Some? ==> EntryOf(db, k).value in r
  {
    if ids == [] then []
    else
      var rest := JoinRows(db, ids[1..]);
      match EntryOf(db, ids[0])
      case Some(e) => [e] + rest
      case None => rest
  }

  /** Every stats row whose user exists; the model takes them by ascending id. */
  function Joined(db: Db): seq<Entry>
  {
    JoinRows(db, Rows(db.snakes, (s: SnakeStats) => true, 0, db.next))
  }

  /** The first `n` entries of a sorted arrangement of `whole` are sorted and
      drawn from `whole`. */
  lemma PrefixOfSorted(whole: seq<Entry>, s: seq<Entry>, n: nat)
    requires SortedDesc(s) && multiset(s) == multiset(whole) && n <= |s|
    ensures |s[..n]| == n && SortedDesc(s[..n])
    ensures multiset(s[..n]) <= multiset(whole)
  {
    assert s == s[..n] + s[n..];
  }

  /** In a list sorted from highest, every entry after the first `n` scores
      no more than any of the first `n`. */
  lemma PrefixDominates(whole: seq<Entry>, s: seq<Entry>, n: nat)
    requires SortedDesc(s) && multiset(s) == multiset(whole) && n <= |s|
    ensures forall x, y :: x in multiset(whole) - multiset(s[..n]) && y in s[..n] ==> x.points <= y.points
  {
    var top, rest := s[..n], s[n..];
    assert s == top + rest;
    assert multiset(s) == multiset(top) + multiset(rest);
    forall x, y | x in multiset(s) - multiset(top) && y in top
      ensures x.points <= y.points
    {
      assert x in multiset(rest);
      var j :| 0 <= j < |rest| && rest[j] == x;
      var i :| 0 <= i < |top| && top[i] == y;
      assert s[i] == y && s[n + j] == x;
    }
  }

  /** `get_top_10`: at most ten entries of the joined rows, ordered by points
      from highest, and no joined row left out scores above one kept. */
  function GetTop10(db: Db): (r: seq<Entry>)
    ensures |r| == if |Joined(db)| < TopCount then |Joined(db)| else TopCount
    ensures SortedDesc(r)
    ensures multiset(r) <= multiset(Joined(db))
    ensures forall x, y :: x in multiset(Joined(db)) - multiset(r) && y in r ==> x.points <= y.points
  {
    var joined := Joined(db);
    var sorted := SortDesc(joined);
    var n := if |sorted| < TopCount then |sorted| else TopCount;
    var top := sorted[..n];
    PrefixOfSorted(joined, sorted, n);
    PrefixDominates(joined, sorted, n);
    top
  }

  /** Every stats row of an existing user is on the leaderboard's underlying
      list, and every listed entry comes from such a row. */
  lemma JoinedRows(db: Db, e: Entry)
    requires IdsFresh(db)
    ensures e in Joined(db) <==> exists k :: k in db.snakes && EntryOf(db, k) == Some(e)
  {
    var ids := Rows(db.snakes, (s: SnakeStats) => true, 0, db.next);
    if exists k :: k in db.snakes && EntryOf(db, k) == Some(e) {
      var k :| k in db.snakes && EntryOf(db, k) == Some(e);
      assert k in ids;
    }
  }
}
