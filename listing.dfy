/** GET /api/feedback: a copy of the store sorted latest-first with the
    comparator `b.createdAt - a.createdAt`. `Array.prototype.sort` is
    stable, so records with equal timestamps keep their stored order. */
module Listing {
  import opened Feedback

  /** Non-increasing creation time from front to back. */
  predicate LatestFirst(s: seq<Record>) {
    forall i, j :: 0 <= i < j < |s| ==> s[i].createdAt >= s[j].createdAt
  }

  /** Places `x` in front of the first element that is not newer than it. */
  function Insert(x: Record, t: seq<Record>): (r: seq<Record>)
    ensures multiset(r) == multiset{x} + multiset(t)
  {
    if t == [] || t[0].createdAt <= x.createdAt then
      [x] + t
    else
      assert t == [t[0]] + t[1..];
      [t[0]] + Insert(x, t[1..])
  }

  /** Inserting into a latest-first sequence keeps it latest-first. */
  lemma {:induction false} InsertLatestFirst(x: Record, t: seq<Record>)
    requires LatestFirst(t)
    ensures LatestFirst(Insert(x, t))
  {
    if t != [] && t[0].createdAt > x.createdAt {
      var rest := Insert(x, t[1..]);
      InsertLatestFirst(x, t[1..]);
      forall k | 0 <= k < |rest| ensures t[0].createdAt >= rest[k].createdAt {
        assert rest[k] in multiset(rest);
        assert rest[k] == x || rest[k] in multiset(t[1..]);
        if rest[k] != x {
          var m :| 0 <= m < |t[1..]| && t[1..][m] == rest[k];
          assert t[m + 1] == rest[k];
        }
      }
      assert Insert(x, t) == [t[0]] + rest;
    }
  }

  /** The listing: a stable insertion sort, latest first. It is a
      permutation of the store, ordered latest-first. */
  function SortLatestFirst(s: seq<Record>): (r: seq<Record>)
    ensures multiset(r) == multiset(s) && |r| == |s|
    ensures LatestFirst(r)
  {
    if s == [] then []
    else
      assert s == [s[0]] + s[1..];
      InsertLatestFirst(s[0], SortLatestFirst(s[1..]));
      Insert(s[0], SortLatestFirst(s[1..]))
  }

  /** The records created at time `k`, in order. */
  function CreatedAt(s: seq<Record>, k: int): seq<Record> {
    if s == [] then []
    else (if s[0].createdAt == k then [s[0]] else []) + CreatedAt(s[1..], k)
  }

  lemma {:induction false} InsertCreatedAt(x: Record, t: seq<Record>, k: int)
    ensures CreatedAt(Insert(x, t), k) == (if x.createdAt == k then [x] else []) + CreatedAt(t, k)
  {
    var r := Insert(x, t);
    var fx := if x.createdAt == k then [x] else [];
    if t == [] || t[0].createdAt <= x.createdAt {
      assert r[0] == x && r[1..] == t;
    } else {
      var rest := Insert(x, t[1..]);
      var f0 := if t[0].createdAt == k then [t[0]] else [];
      assert r[0] == t[0] && r[1..] == rest;
      InsertCreatedAt(x, t[1..], k);
      assert CreatedAt(r, k) == f0 + (fx + CreatedAt(t[1..], k));
      assert f0 == [] || fx == [];
      assert CreatedAt(t, k) == f0 + CreatedAt(t[1..], k);
    }
  }

  /** Stability: among the records sharing any one timestamp the listing
      keeps the store's order. */
  lemma {:induction false} ListingIsStable(s: seq<Record>, k: int)
    ensures CreatedAt(SortLatestFirst(s), k) == CreatedAt(s, k)
  {
    if s != [] {
      ListingIsStable(s[1..], k);
      InsertCreatedAt(s[0], SortLatestFirst(s[1..]), k);
    }
  }
}
