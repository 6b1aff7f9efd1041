/** The server's in-memory store: the `feedbackDB` list and the `idCounter`
    that numbers new records, with the create, find, delete, list, stats and
    health operations. */
module Store {
  import opened Wrappers
  import opened Feedback
  import Listing
  import Statistics

  /** `s.findIndex(f => f.id === id)`: the first position holding `id`, or -1. */
  function IndexOfId(s: seq<Record>, id: int): (i: int)
    ensures -1 <= i < |s|
    ensures i == -1 <==> forall k :: 0 <= k < |s| ==> s[k].id != id
    ensures i >= 0 ==> s[i].id == id && forall k :: 0 <= k < i ==> s[k].id != id
  {
    if s == [] then -1
    else if s[0].id == id then 0
    else
      var j := IndexOfId(s[1..], id);
      assert forall k :: 1 <= k < |s| ==> s[k] == s[1..][k - 1];
      if j == -1 then -1 else j + 1
  }

  /** The range test of the POST handler: a loop over the three scores that
      stops at the first one outside [1, 5]. */
  method CheckRatings(scores: seq<int>) returns (ok: bool)
    ensures ok <==> AllInRange(scores)
  {
    for i := 0 to |scores|
      invariant forall k :: 0 <= k < i ==> InRange(scores[k])
    {
      if scores[i] < 1 || scores[i] > 5 {
        return false;
      }
    }
    return true;
  }

  /** The store invariant: every record is well-formed and numbered below
      the counter, and ids grow strictly along the store, so no two are
      equal and a lookup by id finds at most one record. */
  ghost predicate ValidState(records: seq<Record>, nextId: int) {
    && 1 <= nextId
    && (forall i :: 0 <= i < |records| ==> WellFormed(records[i]) && 1 <= records[i].id < nextId)
    && (forall i, j :: 0 <= i < j < |records| ==> records[i].id < records[j].id)
  }

  /** Appending a well-formed record numbered with the counter and moving
      the counter on keeps the invariant, and the new record is the one a
      lookup of its id finds. */
  lemma AppendKeepsValid(records: seq<Record>, nextId: int, rec: Record)
    requires ValidState(records, nextId)
    requires WellFormed(rec) && rec.id == nextId
    ensures ValidState(records + [rec], nextId + 1)
    ensures IndexOfId(records + [rec], rec.id) == |records|
  {
    var s := records + [rec];
    assert forall k :: 0 <= k < |records| ==> s[k] == records[k];
    assert s[|records|] == rec;
    assert forall i :: 0 <= i < |s| ==> WellFormed(s[i]) && 1 <= s[i].id < nextId + 1;
    assert forall i, j :: 0 <= i < j < |s| ==> s[i].id < s[j].id;
    var idx := IndexOfId(s, rec.id);
    assert idx != -1;
    assert !(idx < |records|);
  }

  /** Removing the record at a position keeps the invariant and leaves no
      record with its id. */
  lemma RemoveKeepsValid(records: seq<Record>, nextId: int, i: int)
    requires ValidState(records, nextId)
    requires 0 <= i < |records|
    ensures ValidState(records[..i] + records[i + 1..], nextId)
    ensures IndexOfId(records[..i] + records[i + 1..], records[i].id) == -1
  {
    var s := records[..i] + records[i + 1..];
    assert forall k :: 0 <= k < |s| ==> s[k] == records[if k < i then k else k + 1];
  }

  class FeedbackStore {
    /** The records in insertion order. */
    var records: seq<Record>
    /** The id the next accepted record gets. */
    var nextId: int

    ghost predicate Valid()
      reads this
    {
      ValidState(records, nextId)
    }

    /** An empty store whose first record will get id 1. */
    constructor ()
      ensures Valid() && records == [] && nextId == 1
    {
      records := [];
      nextId := 1;
    }

    /** POST /api/feedback. On success the record gets the current counter
        value as its id, is appended, and the counter moves on; on any
        rejection neither the store nor the counter changes. */
    method Create(sub: Submission, now: int) returns (r: Result<Record, CreateError>)
      requires Valid()
      modifies this
      ensures Valid()
      ensures r == Admit(sub, old(nextId), now)
      ensures r.Success? ==> records == old(records) + [r.value] && nextId == old(nextId) + 1
      ensures r.Success? ==> r.value.id == old(nextId) && IndexOfId(records, r.value.id) == |old(records)|
      ensures r.Failure? ==> records == old(records) && nextId == old(nextId)
    {
      if !Filled(sub.studentName) || !Filled(sub.courseCode) || !Filled(sub.comments) {
        return Failure(MissingFields);
      }
      if !Rated(sub.teachingQuality) || !Rated(sub.preparation) || !Rated(sub.support) {
        return Failure(MissingRatings);
      }
      var ok := CheckRatings([sub.teachingQuality.value, sub.preparation.value, sub.support.value]);
      if !ok {
        return Failure(RatingOutOfRange);
      }
      var rec := NewRecord(sub, nextId, now);
      AdmittedRecord(sub, nextId, now);
      AppendKeepsValid(records, nextId, rec);
      nextId := nextId + 1;
      records := records + [rec];
      return Success(rec);
    }

    /** The `findIndex` loop over the store; it changes nothing. */
    method FindIndex(id: int) returns (index: int)
      ensures index == IndexOfId(records, id)
    {
      index := 0;
      while index < |records|
        invariant 0 <= index <= |records|
        invariant forall k :: 0 <= k < index ==> records[k].id != id
      {
        if records[index].id == id {
          return;
        }
        index := index + 1;
      }
      index := -1;
    }

    /** GET /api/feedback/:id: the first record with that id, or not found;
        the store is only read. */
    method Find(id: int) returns (r: Option<Record>)
      ensures r.None? <==> forall k :: 0 <= k < |records| ==> records[k].id != id
      ensures r.Some? ==> r.value.id == id && r.value == records[IndexOfId(records, id)]
    {
      var index := FindIndex(id);
      if index == -1 {
        return None;
      }
      return Some(records[index]);
    }

    /** DELETE /api/feedback/:id: `findIndex` then `splice(index, 1)`. An
        unknown id changes nothing; a known id removes exactly the record
        holding it, which is returned, and keeps the others in order. The
        counter is never wound back, so ids are not reused. */
    method Delete(id: int) returns (r: Option<Record>)
      requires Valid()
      modifies this
      ensures Valid() && nextId == old(nextId)
      ensures r.None? <==> forall k :: 0 <= k < |old(records)| ==> old(records)[k].id != id
      ensures r.None? ==> records == old(records)
      ensures r.Some? ==>
        var i := IndexOfId(old(records), id);
        && r.value == old(records)[i] && r.value.id == id
        && records == old(records)[..i] + old(records)[i + 1..]
      ensures r.Some? ==> multiset(records) + multiset{r.value} == multiset(old(records))
      ensures IndexOfId(records, id) == -1
    {
      var index := FindIndex(id);
      if index == -1 {
        return None;
      }
      var removed := records[index];
      assert records == records[..index] + [removed] + records[index + 1..];
      RemoveKeepsValid(records, nextId, index);
      records := records[..index] + records[index + 1..];
      return Some(removed);
    }

    /** GET /api/feedback: the latest-first copy; the store keeps its order.
        The copy holds exactly the stored records. */
    function List(): (r: seq<Record>)
      reads this
      ensures multiset(r) == multiset(records) && |r| == |records|
      ensures Listing.LatestFirst(r)
    {
      Listing.SortLatestFirst(records)
    }

    /** GET /api/stats at time `now`: its total is the number of stored
        records and, for an empty store, every figure is 0. */
    function Stats(now: int): (st: Statistics.Snapshot)
      reads this
      ensures st.totalFeedback == |records|
      ensures records == [] ==> st == Statistics.EmptySnapshot
    {
      Statistics.Summarize(records, now)
    }

    /** GET /api/health: the number of stored records, which is also the
        `count` the listing reports. */
    function Health(): (n: nat)
      reads this
      ensures n == |List()|
    {
      |records|
    }
  }
}
