/** GET /api/stats: a snapshot computed from the whole store on each call.
    Averages are exact rationals (`real`); the one-decimal display rounding
    is not modelled. */
module Statistics {
  import opened Feedback
  import Rounding

  /** The recency window, seven days in milliseconds. */
  const WeekMillis: int := 7 * 24 * 60 * 60 * 1000

  /** `s.reduce((sum, f) => sum + field(f), 0)`. */
  function SumOf(s: seq<Record>, field: Record -> int): int {
    if s == [] then 0 else field(s[0]) + SumOf(s[1..], field)
  }

  /** `count > 0 ? sum / count : 0`. */
  function Mean(sum: int, count: nat): real {
    if count > 0 then sum as real / count as real else 0.0
  }

  /** `new Set(s.map(f => f.courseCode))`: exactly the codes some record has. */
  function CourseCodes(s: seq<Record>): (codes: set<string>)
    ensures forall c :: c in codes <==> exists i :: 0 <= i < |s| && s[i].courseCode == c
  {
    if s == [] then {}
    else
      var rest := CourseCodes(s[1..]);
      assert forall c :: (exists i :: 1 <= i < |s| && s[i].courseCode == c) ==> c in rest by {
        forall c, i | 1 <= i < |s| && s[i].courseCode == c ensures c in rest {
          assert s[1..][i - 1] == s[i];
        }
      }
      {s[0].courseCode} + rest
  }

  /** `s.filter(f => f.createdAt > cutoff).length`: the records created
      strictly after the cutoff. */
  function CountAfter(s: seq<Record>, cutoff: int): (n: nat)
    ensures n <= |s|
    ensures n == 0 <==> forall i :: 0 <= i < |s| ==> s[i].createdAt <= cutoff
    ensures n == |s| <==> forall i :: 0 <= i < |s| ==> s[i].createdAt > cutoff
  {
    if s == [] then 0
    else
      var rest := CountAfter(s[1..], cutoff);
      assert forall i :: 1 <= i < |s| ==> s[i] == s[1..][i - 1];
      (if s[0].createdAt > cutoff then 1 else 0) + rest
  }

  /** There are never more distinct course codes than records. */
  lemma {:induction false} CourseCountBound(s: seq<Record>)
    ensures |CourseCodes(s)| <= |s|
  {
    if s != [] {
      CourseCountBound(s[1..]);
      assert CourseCodes(s) == {s[0].courseCode} + CourseCodes(s[1..]);
    }
  }

  /** The statistics snapshot; the three category averages follow the
      overall one. */
  datatype Snapshot = Snapshot(
    totalFeedback: nat,
    averageRating: real,
    totalCourses: nat,
    recentFeedback: nat,
    teachingQuality: real,
    preparation: real,
    support: real)

  const EmptySnapshot := Snapshot(0, 0.0, 0, 0, 0.0, 0.0, 0.0)

  function Rating(r: Record): int { r.rating }
  function TeachingQuality(r: Record): int { r.teachingQuality }
  function Preparation(r: Record): int { r.preparation }
  function Support(r: Record): int { r.support }

  /** The snapshot of a store at time `now`: the total is the store length,
      the course and recency counts never exceed it, and an empty store gives
      all zeros. */
  function Summarize(s: seq<Record>, now: int): (st: Snapshot)
    ensures st.totalFeedback == |s|
    ensures st.totalCourses <= st.totalFeedback && st.recentFeedback <= st.totalFeedback
    ensures s == [] ==> st == EmptySnapshot
  {
    CourseCountBound(s);
    Snapshot(
      |s|,
      Mean(SumOf(s, Rating), |s|),
      |CourseCodes(s)|,
      CountAfter(s, now - WeekMillis),
      Mean(SumOf(s, TeachingQuality), |s|),
      Mean(SumOf(s, Preparation), |s|),
      Mean(SumOf(s, Support), |s|))
  }

  /** If every record's field lies in [lo, hi], the sum lies between lo and
      hi times the number of records. */
  lemma {:induction false} SumBounds(s: seq<Record>, field: Record -> int, lo: int, hi: int)
    requires forall i :: 0 <= i < |s| ==> lo <= field(s[i]) <= hi
    ensures lo * |s| <= SumOf(s, field) <= hi * |s|
  {
    if s != [] {
      SumBounds(s[1..], field, lo, hi);
      assert lo * |s| == lo + lo * (|s| - 1);
      assert hi * |s| == hi + hi * (|s| - 1);
    }
  }

  lemma MeanBounds(s: seq<Record>, field: Record -> int, lo: int, hi: int)
    requires s != []
    requires forall i :: 0 <= i < |s| ==> lo <= field(s[i]) <= hi
    ensures lo as real <= Mean(SumOf(s, field), |s|) <= hi as real
  {
    SumBounds(s, field, lo, hi);
    MeanOfBoundedSum(SumOf(s, field), |s|, lo, hi);
  }

  /** A sum of `count` values in [lo, hi] has its mean in [lo, hi]. */
  lemma MeanOfBoundedSum(sum: int, count: nat, lo: int, hi: int)
    requires count > 0 && lo * count <= sum <= hi * count
    ensures lo as real <= Mean(sum, count) <= hi as real
  {
    ProductAsReal(lo, count);
    ProductAsReal(hi, count);
    DivideBounds(sum as real, count as real, lo as real, hi as real);
  }

  lemma ProductAsReal(a: int, b: int)
    ensures (a * b) as real == a as real * b as real
  {
  }

  lemma DivideBounds(x: real, n: real, lo: real, hi: real)
    requires n > 0.0 && lo * n <= x <= hi * n
    ensures lo <= x / n <= hi
  {
    var q := x / n;
    assert q * n == x;
  }

  /** Over well-formed records every average of a non-empty store lies in
      [1, 5]. */
  lemma SnapshotAveragesInRange(s: seq<Record>, now: int)
    requires s != []
    requires forall i :: 0 <= i < |s| ==> WellFormed(s[i])
    ensures var st := Summarize(s, now);
      && 1.0 <= st.averageRating <= 5.0
      && 1.0 <= st.teachingQuality <= 5.0
      && 1.0 <= st.preparation <= 5.0
      && 1.0 <= st.support <= 5.0
  {
    forall i | 0 <= i < |s| ensures 1 <= s[i].rating <= 5 {
      Rounding.RoundedMeanBetween(s[i].teachingQuality, s[i].preparation, s[i].support, 1, 5);
    }
    MeanBounds(s, Rating, 1, 5);
    MeanBounds(s, TeachingQuality, 1, 5);
    MeanBounds(s, Preparation, 1, 5);
    MeanBounds(s, Support, 1, 5);
  }
}
