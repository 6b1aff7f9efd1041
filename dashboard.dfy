/** The dashboard page: it fetches the latest-first listing, recomputes four
    of the server's statistics from it, and draws each as a gauge whose fill
    percentage is capped. */
module Dashboard {
  import opened Feedback
  import opened Statistics
  import Listing

  /** The four figures the page shows. */
  datatype DashStats = DashStats(
    totalFeedback: nat,
    averageRating: real,
    totalCourses: nat,
    recentFeedback: nat)

  /** The figures before (or without) a successful fetch. */
  const InitialStats := DashStats(0, 0.0, 0, 0)

  /** The body of `fetchStats` after the list arrives: total, mean rating
      (0 for an empty list), distinct course codes, and the records strictly
      newer than a week before `now`. */
  function ComputeStats(feedback: seq<Record>, now: int): (d: DashStats)
    ensures d.totalFeedback == |feedback|
    ensures feedback == [] ==> d == InitialStats
    ensures d.totalCourses <= d.totalFeedback
    ensures d.recentFeedback <= d.totalFeedback
  {
    CourseCountBound(feedback);
    DashStats(
      |feedback|,
      Mean(SumOf(feedback, Rating), |feedback|),
      |CourseCodes(feedback)|,
      CountAfter(feedback, now - WeekMillis))
  }

  /** The outcome of `getAllFeedback()`. */
  datatype Fetch = Fetched(feedback: seq<Record>) | FetchFailed

  /** The page state: the figures and whether the spinner is shown. */
  datatype View = View(stats: DashStats, loading: bool)

  /** The state on mount: zero figures, spinner on. */
  const Mounted := View(InitialStats, true)

  /** Settling the fetch: a received list replaces the figures, a failure
      leaves them as they were, and in both cases loading ends. */
  function SettleFetch(v: View, fetch: Fetch, now: int): (v': View)
    ensures !v'.loading
    ensures fetch.FetchFailed? ==> v'.stats == v.stats
    ensures fetch.Fetched? ==> v'.stats.totalFeedback == |fetch.feedback|
  {
    match fetch
    case Fetched(feedback) => View(ComputeStats(feedback, now), false)
    case FetchFailed => View(v.stats, false)
  }

  /** A failed first fetch leaves the page showing all zeros, not loading. */
  lemma FailedFetchShowsZeros(now: int)
    ensures SettleFetch(Mounted, FetchFailed, now) == View(InitialStats, false)
  {
  }

  lemma {:induction false} InsertSum(x: Record, t: seq<Record>, field: Record -> int)
    ensures SumOf(Listing.Insert(x, t), field) == field(x) + SumOf(t, field)
  {
    var r := Listing.Insert(x, t);
    if t != [] && t[0].createdAt > x.createdAt {
      assert r[1..] == Listing.Insert(x, t[1..]);
      InsertSum(x, t[1..], field);
    } else {
      assert r[1..] == t;
    }
  }

  lemma {:induction false} InsertCount(x: Record, t: seq<Record>, cutoff: int)
    ensures CountAfter(Listing.Insert(x, t), cutoff)
         == (if x.createdAt > cutoff then 1 else 0) + CountAfter(t, cutoff)
  {
    var r := Listing.Insert(x, t);
    if t != [] && t[0].createdAt > x.createdAt {
      assert r[1..] == Listing.Insert(x, t[1..]);
      InsertCount(x, t[1..], cutoff);
    } else {
      assert r[1..] == t;
    }
  }

  lemma CodesOfCons(s: seq<Record>)
    requires s != []
    ensures CourseCodes(s) == {s[0].courseCode} + CourseCodes(s[1..])
  {
  }

  lemma {:induction false} InsertCodes(x: Record, t: seq<Record>)
    ensures CourseCodes(Listing.Insert(x, t)) == {x.courseCode} + CourseCodes(t)
  {
    var r := Listing.Insert(x, t);
    CodesOfCons(r);
    if t != [] && t[0].createdAt > x.createdAt {
      assert r[1..] == Listing.Insert(x, t[1..]);
      InsertCodes(x, t[1..]);
      CodesOfCons(t);
    } else {
      assert r[1..] == t;
    }
  }

  /** Sums, distinct codes and recency counts do not depend on the order of
      the records, so the latest-first listing gives the same figures as the
      store. */
  lemma {:induction false} ListingKeepsAggregates(s: seq<Record>, field: Record -> int, cutoff: int)
    ensures SumOf(Listing.SortLatestFirst(s), field) == SumOf(s, field)
    ensures CourseCodes(Listing.SortLatestFirst(s)) == CourseCodes(s)
    ensures CountAfter(Listing.SortLatestFirst(s), cutoff) == CountAfter(s, cutoff)
  {
    if s != [] {
      var rest := Listing.SortLatestFirst(s[1..]);
      ListingKeepsAggregates(s[1..], field, cutoff);
      InsertSum(s[0], rest, field);
      InsertCodes(s[0], rest);
      InsertCount(s[0], rest, cutoff);
      assert CourseCodes(s) == {s[0].courseCode} + CourseCodes(s[1..]);
    }
  }

  /** The dashboard, fed the server's latest-first listing of a store,
      shows the same total, mean rating, course count and recency count as
      the server's own statistics of that store at the same moment. */
  lemma DashboardMatchesServer(records: seq<Record>, now: int)
    ensures var d, st := ComputeStats(Listing.SortLatestFirst(records), now), Summarize(records, now);
      && d.totalFeedback == st.totalFeedback
      && d.averageRating == st.averageRating
      && d.totalCourses == st.totalCourses
      && d.recentFeedback == st.recentFeedback
  {
    var listing := Listing.SortLatestFirst(records);
    ListingKeepsAggregates(records, Rating, now - WeekMillis);
    assert |listing| == |multiset(listing)| == |multiset(records)| == |records|;
  }

  /** The four gauges, by label; any label other than the first three is
      drawn with the "This Week" scale. */
  datatype Tile = TotalFeedbackTile | AverageRatingTile | CoursesTile | ThisWeekTile

  function Min(a: real, b: real): real {
    if a <= b then a else b
  }

  /** `CircularStat`'s fill percentage: the average is drawn out of 5, the
      counts out of 50, 20 and 10, the counts capped at 100. */
  function GaugePercent(tile: Tile, value: real): real {
    match tile
    case AverageRatingTile => (value / 5.0) * 100.0
    case TotalFeedbackTile => Min((value / 50.0) * 100.0, 100.0)
    case CoursesTile => Min((value / 20.0) * 100.0, 100.0)
    case ThisWeekTile => Min((value / 10.0) * 100.0, 100.0)
  }

  /** The count gauges fill 2, 5 and 10 percent per item up to a cap of
      100; the average gauge fills 20 percent per point with no cap. */
  lemma GaugeScales(value: real)
    ensures GaugePercent(TotalFeedbackTile, value) == Min(2.0 * value, 100.0)
    ensures GaugePercent(CoursesTile, value) == Min(5.0 * value, 100.0)
    ensures GaugePercent(ThisWeekTile, value) == Min(10.0 * value, 100.0)
    ensures GaugePercent(AverageRatingTile, value) == 20.0 * value
  {
  }

  /** Every gauge of a non-negative count, and the average gauge of a mean
      in [0, 5], is within [0, 100]; a count gauge is full exactly when the
      count reaches 50, 20 or 10. */
  lemma GaugeInRange(tile: Tile, value: real)
    requires 0.0 <= value
    requires tile == AverageRatingTile ==> value <= 5.0
    ensures 0.0 <= GaugePercent(tile, value) <= 100.0
    ensures tile == TotalFeedbackTile ==> (GaugePercent(tile, value) == 100.0 <==> value >= 50.0)
    ensures tile == CoursesTile ==> (GaugePercent(tile, value) == 100.0 <==> value >= 20.0)
    ensures tile == ThisWeekTile ==> (GaugePercent(tile, value) == 100.0 <==> value >= 10.0)
  {
  }
}
