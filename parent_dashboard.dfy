/** The parent dashboard's aggregation: a seven-day chart bucketed by
    calendar day, a time-window filter, summary metrics over the filtered
    activities, today's minutes, and the strengths/weaknesses ranking of
    skills by mastery.

    The clock and the time zone are parameters: `now` is a clock reading in
    milliseconds (for the chart, the one taken when the data loads; for the
    filter and today's time, the one taken at the current render) and
    `dayOf` gives the local calendar day (a day number) of a timestamp, so
    that two timestamps print the same `toDateString()` exactly when `dayOf`
    maps them to the same number, and stepping a date back by one calendar
    day lowers its day number by one. */
module ParentDashboard {
  import opened Records

  // ---------------------------------------------------------------------
  // Sequences: filter, subsequence, sums, reversal

  /** `r` is `s` with some elements dropped and the rest kept in order. */
  predicate IsSubsequence<T(==,!new)>(r: seq<T>, s: seq<T>)
    decreases |s|
  {
    r == [] ||
    (|s| > 0 && |r| <= |s| &&
     ((r[0] == s[0] && IsSubsequence(r[1..], s[1..])) || IsSubsequence(r, s[1..])))
  }

  /** `Array.prototype.filter`: the elements of `s` that satisfy `p`, in order. */
  function Filter<T(==,!new)>(s: seq<T>, p: T -> bool): (r: seq<T>)
    ensures IsSubsequence(r, s)
    ensures forall x :: x in r ==> p(x)
  {
    if s == [] then []
    else
      var rest := Filter(s[1..], p);
      assert s == [s[0]] + s[1..];
      if p(s[0]) then
        assert ([s[0]] + rest)[1..] == rest;
        [s[0]] + rest
      else
        assert [] + rest == rest;
        rest
  }

  /** The filter keeps every element that passes, as often as it occurs,
      and nothing else. */
  lemma {:induction false} FilterCounts<T(!new)>(s: seq<T>, p: T -> bool)
    ensures forall x :: multiset(Filter(s, p))[x] == if p(x) then multiset(s)[x] else 0
  {
    if s != [] {
      FilterCounts(s[1..], p);
      assert s == [s[0]] + s[1..];
    }
  }

  /** Two tests that agree everywhere select the same elements. */
  lemma {:induction false} FilterExtensional<T(!new)>(s: seq<T>, p: T -> bool, q: T -> bool)
    requires forall x :: p(x) == q(x)
    ensures Filter(s, p) == Filter(s, q)
  {
    if s != [] {
      FilterExtensional(s[1..], p, q);
    }
  }

  /** A test that holds everywhere drops nothing. */
  lemma {:induction false} FilterKeepsAll<T(!new)>(s: seq<T>, p: T -> bool)
    requires forall x :: p(x)
    ensures Filter(s, p) == s
  {
    if s != [] {
      FilterKeepsAll(s[1..], p);
      assert s == [s[0]] + s[1..];
    }
  }

  /** Filtering a list that starts with `x`. */
  lemma FilterCons<T(!new)>(x: T, s: seq<T>, p: T -> bool)
    ensures Filter([x] + s, p) == if p(x) then [x] + Filter(s, p) else Filter(s, p)
  {
    assert ([x] + s)[0] == x;
    assert ([x] + s)[1..] == s;
  }

  /** `reduce((sum, a) => sum + f(a), 0)`. */
  function Total(s: seq<Activity>, f: Activity -> int): int
  {
    if s == [] then 0 else f(s[0]) + Total(s[1..], f)
  }

  function StarsOf(a: Activity): int { a.starsEarned }
  function TimeOf(a: Activity): int { a.timeSpent }

  lemma TotalCons(x: Activity, s: seq<Activity>, f: Activity -> int)
    ensures Total([x] + s, f) == f(x) + Total(s, f)
  {
    assert ([x] + s)[0] == x;
    assert ([x] + s)[1..] == s;
  }

  /** `reverse()` on a copy. */
  function Reverse<T>(s: seq<T>): (r: seq<T>)
    ensures |r| == |s|
    ensures forall i :: 0 <= i < |s| ==> r[i] == s[|s| - 1 - i]
  {
    if s == [] then [] else Reverse(s[1..]) + [s[0]]
  }

  /** `Math.round` on a real: the nearest integer, halves rounded up. */
  function Round(x: real): (r: int)
    ensures x - 0.5 < r as real <= x + 0.5
  {
    (x + 0.5).Floor
  }

  // ---------------------------------------------------------------------
  // Calendar days

  /** `new Date(a.completed_at_c).toDateString() === date.toDateString()`. */
  predicate OnDay(dayOf: Millis -> int, day: int, a: Activity)
  {
    dayOf(a.completedAt) == day
  }

  function OnDayTest(dayOf: Millis -> int, day: int): Activity -> bool
  {
    a => OnDay(dayOf, day, a)
  }

  /** The activities completed on one calendar day, in their original order. */
  function ActivitiesOn(acts: seq<Activity>, dayOf: Millis -> int, day: int): seq<Activity>
  {
    Filter(acts, OnDayTest(dayOf, day))
  }

  // ---------------------------------------------------------------------
  // processChartData

  /** One bar of the weekly chart. The weekday label is the locale's short
      name of `day`. */
  datatype DayBucket = DayBucket(day: int, stars: int, timeSpent: int)

  /** The calendar day covered by bar `i`: `date.setDate(date.getDate() - (6 - i))`. */
  function ChartDay(dayOf: Millis -> int, now: Millis, i: int): int
  {
    dayOf(now) - (6 - i)
  }

  function Bucket(acts: seq<Activity>, dayOf: Millis -> int, day: int): DayBucket
  {
    var onDay := ActivitiesOn(acts, dayOf, day);
    DayBucket(day, Total(onDay, StarsOf), Total(onDay, TimeOf))
  }

  function ProcessChartData(acts: seq<Activity>, dayOf: Millis -> int, now: Millis): (chart: seq<DayBucket>)
    ensures |chart| == 7
  {
    seq(7, i => Bucket(acts, dayOf, ChartDay(dayOf, now, i)))
  }

  /** Seven bars, consecutive calendar days, oldest first, the last one today. */
  lemma ChartCoversLastSevenDays(acts: seq<Activity>, dayOf: Millis -> int, now: Millis)
    ensures var chart := ProcessChartData(acts, dayOf, now);
      && |chart| == 7
      && chart[6].day == dayOf(now)
      && (forall i :: 0 <= i < 7 ==> chart[i].day == dayOf(now) - 6 + i)
      && (forall i, j :: 0 <= i < j < 7 ==> chart[i].day < chart[j].day)
  {
  }

  /** With no activities every bar is zero. */
  lemma ChartOfNoActivities(dayOf: Millis -> int, now: Millis)
    ensures forall b :: b in ProcessChartData([], dayOf, now) ==> b.stars == 0 && b.timeSpent == 0
  {
  }

  /** An activity adds its stars and time to the bar of its own day and to no
      other bar; together with the empty case this pins every bar down. */
  lemma {:induction false} ChartAddsActivityToItsDay(a: Activity, acts: seq<Activity>, dayOf: Millis -> int, now: Millis, i: int)
    requires 0 <= i < 7
    ensures var before := ProcessChartData(acts, dayOf, now)[i];
      var after := ProcessChartData([a] + acts, dayOf, now)[i];
      && after.day == before.day
      && after.stars == before.stars + (if dayOf(a.completedAt) == before.day then a.starsEarned else 0)
      && after.timeSpent == before.timeSpent + (if dayOf(a.completedAt) == before.day then a.timeSpent else 0)
  {
    var d := ChartDay(dayOf, now, i);
    var p := OnDayTest(dayOf, d);
    FilterCons(a, acts, p);
    if p(a) {
      TotalCons(a, Filter(acts, p), StarsOf);
      TotalCons(a, Filter(acts, p), TimeOf);
    }
  }

  /** Stars of the bars `from .. from + count - 1`. */
  function StarsOverDays(acts: seq<Activity>, dayOf: Millis -> int, from: int, count: nat): int
  {
    if count == 0 then 0
    else StarsOverDays(acts, dayOf, from, count - 1) + Total(ActivitiesOn(acts, dayOf, from + count - 1), StarsOf)
  }

  /** Sum of the stars of the first `k` bars of a chart. */
  function ChartStars(chart: seq<DayBucket>): int
  {
    if chart == [] then 0 else ChartStars(chart[..|chart| - 1]) + chart[|chart| - 1].stars
  }

  lemma {:induction false} StarsOverDaysCons(a: Activity, acts: seq<Activity>, dayOf: Millis -> int, from: int, count: nat)
    ensures StarsOverDays([a] + acts, dayOf, from, count)
         == StarsOverDays(acts, dayOf, from, count)
            + (if from <= dayOf(a.completedAt) < from + count then a.starsEarned else 0)
  {
    if count > 0 {
      var d := from + count - 1;
      StarsOverDaysCons(a, acts, dayOf, from, count - 1);
      var p := OnDayTest(dayOf, d);
      FilterCons(a, acts, p);
      if dayOf(a.completedAt) == d {
        assert p(a);
        TotalCons(a, Filter(acts, p), StarsOf);
        assert Total(ActivitiesOn([a] + acts, dayOf, d), StarsOf) == a.starsEarned + Total(ActivitiesOn(acts, dayOf, d), StarsOf);
      } else {
        assert !p(a);
        assert ActivitiesOn([a] + acts, dayOf, d) == ActivitiesOn(acts, dayOf, d);
      }
    }
  }

  lemma {:induction false} StarsOverDaysEmpty(dayOf: Millis -> int, from: int, count: nat)
    ensures StarsOverDays([], dayOf, from, count) == 0
  {
    if count > 0 {
      StarsOverDaysEmpty(dayOf, from, count - 1);
    }
  }

  predicate InLastSevenDays(dayOf: Millis -> int, now: Millis, a: Activity)
  {
    dayOf(now) - 6 <= dayOf(a.completedAt) <= dayOf(now)
  }

  function InLastSevenDaysTest(dayOf: Millis -> int, now: Millis): Activity -> bool
  {
    a => InLastSevenDays(dayOf, now, a)
  }

  lemma {:induction false} StarsOverWeek(acts: seq<Activity>, dayOf: Millis -> int, now: Millis)
    ensures StarsOverDays(acts, dayOf, dayOf(now) - 6, 7)
         == Total(Filter(acts, InLastSevenDaysTest(dayOf, now)), StarsOf)
  {
    if acts == [] {
      StarsOverDaysEmpty(dayOf, dayOf(now) - 6, 7);
    } else {
      var a, rest := acts[0], acts[1..];
      assert acts == [a] + rest;
      StarsOverWeek(rest, dayOf, now);
      StarsOverDaysCons(a, rest, dayOf, dayOf(now) - 6, 7);
      var p := InLastSevenDaysTest(dayOf, now);
      FilterCons(a, rest, p);
      if InLastSevenDays(dayOf, now, a) {
        assert p(a);
        TotalCons(a, Filter(rest, p), StarsOf);
      } else {
        assert !p(a);
      }
    }
  }

  lemma {:induction false} ChartStarsPrefix(acts: seq<Activity>, dayOf: Millis -> int, now: Millis, k: nat)
    requires k <= 7
    ensures ChartStars(ProcessChartData(acts, dayOf, now)[..k]) == StarsOverDays(acts, dayOf, dayOf(now) - 6, k)
  {
    var chart := ProcessChartData(acts, dayOf, now);
    if k > 0 {
      ChartStarsPrefix(acts, dayOf, now, k - 1);
      var pre := chart[..k];
      assert pre[..k - 1] == chart[..k - 1];
      assert pre[k - 1] == Bucket(acts, dayOf, dayOf(now) - 6 + (k - 1));
      assert ChartStars(pre) == ChartStars(chart[..k - 1]) + pre[k - 1].stars;
    }
  }

  /** The chart's bars together hold exactly the stars of the activities of
      the last seven calendar days. */
  lemma ChartStarsAreWeekStars(acts: seq<Activity>, dayOf: Millis -> int, now: Millis)
    ensures ChartStars(ProcessChartData(acts, dayOf, now))
         == Total(Filter(acts, InLastSevenDaysTest(dayOf, now)), StarsOf)
  {
    var chart := ProcessChartData(acts, dayOf, now);
    ChartStarsPrefix(acts, dayOf, now, 7);
    assert chart[..7] == chart;
    StarsOverWeek(acts, dayOf, now);
  }

  // ---------------------------------------------------------------------
  // getFilteredActivities

  datatype TimeFilter = Today | Week | Month | All

  /** `7 * 24 * 60 * 60 * 1000`. */
  const WeekMillis: int := 604800000

  /** The per-activity test of the filter. The `month` window date is
      computed by the source but never consulted, so `Month` keeps everything
      exactly like `All`. */
  predicate KeptBy(mode: TimeFilter, dayOf: Millis -> int, now: Millis, a: Activity)
  {
    match mode
    case Today => OnDay(dayOf, dayOf(now), a)
    case Week => a.completedAt > now - WeekMillis
    case Month => true
    case All => true
  }

  function WindowTest(mode: TimeFilter, dayOf: Millis -> int, now: Millis): Activity -> bool
  {
    a => KeptBy(mode, dayOf, now, a)
  }

  /** `getFilteredActivities`: the activities the selected window keeps, in
      their original order; `month` and `all` keep the list as it is. */
  function GetFilteredActivities(acts: seq<Activity>, mode: TimeFilter, dayOf: Millis -> int, now: Millis): (r: seq<Activity>)
    ensures IsSubsequence(r, acts)
    ensures forall a :: a in r ==> KeptBy(mode, dayOf, now, a)
    ensures mode == Month || mode == All ==> r == acts
  {
    var r := Filter(acts, WindowTest(mode, dayOf, now));
    assert mode == Month || mode == All ==> r == acts by {
      if mode == Month || mode == All {
        FilterKeepsAll(acts, WindowTest(mode, dayOf, now));
      }
    }
    r
  }

  /** The filter keeps an order-preserving subsequence: under `Today` every
      activity of today's calendar day, under `Week` every activity strictly
      after `now - 7 * 24h`, each as often as it occurs, and nothing else;
      under `Month` and `All` the list itself. */
  lemma FilteredActivities(acts: seq<Activity>, mode: TimeFilter, dayOf: Millis -> int, now: Millis)
    ensures var r := GetFilteredActivities(acts, mode, dayOf, now);
      && IsSubsequence(r, acts)
      && (mode == Today ==> forall a :: multiset(r)[a] == if dayOf(a.completedAt) == dayOf(now) then multiset(acts)[a] else 0)
      && (mode == Week ==> forall a :: multiset(r)[a] == if a.completedAt > now - WeekMillis then multiset(acts)[a] else 0)
      && (mode == Month || mode == All ==> r == acts)
  {
    FilterCounts(acts, WindowTest(mode, dayOf, now));
    if mode == Month || mode == All {
      FilterKeepsAll(acts, WindowTest(mode, dayOf, now));
    }
  }

  /** The week filter is a rolling window and not the chart's seven
      calendar days: just after midnight it still keeps an activity of seven
      calendar days ago, which no bar of the chart counts. */
  lemma WeekFilterIsRolling()
    ensures var dayOf := (t: int) => t / 86400000;
      var now := 7 * 86400000 + 1000;
      var a := Activity(2000, 3, 60, 5, 5);
      && !InLastSevenDays(dayOf, now, a)
      && GetFilteredActivities([a], Week, dayOf, now) == [a]
  {
    var dayOf := (t: int) => t / 86400000;
    var now := 7 * 86400000 + 1000;
    var a := Activity(2000, 3, 60, 5, 5);
    FilterCons(a, [], WindowTest(Week, dayOf, now));
    assert [a] == [a] + [];
  }

  // ---------------------------------------------------------------------
  // Summary metrics

  predicate HasQuestions(a: Activity) { a.totalQuestions != 0 }

  /** `a.correct_answers_c / a.total_questions_c * 100`. */
  function Percent(a: Activity): real
    requires HasQuestions(a)
  {
    a.correctAnswers as real / a.totalQuestions as real * 100.0
  }

  function SumPercent(acts: seq<Activity>): real
    requires forall a :: a in acts ==> HasQuestions(a)
  {
    if acts == [] then 0.0 else Percent(acts[0]) + SumPercent(acts[1..])
  }

  /** `averageAccuracy`: 0 for no activities, else the rounded mean of the
      per-activity percentages. */
  function AverageAccuracy(acts: seq<Activity>): (r: int)
    requires forall a :: a in acts ==> HasQuestions(a)
    ensures acts == [] ==> r == 0
    ensures acts != [] ==> SumPercent(acts) / |acts| as real - 0.5 < r as real <= SumPercent(acts) / |acts| as real + 0.5
  {
    if |acts| > 0 then Round(SumPercent(acts) / |acts| as real) else 0
  }

  datatype Summary = Summary(totalTimeSpent: int, totalStars: int, averageAccuracy: int, count: nat)

  /** The four cards of the dashboard, computed over the filtered list. */
  function Summarize(filtered: seq<Activity>): (s: Summary)
    requires forall a :: a in filtered ==> HasQuestions(a)
    ensures s.count == |filtered|
    ensures filtered == [] ==> s == Summary(0, 0, 0, 0)
  {
    Summary(Total(filtered, TimeOf), Total(filtered, StarsOf), AverageAccuracy(filtered), |filtered|)
  }

  /** Between none and all of the questions answered correctly. */
  predicate WellFormedScore(a: Activity)
  {
    0 <= a.correctAnswers <= a.totalQuestions
  }

  lemma PercentInRange(a: Activity)
    requires HasQuestions(a) && WellFormedScore(a)
    ensures 0.0 <= Percent(a) <= 100.0
  {
    var c, t := a.correctAnswers as real, a.totalQuestions as real;
    assert c / t <= 1.0 by {
      assert c / t * t == c;
    }
  }

  lemma {:induction false} SumPercentInRange(acts: seq<Activity>)
    requires forall a :: a in acts ==> HasQuestions(a)
    requires forall a :: a in acts ==> WellFormedScore(a)
    ensures 0.0 <= SumPercent(acts) <= 100.0 * |acts| as real
  {
    if acts != [] {
      PercentInRange(acts[0]);
      SumPercentInRange(acts[1..]);
    }
  }

  /** The shown accuracy lies in [0, 100] when every record has between zero
      and all of its questions right. */
  lemma AccuracyInRange(acts: seq<Activity>)
    requires forall a :: a in acts ==> HasQuestions(a)
    requires forall a :: a in acts ==> WellFormedScore(a)
    ensures 0 <= AverageAccuracy(acts) <= 100
  {
    if acts != [] {
      SumPercentInRange(acts);
      var n := |acts| as real;
      var mean := SumPercent(acts) / n;
      assert 0.0 <= mean <= 100.0 by {
        assert mean * n == SumPercent(acts);
      }
    }
  }

  // ---------------------------------------------------------------------
  // Today's minutes

  /** `getTodayTime`: seconds spent on today's calendar day, over all
      activities (not only the filtered ones); it is the time total of the
      `today` filter. */
  function GetTodayTime(acts: seq<Activity>, dayOf: Millis -> int, now: Millis): (t: int)
    ensures t == Total(GetFilteredActivities(acts, Today, dayOf, now), TimeOf)
  {
    FilterExtensional(acts, OnDayTest(dayOf, dayOf(now)), WindowTest(Today, dayOf, now));
    Total(ActivitiesOn(acts, dayOf, dayOf(now)), TimeOf)
  }

  /** `Math.round(seconds / 60)`: integer division with the half minute
      added. */
  function Minutes(seconds: int): (r: int)
    ensures r == (seconds + 30) / 60
  {
    var q, m := (seconds + 30) / 60, (seconds + 30) % 60;
    assert seconds + 30 == 60 * q + m && 0 <= m < 60;
    var x := seconds as real / 60.0 + 0.5;
    assert x == q as real + m as real / 60.0;
    assert q as real <= x < q as real + 1.0;
    Round(seconds as real / 60.0)
  }

  /** `todayMinutes`: today's time to the nearest minute, halves up. */
  function TodayMinutes(acts: seq<Activity>, dayOf: Millis -> int, now: Millis): (r: int)
    ensures r == (Total(GetFilteredActivities(acts, Today, dayOf, now), TimeOf) + 30) / 60
  {
    Minutes(GetTodayTime(acts, dayOf, now))
  }

  /** The chart is built once, when the dashboard loads (`loadedAt`), while
      today's time is read at every render (`now`). While both instants fall
      on the same calendar day, today's time is the time of the chart's last
      bar. */
  lemma TodayTimeAgrees(acts: seq<Activity>, dayOf: Millis -> int, loadedAt: Millis, now: Millis)
    requires dayOf(loadedAt) == dayOf(now)
    ensures GetTodayTime(acts, dayOf, now) == ProcessChartData(acts, dayOf, loadedAt)[6].timeSpent
  {
    assert ChartDay(dayOf, loadedAt, 6) == dayOf(now);
  }

  /** Once the page stays open past midnight, the two disagree: an activity
      of the load day still fills the chart's last bar, and today's time no
      longer counts it. */
  lemma ChartGoesStaleAfterMidnight()
    ensures var dayOf := (t: int) => t / 86400000;
      var acts := [Activity(500, 3, 60, 5, 5)];
      && ProcessChartData(acts, dayOf, 1000)[6].timeSpent == 60
      && GetTodayTime(acts, dayOf, 86400010) == 0
  {
    var dayOf := (t: int) => t / 86400000;
    var a := Activity(500, 3, 60, 5, 5);
    var acts := [a];
    assert acts == [a] + [];
    FilterCons(a, [], OnDayTest(dayOf, 0));
    FilterCons(a, [], OnDayTest(dayOf, 1));
    TotalCons(a, [], TimeOf);
    assert ChartDay(dayOf, 1000, 6) == 0;
  }

  // ---------------------------------------------------------------------
  // getStrengthsAndWeaknesses

  /** Sorted by mastery, highest first. */
  predicate SortedByMasteryDesc(s: seq<ProgressRecord>)
  {
    forall i, j :: 0 <= i < j < |s| ==> s[i].masteryLevel >= s[j].masteryLevel
  }

  lemma SortedCons(h: ProgressRecord, t: seq<ProgressRecord>)
    requires SortedByMasteryDesc(t)
    requires forall y :: y in t ==> y.masteryLevel <= h.masteryLevel
    ensures SortedByMasteryDesc([h] + t)
  {
    forall i, j | 0 <= i < j < |[h] + t|
      ensures ([h] + t)[i].masteryLevel >= ([h] + t)[j].masteryLevel
    {
      assert ([h] + t)[j] == t[j - 1];
      if i > 0 {
        assert ([h] + t)[i] == t[i - 1];
      }
    }
  }

  /** Insert `x` before the first record whose mastery is not above its own. */
  function Insert(x: ProgressRecord, s: seq<ProgressRecord>): (r: seq<ProgressRecord>)
    requires SortedByMasteryDesc(s)
    ensures SortedByMasteryDesc(r)
    ensures multiset(r) == multiset([x] + s)
  {
    if s == [] || x.masteryLevel >= s[0].masteryLevel then
      SortedCons(x, s);
      [x] + s
    else
      var rest := Insert(x, s[1..]);
      BelowHead(x, s, rest);
      SortedCons(s[0], rest);
      [s[0]] + rest
  }

  /** Inserting below the head of a sorted list keeps every record at or
      below the head's mastery. */
  lemma BelowHead(x: ProgressRecord, s: seq<ProgressRecord>, rest: seq<ProgressRecord>)
    requires SortedByMasteryDesc(s) && s != [] && x.masteryLevel < s[0].masteryLevel
    requires multiset(rest) == multiset([x] + s[1..])
    ensures forall y :: y in rest ==> y.masteryLevel <= s[0].masteryLevel
    ensures multiset([s[0]] + rest) == multiset([x] + s)
  {
    assert s == [s[0]] + s[1..];
    forall y | y in rest
      ensures y.masteryLevel <= s[0].masteryLevel
    {
      assert y in multiset([x] + s[1..]);
      if y != x {
        assert y in s[1..];
      }
    }
  }

  /** `[...progress].sort((a, b) => b.mastery_level_c - a.mastery_level_c)`:
      a stable sort, highest mastery first, on a copy. */
  function SortByMastery(s: seq<ProgressRecord>): (r: seq<ProgressRecord>)
    ensures SortedByMasteryDesc(r)
    ensures multiset(r) == multiset(s)
    ensures |r| == |s|
  {
    if s == [] then []
    else
      assert s == [s[0]] + s[1..];
      Insert(s[0], SortByMastery(s[1..]))
  }

  function MasteryIs(m: int): ProgressRecord -> bool
  {
    (p: ProgressRecord) => p.masteryLevel == m
  }

  lemma {:induction false} InsertIsStable(x: ProgressRecord, s: seq<ProgressRecord>, m: int)
    requires SortedByMasteryDesc(s)
    ensures Filter(Insert(x, s), MasteryIs(m)) == Filter([x] + s, MasteryIs(m))
  {
    var p := MasteryIs(m);
    if !(s == [] || x.masteryLevel >= s[0].masteryLevel) {
      var rest := Insert(x, s[1..]);
      InsertIsStable(x, s[1..], m);
      FilterCons(s[0], rest, p);
      FilterCons(x, s[1..], p);
      FilterCons(x, s, p);
      assert s == [s[0]] + s[1..];
      FilterCons(s[0], s[1..], p);
    }
  }

  /** Stability: the records of any one mastery value keep their relative
      order. */
  lemma {:induction false} SortIsStable(s: seq<ProgressRecord>, m: int)
    ensures Filter(SortByMastery(s), MasteryIs(m)) == Filter(s, MasteryIs(m))
  {
    if s != [] {
      SortIsStable(s[1..], m);
      InsertIsStable(s[0], SortByMastery(s[1..]), m);
      FilterCons(s[0], SortByMastery(s[1..]), MasteryIs(m));
    }
  }

  datatype Ranking = Ranking(strengths: seq<ProgressRecord>, weaknesses: seq<ProgressRecord>)

  /** The top three (`slice(0, 3)`) and the bottom three, lowest first
      (`slice(-3).reverse()`), of a list sorted highest first. */
  function TopAndBottom(sorted: seq<ProgressRecord>): (r: Ranking)
    ensures |r.strengths| == Min(3, |sorted|) && |r.weaknesses| == Min(3, |sorted|)
  {
    var n := |sorted|;
    Ranking(sorted[..Min(3, n)], Reverse(sorted[n - Min(3, n)..]))
  }

  /** `getStrengthsAndWeaknesses`. */
  function GetStrengthsAndWeaknesses(progress: seq<ProgressRecord>): (r: Ranking)
    ensures progress == [] ==> r == Ranking([], [])
    ensures |r.strengths| == Min(3, |progress|) && |r.weaknesses| == Min(3, |progress|)
  {
    if |progress| == 0 then Ranking([], [])
    else TopAndBottom(SortByMastery(progress))
  }

  lemma {:induction false} ReverseMultiset<T>(s: seq<T>)
    ensures multiset(Reverse(s)) == multiset(s)
  {
    if s != [] {
      ReverseMultiset(s[1..]);
      assert s == [s[0]] + s[1..];
    }
  }

  lemma TopAndBottomContents(s: seq<ProgressRecord>)
    ensures multiset(TopAndBottom(s).strengths) <= multiset(s)
    ensures multiset(TopAndBottom(s).weaknesses) <= multiset(s)
  {
    var n := |s|;
    var k := Min(3, n);
    assert s == s[..k] + s[k..];
    assert s == s[..n - k] + s[n - k..];
    ReverseMultiset(s[n - k..]);
  }

  /** Strengths and weaknesses hold `min(3, n)` records each, all taken
      from `progress`. */
  lemma RankingContents(progress: seq<ProgressRecord>)
    ensures var r := GetStrengthsAndWeaknesses(progress);
      && |r.strengths| == Min(3, |progress|) && |r.weaknesses| == Min(3, |progress|)
      && multiset(r.strengths) <= multiset(progress)
      && multiset(r.weaknesses) <= multiset(progress)
  {
    if progress != [] {
      TopAndBottomContents(SortByMastery(progress));
    }
  }

  lemma SortedPrefix(s: seq<ProgressRecord>, k: nat)
    requires SortedByMasteryDesc(s) && k <= |s|
    ensures SortedByMasteryDesc(s[..k])
  {
    forall i, j | 0 <= i < j < k
      ensures s[..k][i].masteryLevel >= s[..k][j].masteryLevel
    {
      assert s[..k][i] == s[i] && s[..k][j] == s[j];
    }
  }

  lemma ReversedSuffixAscending(s: seq<ProgressRecord>, k: nat)
    requires SortedByMasteryDesc(s) && k <= |s|
    ensures var w := Reverse(s[|s| - k..]);
      forall i, j :: 0 <= i < j < |w| ==> w[i].masteryLevel <= w[j].masteryLevel
  {
    var n := |s|;
    var w := Reverse(s[n - k..]);
    forall i, j | 0 <= i < j < |w|
      ensures w[i].masteryLevel <= w[j].masteryLevel
    {
      assert w[i] == s[n - 1 - i] && w[j] == s[n - 1 - j];
    }
  }

  /** Strengths run from the highest mastery down, weaknesses from the lowest
      up. */
  lemma RankingOrder(progress: seq<ProgressRecord>)
    ensures var r := GetStrengthsAndWeaknesses(progress);
      && SortedByMasteryDesc(r.strengths)
      && (forall i, j :: 0 <= i < j < |r.weaknesses| ==> r.weaknesses[i].masteryLevel <= r.weaknesses[j].masteryLevel)
  {
    if progress != [] {
      var sorted := SortByMastery(progress);
      SortedPrefix(sorted, Min(3, |sorted|));
      ReversedSuffixAscending(sorted, Min(3, |sorted|));
    }
  }

  lemma TopAndBottomExtremes(s: seq<ProgressRecord>)
    requires SortedByMasteryDesc(s) && s != []
    ensures var r := TopAndBottom(s);
      forall i :: 0 <= i < |s| ==> r.weaknesses[0].masteryLevel <= s[i].masteryLevel <= r.strengths[0].masteryLevel
  {
    var n := |s|;
    var k := Min(3, n);
    assert TopAndBottom(s).strengths[0] == s[0];
    assert TopAndBottom(s).weaknesses[0] == s[n - k..][k - 1] == s[n - 1];
  }

  /** The first strength has the highest mastery of all records and the
      first weakness the lowest. */
  lemma RankingExtremes(progress: seq<ProgressRecord>)
    requires progress != []
    ensures var r := GetStrengthsAndWeaknesses(progress);
      forall p :: p in progress ==> r.weaknesses[0].masteryLevel <= p.masteryLevel <= r.strengths[0].masteryLevel
  {
    var sorted := SortByMastery(progress);
    TopAndBottomExtremes(sorted);
    forall p | p in progress
      ensures p in sorted
    {
      assert p in multiset(sorted);
    }
  }

  lemma TopAndBottomOverlap(s: seq<ProgressRecord>)
    ensures var r := TopAndBottom(s);
      && (|s| >= 6 ==> multiset(r.strengths) + multiset(r.weaknesses) <= multiset(s))
      && (|s| <= 3 ==> r.weaknesses == Reverse(r.strengths))
  {
    var n := |s|;
    if n >= 6 {
      assert s == s[..3] + s[3..n - 3] + s[n - 3..];
      ReverseMultiset(s[n - 3..]);
    } else if n <= 3 {
      assert s[..n] == s && s[n - n..] == s;
    }
  }

  /** With six or more records strengths and weaknesses are disjoint;
      with at most three both hold all records, in opposite orders. */
  lemma RankingOverlap(progress: seq<ProgressRecord>)
    ensures var r := GetStrengthsAndWeaknesses(progress);
      && (|progress| >= 6 ==> multiset(r.strengths) + multiset(r.weaknesses) <= multiset(progress))
      && (|progress| <= 3 ==> r.weaknesses == Reverse(r.strengths))
  {
    if progress != [] {
      TopAndBottomOverlap(SortByMastery(progress));
    }
  }

  lemma SortStep(x: ProgressRecord, s: seq<ProgressRecord>)
    ensures SortByMastery([x] + s) == Insert(x, SortByMastery(s))
  {
    assert ([x] + s)[1..] == s;
  }

  lemma InsertFront(x: ProgressRecord, s: seq<ProgressRecord>)
    requires SortedByMasteryDesc(s) && (s == [] || x.masteryLevel >= s[0].masteryLevel)
    ensures Insert(x, s) == [x] + s
  {
  }

  lemma InsertPast(x: ProgressRecord, s: seq<ProgressRecord>)
    requires SortedByMasteryDesc(s) && s != [] && x.masteryLevel < s[0].masteryLevel
    ensures Insert(x, s) == [s[0]] + Insert(x, s[1..])
  {
  }

  lemma SortTwo(b: ProgressRecord, c: ProgressRecord)
    requires c.masteryLevel > b.masteryLevel
    ensures SortByMastery([b, c]) == [c, b]
  {
    assert [c] == [c] + [];
    SortStep(c, []);
    InsertFront(c, []);
    assert [b, c] == [b] + [c];
    SortStep(b, [c]);
    InsertPast(b, [c]);
    InsertFront(b, []);
  }

  /** The three-skill example: skills A, B, C of mastery 90, 40, 70 give
      strengths A, C, B and weaknesses B, C, A. */
  lemma SortThree(a: ProgressRecord, b: ProgressRecord, c: ProgressRecord)
    requires a.masteryLevel > c.masteryLevel > b.masteryLevel
    ensures SortByMastery([a, b, c]) == [a, c, b]
  {
    SortTwo(b, c);
    var sbc := SortByMastery([b, c]);
    assert sbc == [c, b] && SortedByMasteryDesc(sbc);
    assert [a, b, c] == [a] + [b, c];
    SortStep(a, [b, c]);
    InsertFront(a, sbc);
    assert [a] + [c, b] == [a, c, b];
  }

  lemma ReverseThree<T>(a: T, b: T, c: T)
    ensures Reverse([a, b, c]) == [c, b, a]
  {
    var w := Reverse([a, b, c]);
    assert w[0] == c && w[1] == b && w[2] == a;
  }

  lemma RankingExample(a: ProgressRecord, b: ProgressRecord, c: ProgressRecord)
    requires a.masteryLevel == 90 && b.masteryLevel == 40 && c.masteryLevel == 70
    ensures GetStrengthsAndWeaknesses([a, b, c]).strengths == [a, c, b]
    ensures GetStrengthsAndWeaknesses([a, b, c]).weaknesses == [b, c, a]
  {
    SortThree(a, b, c);
    var sorted := [a, c, b];
    assert GetStrengthsAndWeaknesses([a, b, c]) == TopAndBottom(sorted);
    assert sorted[..3] == sorted && sorted[0..] == sorted;
    assert TopAndBottom(sorted) == Ranking(sorted, Reverse(sorted));
    ReverseThree(a, c, b);
  }

  /** The advice line: `weaknesses[0]?.skill_area_c || "new challenges"`. */
  function FocusSkill(r: Ranking): (s: string)
    ensures r.weaknesses == [] ==> s == "new challenges"
    ensures s != "new challenges" ==> r.weaknesses != [] && s == r.weaknesses[0].skillArea
    ensures r.weaknesses != [] && r.weaknesses[0].skillArea != "" ==> s == r.weaknesses[0].skillArea
    ensures r.weaknesses != [] && r.weaknesses[0].skillArea == "" ==> s == "new challenges"
  {
    if r.weaknesses != [] && r.weaknesses[0].skillArea != "" then r.weaknesses[0].skillArea
    else "new challenges"
  }

  /** The advised skill is one of minimum mastery whenever a skill is named. */
  lemma FocusSkillIsWeakest(progress: seq<ProgressRecord>)
    ensures var s := FocusSkill(GetStrengthsAndWeaknesses(progress));
      progress == [] ==> s == "new challenges"
    ensures var r := GetStrengthsAndWeaknesses(progress);
      progress != [] && r.weaknesses[0].skillArea != "" ==> FocusSkill(r) == r.weaknesses[0].skillArea
    ensures var s := FocusSkill(GetStrengthsAndWeaknesses(progress));
      s != "new challenges" ==>
        exists w :: w in progress && w.skillArea == s && forall p :: p in progress ==> w.masteryLevel <= p.masteryLevel
  {
    RankingContents(progress);
    var r := GetStrengthsAndWeaknesses(progress);
    if progress != [] {
      RankingExtremes(progress);
      var w := r.weaknesses[0];
      assert w in multiset(r.weaknesses);
      assert w in progress;
    }
  }
}
