/**
 * dashboard.php: the overview page's statistics, its two backward day-scan streaks and its
 * two charts. The page reads the 10 newest weight entries, the 7 newest exercise entries and
 * today's food entries, and computes everything from those.
 *
 * "Today" is a parameter; the DateTime arithmetic of the streak loops is one day per step.
 */
module DashboardPage {
  import opened Wrappers
  import opened Records
  import opened Php
  import opened PhpArray
  import opened Functions
  import opened DataHandler

  // ---------------------------------------------------------------- backward day scans

  /** The streak loops stop once the scanned day is more than 30 days before today. */
  const StreakWindow: nat := 30

  predicate HasEntryOn<T>(s: seq<T>, key: T -> int, day: Day) {
    exists k :: 0 <= k < |s| && key(s[k]) == day
  }

  /** The different dates the entries carry. */
  function DateSet<T>(s: seq<T>, key: T -> int): set<int> {
    set k | 0 <= k < |s| :: key(s[k])
  }

  /**
   * `n` is what the backward scan from `today` counts: every one of the n days up to today has
   * an entry, and either the day before them has none or the 30-day guard ended the scan.
   */
  predicate IsBackwardRun<T>(s: seq<T>, key: T -> int, today: Day, n: int) {
    && 0 <= n <= StreakWindow + 1
    && (forall d :: today - n < d <= today ==> HasEntryOn(s, key, d))
    && (n <= StreakWindow ==> !HasEntryOn(s, key, today - n))
  }

  /** The scan's count is determined by the entries and today. */
  lemma BackwardRunUnique<T>(s: seq<T>, key: T -> int, today: Day, a: int, b: int)
    requires IsBackwardRun(s, key, today, a) && IsBackwardRun(s, key, today, b)
    ensures a == b
  {
    if a != b {
      assert false;
    }
  }

  /** The inner foreach with its early break: is there an entry on `day`? */
  method HasEntry<T>(s: seq<T>, key: T -> int, day: Day) returns (found: bool)
    ensures found <==> HasEntryOn(s, key, day)
  {
    for i := 0 to |s|
      invariant forall k :: 0 <= k < i ==> key(s[k]) != day
    {
      if key(s[i]) == day {
        return true;
      }
    }
    return false;
  }

  /** The days today - n + 1 .. today. */
  function DayRange(today: Day, n: nat): (r: set<int>)
    ensures |r| == n
    ensures forall d :: d in r <==> today - n < d <= today
  {
    if n == 0 then {} else DayRange(today, n - 1) + {today - n + 1}
  }

  /** n consecutive days with entries are n different dates. */
  lemma RunWithinDates<T>(s: seq<T>, key: T -> int, today: Day, n: nat)
    requires forall d :: today - n < d <= today ==> HasEntryOn(s, key, d)
    ensures n <= |DateSet(s, key)|
  {
    var days := DayRange(today, n);
    var dates := DateSet(s, key);
    forall d | d in days
      ensures d in dates
    {
      assert HasEntryOn(s, key, d);
      var k :| 0 <= k < |s| && key(s[k]) == d;
    }
    assert dates == days + (dates - days);
  }

  /** There are never more dates than entries. */
  lemma {:induction false} DateSetSize<T>(s: seq<T>, key: T -> int)
    ensures |DateSet(s, key)| <= |s|
  {
    if s != [] {
      DateSetSize(s[1..], key);
      var rest := DateSet(s[1..], key);
      forall d | d in DateSet(s, key)
        ensures d in rest + {key(s[0])}
      {
        var k :| 0 <= k < |s| && key(s[k]) == d;
        if k > 0 {
          assert s[1..][k - 1] == s[k];
        }
      }
      forall d | d in rest
        ensures d in DateSet(s, key)
      {
        var k :| 0 <= k < |s[1..]| && key(s[1..][k]) == d;
        assert s[k + 1] == s[1..][k];
      }
      assert DateSet(s, key) == rest + {key(s[0])};
    }
  }

  /**
   * The loop shared by calculateExerciseStreak() and calculateWeightLogStreak(): step back
   * from today one day at a time while the day has an entry, at most 31 days.
   */
  method BackwardStreak<T>(s: seq<T>, key: T -> int, today: Day) returns (streak: nat)
    ensures s == [] ==> streak == 0
    ensures IsBackwardRun(s, key, today, streak)
    ensures !HasEntryOn(s, key, today) ==> streak == 0
    ensures streak <= |DateSet(s, key)|
  {
    if s == [] {
      return 0;
    }
    streak := 0;
    var currentDate := today;
    while currentDate >= today - StreakWindow
      invariant currentDate == today - streak
      invariant streak <= StreakWindow + 1
      invariant forall d :: currentDate < d <= today ==> HasEntryOn(s, key, d)
      decreases currentDate - (today - StreakWindow)
    {
      var hasEntry := HasEntry(s, key, currentDate);
      if hasEntry {
        streak := streak + 1;
        currentDate := currentDate - 1;
      } else {
        break;
      }
    }
    RunWithinDates(s, key, today, streak);
  }

  /** calculateExerciseStreak($exerciseData) */
  method CalculateExerciseStreak(exerciseData: seq<ExerciseEntry>, today: Day) returns (streak: nat)
    ensures exerciseData == [] ==> streak == 0
    ensures IsBackwardRun(exerciseData, ExerciseDate, today, streak)
    ensures streak <= |DateSet(exerciseData, ExerciseDate)|
  {
    streak := BackwardStreak(exerciseData, ExerciseDate, today);
  }

  /** calculateWeightLogStreak($userId): the same scan over the user's 30 newest weight entries. */
  method CalculateWeightLogStreak(weightFiles: Files<ListDoc<WeightEntry>>, userId: string, today: Day)
    returns (streak: nat)
    ensures var recent := GetWeightData(weightFiles, userId, 30);
      && IsBackwardRun(recent, WeightDate, today, streak)
      && streak <= |DateSet(recent, WeightDate)|
  {
    var weightData := GetWeightData(weightFiles, userId, 30);
    streak := BackwardStreak(weightData, WeightDate, today);
  }

  // ---------------------------------------------------------------- the statistics

  /**
   * ($currentWeight && $previousWeight) ? $currentWeight - $previousWeight : 0, on entries
   * newest first; a weight of 0 is falsy and also gives 0.
   */
  function WeightChange(weightData: seq<WeightEntry>): (change: real)
    ensures |weightData| < 2 ==> change == 0.0
    ensures |weightData| >= 2 && weightData[0].weight != 0.0 && weightData[1].weight != 0.0 ==>
      change == weightData[0].weight - weightData[1].weight
    ensures change != 0.0 ==> |weightData| >= 2 && change == weightData[0].weight - weightData[1].weight
  {
    if |weightData| >= 2 && weightData[0].weight != 0.0 && weightData[1].weight != 0.0
    then weightData[0].weight - weightData[1].weight
    else 0.0
  }

  function TrendOf(change: real): (t: Trend)
    ensures t == Up <==> change > 0.0
    ensures t == Down <==> change < 0.0
    ensures t == Stable <==> change == 0.0
  {
    if change > 0.0 then Up else if change < 0.0 then Down else Stable
  }

  /** The 'weight', 'exercise', 'food' and 'streaks' groups of calculateDashboardStats(). */
  datatype DashboardStats = DashboardStats(
    currentWeight: Option<real>,
    weightChange: real,
    trend: Trend,
    todayMinutes: int,
    weeklyMinutes: int,
    todayCalories: int,
    exerciseStreak: nat,
    foodCalories: int,
    meals: nat,
    weightLogStreak: nat)

  /** $thisWeek = date('Y-m-d', strtotime('-7 days')) */
  const WeekBack: int := 7

  /** Today's entries are among the week's: the today filter keeps a part of what the week filter keeps. */
  lemma TodayWithinWeek(exerciseData: seq<ExerciseEntry>, today: Day)
    ensures multiset(Within(exerciseData, ExerciseDate, today, today))
         <= multiset(AtLeast(exerciseData, ExerciseDate, today - WeekBack))
    ensures NonNegative(exerciseData, ExerciseDuration) ==>
      Sum(Within(exerciseData, ExerciseDate, today, today), ExerciseDuration)
      <= Sum(AtLeast(exerciseData, ExerciseDate, today - WeekBack), ExerciseDuration)
  {
    WithinCounts(exerciseData, ExerciseDate, today, today);
    AtLeastCounts(exerciseData, ExerciseDate, today - WeekBack);
    if NonNegative(exerciseData, ExerciseDuration) {
      WithinBelowAtLeast(exerciseData, ExerciseDate, today - WeekBack, today, today, ExerciseDuration);
    }
  }

  /**
   * What calculateDashboardStats() computes from the data it is given: the newest weight, the
   * change and its trend, today's and this week's exercise, the food totals and both streaks.
   */
  ghost predicate StatsOf(stats: DashboardStats, weightFiles: Files<ListDoc<WeightEntry>>, userId: string,
                          weightData: seq<WeightEntry>, exerciseData: seq<ExerciseEntry>, foodData: seq<FoodEntry>,
                          today: Day)
  {
    && stats.currentWeight == (if weightData == [] then None else Some(weightData[0].weight))
    && stats.weightChange == WeightChange(weightData)
    && stats.trend == TrendOf(stats.weightChange)
    && stats.todayMinutes == Sum(Within(exerciseData, ExerciseDate, today, today), ExerciseDuration)
    && stats.todayCalories == Sum(Within(exerciseData, ExerciseDate, today, today), ExerciseCalories)
    && stats.weeklyMinutes == Sum(AtLeast(exerciseData, ExerciseDate, today - WeekBack), ExerciseDuration)
    && stats.foodCalories == Sum(foodData, FoodCalories) && stats.meals == |foodData|
    && IsBackwardRun(exerciseData, ExerciseDate, today, stats.exerciseStreak)
    && IsBackwardRun(GetWeightData(weightFiles, userId, 30), WeightDate, today, stats.weightLogStreak)
  }

  /** calculateDashboardStats($userId, $weightData, $exerciseData, $foodData) */
  method CalculateDashboardStats(weightFiles: Files<ListDoc<WeightEntry>>, userId: string,
                                 weightData: seq<WeightEntry>, exerciseData: seq<ExerciseEntry>,
                                 foodData: seq<FoodEntry>, today: Day)
    returns (stats: DashboardStats)
    ensures StatsOf(stats, weightFiles, userId, weightData, exerciseData, foodData, today)
    ensures NonNegative(exerciseData, ExerciseDuration) ==> stats.todayMinutes <= stats.weeklyMinutes
    ensures stats.exerciseStreak <= |DateSet(exerciseData, ExerciseDate)|
  {
    var currentWeight := if weightData != [] then Some(weightData[0].weight) else None;
    var weightChange := WeightChange(weightData);
    var todayExercise := Within(exerciseData, ExerciseDate, today, today);
    var weeklyExercise := AtLeast(exerciseData, ExerciseDate, today - WeekBack);
    TodayWithinWeek(exerciseData, today);
    var exerciseStreak := CalculateExerciseStreak(exerciseData, today);
    var weightLogStreak := CalculateWeightLogStreak(weightFiles, userId, today);
    stats := DashboardStats(
      currentWeight, weightChange, TrendOf(weightChange),
      Sum(todayExercise, ExerciseDuration), Sum(weeklyExercise, ExerciseDuration), Sum(todayExercise, ExerciseCalories),
      exerciseStreak, Sum(foodData, FoodCalories), |foodData|, weightLogStreak);
  }

  // ---------------------------------------------------------------- the charts

  datatype WeightChart = WeightChart(labels: seq<Day>, values: seq<real>)

  /** The chart lists the entries oldest first: label k and value k come from entry |weightData|-1-k. */
  predicate ChartsReversed(chart: WeightChart, weightData: seq<WeightEntry>) {
    && |chart.labels| == |weightData| && |chart.values| == |weightData|
    && forall k :: 0 <= k < |weightData| ==>
         chart.labels[k] == weightData[|weightData| - 1 - k].date
         && chart.values[k] == weightData[|weightData| - 1 - k].weight
  }

  /** prepareWeightChartData($weightData): the entries reversed, one label and one value each. */
  method PrepareWeightChartData(weightData: seq<WeightEntry>) returns (chart: WeightChart)
    ensures ChartsReversed(chart, weightData)
    ensures SortedBy(weightData, WeightDate, Descending) ==>
      forall i, j :: 0 <= i < j < |chart.labels| ==> chart.labels[i] <= chart.labels[j]
  {
    var reversed := Reverse(weightData);
    var labels: seq<Day> := [];
    var values: seq<real> := [];
    for i := 0 to |reversed|
      invariant |labels| == i && |values| == i
      invariant forall k :: 0 <= k < i ==> labels[k] == reversed[k].date && values[k] == reversed[k].weight
    {
      labels := labels + [reversed[i].date];
      values := values + [reversed[i].weight];
    }
    chart := WeightChart(labels, values);
  }

  datatype DayChart = DayChart(labels: seq<Day>, values: seq<int>)

  /** The seven days of the exercise chart, oldest first. */
  const ChartDays: nat := 7

  /** `days` holds one total per day first..last: the minutes of the entries `seen` dated that day. */
  ghost predicate DayTotals(days: map<Day, int>, seen: seq<ExerciseEntry>, first: Day, last: Day) {
    && (forall d :: d in days <==> first <= d <= last)
    && (forall d :: d in days ==> days[d] == Sum(Within(seen, ExerciseDate, d, d), ExerciseDuration))
  }

  /** `$last7Days[$entry['date']] += $entry['duration']` when the date is one of the keys. */
  function AddToDay(days: map<Day, int>, entry: ExerciseEntry): map<Day, int> {
    if entry.date in days then days[entry.date := days[entry.date] + entry.duration] else days
  }

  lemma DayTotalsStep(days: map<Day, int>, seen: seq<ExerciseEntry>, entry: ExerciseEntry, first: Day, last: Day)
    requires DayTotals(days, seen, first, last)
    ensures DayTotals(AddToDay(days, entry), seen + [entry], first, last)
  {
    forall d | first <= d <= last
      ensures Sum(Within(seen + [entry], ExerciseDate, d, d), ExerciseDuration)
           == Sum(Within(seen, ExerciseDate, d, d), ExerciseDuration) + (if entry.date == d then entry.duration else 0)
    {
      WithinSumSnoc(seen, entry, ExerciseDate, d, d, ExerciseDuration);
    }
  }

  /**
   * prepareExerciseChartData($exerciseData): a zero per day of the last seven, then every
   * entry's duration added to its day when that day is one of them.
   */
  method PrepareExerciseChartData(exerciseData: seq<ExerciseEntry>, today: Day) returns (chart: DayChart)
    ensures |chart.labels| == ChartDays && |chart.values| == ChartDays
    ensures forall k :: 0 <= k < ChartDays ==> chart.labels[k] == today - (ChartDays - 1) + k
    ensures chart.values == DaySums(exerciseData, ExerciseDate, today - (ChartDays - 1), ChartDays, ExerciseDuration)
  {
    var first := today - (ChartDays - 1);
    var last7Days: map<Day, int> := map[];
    var i := ChartDays - 1;
    while i >= 0
      invariant -1 <= i <= ChartDays - 1
      invariant DayTotals(last7Days, [], first, today - i - 1)
    {
      last7Days := last7Days[today - i := 0];
      i := i - 1;
    }
    for j := 0 to |exerciseData|
      invariant DayTotals(last7Days, exerciseData[..j], first, today)
    {
      assert exerciseData[..j + 1] == exerciseData[..j] + [exerciseData[j]];
      DayTotalsStep(last7Days, exerciseData[..j], exerciseData[j], first, today);
      last7Days := AddToDay(last7Days, exerciseData[j]);
    }
    assert exerciseData[..|exerciseData|] == exerciseData;
    var labels := seq(ChartDays, k => first + k);
    var values := seq(ChartDays, k requires 0 <= k < ChartDays => last7Days[first + k]);
    DaySumsAt(exerciseData, ExerciseDate, first, ChartDays, ExerciseDuration);
    chart := DayChart(labels, values);
  }

  /** The chart ignores the entries outside its seven days: its bars add up to the window's minutes. */
  lemma ExerciseChartCoversWindow(exerciseData: seq<ExerciseEntry>, today: Day)
    ensures Sum(DaySums(exerciseData, ExerciseDate, today - (ChartDays - 1), ChartDays, ExerciseDuration), Identity)
         == Sum(Within(exerciseData, ExerciseDate, today - (ChartDays - 1), today), ExerciseDuration)
  {
    DaySumsTotal(exerciseData, ExerciseDate, today - (ChartDays - 1), ChartDays, ExerciseDuration);
  }

  // ---------------------------------------------------------------- the page

  /** What the page shows above its charts. */
  datatype Overview = Overview(stats: DashboardStats, bmi: Option<real>, bmiCategory: string,
                               weightChart: WeightChart, exerciseChart: DayChart)

  /** Lines 40-54: the BMI of the newest weight when a height is known, and both charts. */
  method BuildOverview(stats: DashboardStats, profile: Profile, recentWeight: seq<WeightEntry>,
                       recentExercise: seq<ExerciseEntry>, today: Day)
    returns (page: Overview)
    ensures page.stats == stats
    ensures page.bmi.Some? <==> !EmptyNumber(profile.height) && recentWeight != []
    ensures page.bmi.Some? ==> page.bmi.value == CalculateBmi(recentWeight[0].weight, profile.height.value)
                               && page.bmiCategory == GetBmiCategory(page.bmi.value)
    ensures page.bmi.None? ==> page.bmiCategory == ""
    ensures ChartsReversed(page.weightChart, recentWeight)
    ensures page.exerciseChart.values == DaySums(recentExercise, ExerciseDate, today - (ChartDays - 1), ChartDays, ExerciseDuration)
  {
    var bmi: Option<real> := None;
    var bmiCategory := "";
    if !EmptyNumber(profile.height) && recentWeight != [] {
      var b := CalculateBmi(recentWeight[0].weight, profile.height.value);
      bmi := Some(b);
      bmiCategory := GetBmiCategory(b);
    }
    var weightChart := PrepareWeightChartData(recentWeight);
    var exerciseChart := PrepareExerciseChartData(recentExercise, today);
    page := Overview(stats, bmi, bmiCategory, weightChart, exerciseChart);
  }

  /**
   * The page body of lines 18-54: the 10 newest weight entries, the 7 newest exercise entries
   * and today's food entries feed the statistics, the BMI and both charts.
   */
  method ShowDashboard(weightFiles: Files<ListDoc<WeightEntry>>, exerciseFiles: Files<ListDoc<ExerciseEntry>>,
                       foodFiles: Files<ListDoc<FoodEntry>>, user: User, today: Day)
    returns (page: Overview)
    ensures var recentWeight := GetWeightData(weightFiles, user.id, 10);
      var recentExercise := GetExerciseData(exerciseFiles, user.id, 7);
      && (page.bmi.Some? <==> !EmptyNumber(user.profile.height) && recentWeight != [])
      && (page.bmi.Some? ==> page.bmi.value == CalculateBmi(recentWeight[0].weight, user.profile.height.value)
                             && page.bmiCategory == GetBmiCategory(page.bmi.value))
      && (page.bmi.None? ==> page.bmiCategory == "")
      && StatsOf(page.stats, weightFiles, user.id, recentWeight, recentExercise,
                 GetFoodData(foodFiles, user.id, Some(today), 0), today)
      && ChartsReversed(page.weightChart, recentWeight)
      && page.exerciseChart.values == DaySums(recentExercise, ExerciseDate, today - (ChartDays - 1), ChartDays, ExerciseDuration)
      && page.stats.meals == |GetFoodData(foodFiles, user.id, Some(today), 0)|
    ensures page.stats.exerciseStreak <= 7
  {
    var recentWeight := GetWeightData(weightFiles, user.id, 10);
    var recentExercise := GetExerciseData(exerciseFiles, user.id, 7);
    var todayFood := GetFoodData(foodFiles, user.id, Some(today), 0);
    var stats := CalculateDashboardStats(weightFiles, user.id, recentWeight, recentExercise, todayFood, today);
    DateSetSize(recentExercise, ExerciseDate);
    page := BuildOverview(stats, user.profile, recentWeight, recentExercise, today);
  }
}
