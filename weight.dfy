/**
 * weight.php: the add_weight, delete_weight and set_goal actions, the statistics block
 * (current, highest, lowest, trend, windowed changes, goal progress) and the chart of the
 * last 30 days.
 *
 * Weights are exact reals; round() is the exact-real rounding of the Php module.
 */
module WeightPage {
  import opened Wrappers
  import opened Records
  import opened Php
  import opened PhpArray
  import opened Functions
  import opened DataHandler

  const AddedMessage: string := "Weight entry added successfully!"
  const AddFailedMessage: string := "Failed to add weight entry. Please try again."
  const DeletedMessage: string := "Weight entry deleted successfully!"
  const DeleteFailedMessage: string := "Failed to delete weight entry."
  const GoalSetMessage: string := "Weight goal set successfully!"
  const GoalFailedMessage: string := "Failed to set weight goal."
  const InvalidGoalMessage: string := "Please enter a valid goal weight."
  const TokenMismatchMessage: string := "Security token mismatch. Please try again."

  function InvalidWeightMessage(unit: string): string {
    "Please enter a valid weight between 1 and 999 " + unit
  }

  /** The bound both the weight and the goal forms apply: 0 < w < 1000. */
  predicate AcceptedWeight(w: real) {
    0.0 < w < 1000.0
  }

  // ---------------------------------------------------------------- the actions

  /** The add_weight form after floatval(); the strings as submitted, before sanitizeInput(). */
  datatype WeightForm = WeightForm(weight: real, unit: Option<string>, date: Option<Day>, notes: string)

  /**
   * The add_weight action: after the CSRF check, an entry is stored only when 0 < weight < 1000;
   * the unit defaults to the user's preferred one.
   */
  method AddWeight(dir: JsonDir<ListDoc<WeightEntry>>, userId: string, preferredUnit: string, storedToken: Option<string>,
                   token: string, form: WeightForm, today: Day, now: Time, stamp: string, idBytes: seq<Byte>, diskOk: bool)
    returns (message: string)
    requires |idBytes| == 4
    modifies dir
    ensures var unit := SanitizeString(form.unit.GetOr(preferredUnit));
      && (!VerifyCsrfToken(storedToken, token) ==> message == TokenMismatchMessage)
      && (VerifyCsrfToken(storedToken, token) && !AcceptedWeight(form.weight) ==> message == InvalidWeightMessage(unit))
      && (VerifyCsrfToken(storedToken, token) && AcceptedWeight(form.weight) ==>
            message == if diskOk then AddedMessage else AddFailedMessage)
    ensures var stored := VerifyCsrfToken(storedToken, token) && AcceptedWeight(form.weight);
      var name := WeightFile(userId);
      var entry := NewWeightEntry(form.weight, SanitizeString(form.unit.GetOr(preferredUnit)), form.date,
                                  SanitizeString(form.notes), today, now, idBytes);
      && dir.files == (if stored && diskOk
                       then old(dir.files)[name := Some(WithEntry(ReadJsonFile(old(dir.files), name), entry))]
                       else old(dir.files))
      && dir.backups == (if stored then BackupsAfterWrite(old(dir.backups), old(dir.files), name, now, stamp) else old(dir.backups))
  {
    if !VerifyCsrfToken(storedToken, token) {
      return TokenMismatchMessage;
    }
    var unit := SanitizeString(form.unit.GetOr(preferredUnit));
    var notes := SanitizeString(form.notes);
    if AcceptedWeight(form.weight) {
      var ok := AddWeightEntry(dir, userId, form.weight, unit, form.date, notes, today, now, stamp, idBytes, diskOk);
      message := if ok then AddedMessage else AddFailedMessage;
    } else {
      message := InvalidWeightMessage(unit);
    }
  }

  /** The delete_weight action: deleteEntry() on the user's weight file, after the CSRF check. */
  method DeleteWeight(dir: JsonDir<ListDoc<WeightEntry>>, userId: string, storedToken: Option<string>, token: string,
                      entryId: string, now: Time, stamp: string, diskOk: bool)
    returns (message: string)
    modifies dir
    ensures !VerifyCsrfToken(storedToken, token) ==>
      message == TokenMismatchMessage && dir.files == old(dir.files) && dir.backups == old(dir.backups)
    ensures var name := WeightFile(userId);
      var result := DeletionResult(ReadJsonFile(old(dir.files), name), WeightId, SanitizeString(entryId));
      VerifyCsrfToken(storedToken, token) ==>
        && message == (if diskOk && result.Some? then DeletedMessage else DeleteFailedMessage)
        && dir.files == (if diskOk && result.Some? then old(dir.files)[name := result] else old(dir.files))
        && dir.backups == (if result.Some? then BackupsAfterWrite(old(dir.backups), old(dir.files), name, now, stamp)
                           else old(dir.backups))
  {
    if !VerifyCsrfToken(storedToken, token) {
      return TokenMismatchMessage;
    }
    var ok := DeleteEntry(dir, WeightFile(userId), SanitizeString(entryId), WeightId, now, stamp, diskOk);
    message := if ok then DeletedMessage else DeleteFailedMessage;
  }

  /** The user record with the new goal written into its profile. */
  function WithGoal(user: User, goalWeight: real, goalDate: string): (u: User)
    ensures u.profile.weightGoal == Some(goalWeight) && u.profile.goalDate == Some(goalDate)
    ensures u.(profile := user.profile) == user
    ensures u.profile.(weightGoal := user.profile.weightGoal, goalDate := user.profile.goalDate) == user.profile
  {
    user.(profile := user.profile.(weightGoal := Some(goalWeight), goalDate := Some(goalDate)))
  }

  /**
   * The set_goal action: a goal 0 < goal < 1000 is written into the profile and the user record
   * saved; `profile` is the profile the rest of the page then works with.
   */
  method SetGoal(users: JsonDir<User>, user: User, storedToken: Option<string>, token: string, goalWeight: real,
                 goalDate: string, now: Time, stamp: string, diskOk: bool)
    returns (message: string, profile: Profile)
    modifies users
    ensures var saved := VerifyCsrfToken(storedToken, token) && AcceptedWeight(goalWeight);
      var updated := WithGoal(user, goalWeight, SanitizeString(goalDate));
      && message == (if !VerifyCsrfToken(storedToken, token) then TokenMismatchMessage
                     else if !AcceptedWeight(goalWeight) then InvalidGoalMessage
                     else if diskOk then GoalSetMessage else GoalFailedMessage)
      && profile == (if saved && diskOk then updated.profile else user.profile)
      && users.files == (if saved && diskOk then old(users.files)[UserFile(user.id) := Some(updated.(updatedAt := Some(now)))]
                         else old(users.files))
      && users.backups == (if saved then BackupsAfterWrite(old(users.backups), old(users.files), UserFile(user.id), now, stamp)
                           else old(users.backups))
  {
    profile := user.profile;
    if !VerifyCsrfToken(storedToken, token) {
      return TokenMismatchMessage, profile;
    }
    if !AcceptedWeight(goalWeight) {
      return InvalidGoalMessage, profile;
    }
    var updated := WithGoal(user, goalWeight, SanitizeString(goalDate));
    var ok := SaveUserData(users, user.id, updated, now, stamp, diskOk);
    if ok {
      message, profile := GoalSetMessage, updated.profile;
    } else {
      message := GoalFailedMessage;
    }
  }

  // ---------------------------------------------------------------- the statistics

  /**
   * The trend rule on weights newest first: the newest against the fifth-newest (or the oldest,
   * with fewer than five), with a dead band of one unit either way.
   */
  function RecentTrend(weights: seq<real>): (t: Trend)
    requires |weights| > 0
    ensures var d := weights[0] - weights[Min(4, |weights| - 1)];
      && (t == Up <==> d > 1.0)
      && (t == Down <==> d < -1.0)
      && (t == Stable <==> -1.0 <= d <= 1.0)
    ensures |weights| == 1 ==> t == Stable
  {
    var recentChange := weights[0] - weights[Min(4, |weights| - 1)];
    if recentChange > 1.0 then Up else if recentChange < -1.0 then Down else Stable
  }

  /** Sorted newest first, the entries dated `lo` or later begin with the newest and end with the oldest of them. */
  lemma WindowEnds(sorted: seq<WeightEntry>, lo: Day)
    requires SortedBy(sorted, WeightDate, Descending)
    ensures var window := AtLeast(sorted, WeightDate, lo);
      |window| > 0 ==>
        forall e :: e in sorted && e.date >= lo ==> window[|window| - 1].date <= e.date <= window[0].date
  {
    var window := AtLeast(sorted, WeightDate, lo);
    SortedAtLeast(sorted, WeightDate, lo, Descending);
    if |window| > 0 {
      forall e | e in sorted && e.date >= lo
        ensures window[|window| - 1].date <= e.date <= window[0].date
      {
        assert WeightDate(e) >= lo;
        assert e in window;
        var j :| 0 <= j < |window| && window[j] == e;
        assert InOrder(WeightDate(window[0]), WeightDate(window[j]), Descending) || j == 0;
        assert InOrder(WeightDate(window[j]), WeightDate(window[|window| - 1]), Descending) || j == |window| - 1;
      }
    }
  }

  /** `change` is the newest weight minus the oldest among the entries dated `lo` or later. */
  predicate NewestMinusOldest(entries: seq<WeightEntry>, lo: Day, change: real) {
    exists newest, oldest ::
      && newest in entries && oldest in entries && newest.date >= lo && oldest.date >= lo
      && (forall e :: e in entries && e.date >= lo ==> oldest.date <= e.date <= newest.date)
      && change == newest.weight - oldest.weight
  }

  /** At least two entries are dated `lo` or later. */
  predicate SeveralSince(entries: seq<WeightEntry>, lo: Day) {
    |AtLeast(entries, WeightDate, lo)| > 1
  }

  /**
   * Among the entries dated `lo` or later, newest first: the newest weight minus the oldest,
   * when there are at least two of them.
   */
  function WindowChange(sorted: seq<WeightEntry>, lo: Day): (r: Option<real>)
    requires SortedBy(sorted, WeightDate, Descending)
    ensures r.Some? <==> SeveralSince(sorted, lo)
    ensures r.Some? ==> NewestMinusOldest(sorted, lo, r.value)
  {
    var window := AtLeast(sorted, WeightDate, lo);
    if |window| > 1 then
      WindowEndsWitness(sorted, lo);
      Some(window[0].weight - window[|window| - 1].weight)
    else None
  }

  /** The first and the last entry of the window witness NewestMinusOldest. */
  lemma WindowEndsWitness(sorted: seq<WeightEntry>, lo: Day)
    requires SortedBy(sorted, WeightDate, Descending)
    requires |AtLeast(sorted, WeightDate, lo)| > 0
    ensures var window := AtLeast(sorted, WeightDate, lo);
      NewestMinusOldest(sorted, lo, window[0].weight - window[|window| - 1].weight)
  {
    var window := AtLeast(sorted, WeightDate, lo);
    var newest, oldest := window[0], window[|window| - 1];
    assert newest in window && oldest in window;
    WindowEnds(sorted, lo);
  }

  /** $achieved / $totalNeeded * 100: 0 for nothing achieved, 100 when all of it is. */
  function Percent(achieved: real, needed: real): (p: real)
    requires needed > 0.0
    ensures achieved >= 0.0 ==> p >= 0.0
    ensures achieved == 0.0 ==> p == 0.0
    ensures achieved == needed ==> p == 100.0
  {
    assert needed / needed == 1.0;
    achieved / needed * 100.0
  }

  lemma RoundHundred()
    ensures Round(100.0) == 100.0
  {
    assert (100.0 * 10.0 + 0.5).Floor == 1000;
  }

  /**
   * min(100, round(achieved / needed * 100, 1)) with the start at the highest weight: 0 at
   * the start, 100 at the goal, never above 100.
   */
  function GoalProgress(start: real, current: real, goal: real): (p: real)
    requires start != goal
    ensures 0.0 <= p <= 100.0
    ensures current == start ==> p == 0.0
    ensures current == goal ==> p == 100.0
  {
    var totalNeeded := if start >= goal then start - goal else goal - start;
    var achieved := if start >= current then start - current else current - start;
    var ratio := Percent(achieved, totalNeeded);
    RoundHundred();
    MinReal(100.0, Round(ratio))
  }

  /** `days` is the largest difference between the dates of two entries. */
  predicate WidestSpan(entries: seq<WeightEntry>, days: int) {
    && (forall x, y :: x in entries && y in entries ==> x.date - y.date <= days)
    && (exists x, y :: x in entries && y in entries && days == x.date - y.date)
  }

  /** The span in days between the oldest and the newest of entries sorted newest first. */
  function DaysTracking(sorted: seq<WeightEntry>): (days: int)
    requires |sorted| > 1 && SortedBy(sorted, WeightDate, Descending)
    ensures days >= 0
    ensures WidestSpan(sorted, days)
  {
    var newest, oldest := sorted[0], sorted[|sorted| - 1];
    assert newest in sorted && oldest in sorted;
    assert forall x :: x in sorted ==> oldest.date <= x.date <= newest.date by {
      forall x | x in sorted
        ensures oldest.date <= x.date <= newest.date
      {
        var j :| 0 <= j < |sorted| && sorted[j] == x;
      }
    }
    newest.date - oldest.date
  }

  /** The sum of the weights lies between their count times a lower and an upper bound. */
  lemma {:induction false} SumWithin(entries: seq<WeightEntry>, lowest: real, highest: real)
    requires forall k :: 0 <= k < |entries| ==> lowest <= entries[k].weight <= highest
    ensures |entries| as real * lowest <= SumReal(entries, WeightValue) <= |entries| as real * highest
  {
    if entries != [] {
      SumWithin(entries[1..], lowest, highest);
    }
  }

  /** round(array_sum($weights) / count($weights), 1) */
  function MeanWeight(entries: seq<WeightEntry>): (r: real)
    requires entries != []
    ensures -0.05 <= r - SumReal(entries, WeightValue) / |entries| as real <= 0.05
  {
    Round(SumReal(entries, WeightValue) / |entries| as real)
  }

  /** The rounded mean lies within half a rounding step of the range of the weights. */
  lemma MeanWithin(entries: seq<WeightEntry>, lowest: real, highest: real)
    requires entries != []
    requires forall k :: 0 <= k < |entries| ==> lowest <= entries[k].weight <= highest
    ensures lowest - 0.05 <= MeanWeight(entries) <= highest + 0.05
  {
    var n := |entries| as real;
    var sum := SumReal(entries, WeightValue);
    SumWithin(entries, lowest, highest);
    var mean := sum / n;
    assert lowest <= mean <= highest by {
      assert mean * n == sum;
    }
  }

  /** The array calculateWeightStats() returns. */
  datatype WeightStats = WeightStats(
    current: Option<real>,
    highest: Option<real>,
    lowest: Option<real>,
    average: Option<real>,
    totalEntries: nat,
    goalWeight: Option<real>,
    goalDate: Option<string>,
    progress: Option<real>,
    trend: Trend,
    weeklyChange: real,
    monthlyChange: real,
    bmi: Option<real>,
    bmiCategory: string,
    daysTracking: int)

  /** The defaults calculateWeightStats() starts from and returns for no entries. */
  function InitialStats(count: nat, profile: Profile): (r: WeightStats)
    ensures r.current.None? && r.highest.None? && r.lowest.None? && r.average.None?
    ensures r.progress.None? && r.bmi.None? && r.bmiCategory == ""
    ensures r.totalEntries == count && r.goalWeight == profile.weightGoal && r.goalDate == profile.goalDate
    ensures r.trend == Stable && r.weeklyChange == 0.0 && r.monthlyChange == 0.0 && r.daysTracking == 0
  {
    WeightStats(None, None, None, None, count, profile.weightGoal, profile.goalDate, None, Stable, 0.0, 0.0, None, "", 0)
  }

  const WeekBack: int := 7
  const MonthBack: int := 30

  /**
   * `current` is the weight of an entry no other entry is newer than, and `highest` and
   * `lowest` are the largest and the smallest weight of the entries.
   */
  predicate Summarises(entries: seq<WeightEntry>, current: real, highest: real, lowest: real) {
    && lowest <= current <= highest
    && (exists e :: e in entries && e.weight == current && forall x :: x in entries ==> x.date <= e.date)
    && (forall e :: e in entries ==> lowest <= e.weight <= highest)
    && (exists e :: e in entries && e.weight == highest)
    && (exists e :: e in entries && e.weight == lowest)
  }

  /** The first, max() and min() of the weight column of the newest-first order summarise the entries. */
  lemma SortedExtremes(entries: seq<WeightEntry>)
    requires entries != []
    ensures var weights := Column(Sort(entries, WeightDate, Descending), WeightValue);
      Summarises(entries, weights[0], MaxOf(weights), MinOf(weights))
  {
    var sorted := Sort(entries, WeightDate, Descending);
    var weights := Column(sorted, WeightValue);
    assert sorted[0] in multiset(entries);
    forall x | x in entries
      ensures x.date <= sorted[0].date && MinOf(weights) <= x.weight <= MaxOf(weights)
    {
      assert x in multiset(sorted);
      var j :| 0 <= j < |sorted| && sorted[j] == x;
      assert weights[j] == x.weight;
      assert j == 0 || InOrder(WeightDate(sorted[0]), WeightDate(sorted[j]), Descending);
    }
    assert sorted[0] in entries;
    var i :| 0 <= i < |weights| && weights[i] == MaxOf(weights);
    assert sorted[i] in multiset(entries);
    var k :| 0 <= k < |weights| && weights[k] == MinOf(weights);
    assert sorted[k] in multiset(entries);
  }

  /** The weekly or monthly change: the newest minus the oldest weight dated `lo` or later, rounded, else 0. */
  function RoundedChange(sorted: seq<WeightEntry>, lo: Day): (r: real)
    requires SortedBy(sorted, WeightDate, Descending)
    ensures !SeveralSince(sorted, lo) ==> r == 0.0
    ensures SeveralSince(sorted, lo) ==> ChangedBy(sorted, lo, r)
  {
    var change := WindowChange(sorted, lo);
    if change.Some? then Round(change.value) else 0.0
  }

  /** Entries in another order give the same window sizes, window changes and spans. */
  lemma SameEntries(entries: seq<WeightEntry>, sorted: seq<WeightEntry>, lo: Day, change: real, days: int)
    requires multiset(sorted) == multiset(entries)
    ensures SeveralSince(sorted, lo) <==> SeveralSince(entries, lo)
    ensures NewestMinusOldest(sorted, lo, change) <==> NewestMinusOldest(entries, lo, change)
    ensures WidestSpan(sorted, days) <==> WidestSpan(entries, days)
  {
    AtLeastMultiset(sorted, entries, WeightDate, lo);
    assert |multiset(AtLeast(sorted, WeightDate, lo))| == |multiset(AtLeast(entries, WeightDate, lo))|;
    assert forall x :: x in sorted <==> x in entries by {
      forall x
        ensures x in sorted <==> x in entries
      {
        assert x in sorted <==> x in multiset(sorted);
      }
    }
  }

  /** `change` is the rounded newest minus oldest weight of the entries dated `lo` or later. */
  ghost predicate ChangedBy(entries: seq<WeightEntry>, lo: Day, change: real) {
    exists c :: NewestMinusOldest(entries, lo, c) && change == Round(c)
  }

  /** A change is set only when at least two entries fall in its window, and is then their rounded change. */
  lemma RoundedChangeMeaning(entries: seq<WeightEntry>, lo: Day)
    requires entries != []
    ensures var sorted := Sort(entries, WeightDate, Descending);
      && (SeveralSince(entries, lo) ==> ChangedBy(entries, lo, RoundedChange(sorted, lo)))
      && (!SeveralSince(entries, lo) ==> RoundedChange(sorted, lo) == 0.0)
  {
    var sorted := Sort(entries, WeightDate, Descending);
    var change := WindowChange(sorted, lo);
    var c := if change.Some? then change.value else 0.0;
    SameEntries(entries, sorted, lo, c, 0);
  }

  /**
   * current is the newest weight, highest and lowest the extremes, and average the rounded
   * mean, which lies between the extremes up to rounding.
   */
  predicate SummaryOf(entries: seq<WeightEntry>, current: real, highest: real, lowest: real, average: real) {
    && Summarises(entries, current, highest, lowest)
    && average == MeanWeight(Sort(entries, WeightDate, Descending))
    && lowest - 0.05 <= average <= highest + 0.05
  }

  /**
   * The trend follows the newest-first weights; each change is the rounded change of its
   * window when at least two entries fall in it and 0 otherwise; days is the widest span.
   */
  ghost predicate ChangesOf(entries: seq<WeightEntry>, today: Day, trend: Trend, weeklyChange: real,
                            monthlyChange: real, days: int) {
    && |entries| > 1
    && trend == RecentTrend(Column(Sort(entries, WeightDate, Descending), WeightValue))
    && (SeveralSince(entries, today - WeekBack) ==> ChangedBy(entries, today - WeekBack, weeklyChange))
    && (!SeveralSince(entries, today - WeekBack) ==> weeklyChange == 0.0)
    && (SeveralSince(entries, today - MonthBack) ==> ChangedBy(entries, today - MonthBack, monthlyChange))
    && (!SeveralSince(entries, today - MonthBack) ==> monthlyChange == 0.0)
    && days >= 0 && WidestSpan(entries, days)
  }

  /** max(), min() and the rounded mean of the weights, with the entries sorted newest first. */
  method Summary(entries: seq<WeightEntry>) returns (sorted: seq<WeightEntry>, current: real, highest: real,
                                                     lowest: real, average: real)
    requires entries != []
    ensures sorted == Sort(entries, WeightDate, Descending)
    ensures SummaryOf(entries, current, highest, lowest, average)
  {
    sorted := Sort(entries, WeightDate, Descending);
    var weights := Column(sorted, WeightValue);
    SortedExtremes(entries);
    current, highest, lowest := weights[0], MaxOf(weights), MinOf(weights);
    forall k | 0 <= k < |sorted|
      ensures lowest <= sorted[k].weight <= highest
    {
      assert weights[k] == sorted[k].weight;
    }
    MeanWithin(sorted, lowest, highest);
    average := MeanWeight(sorted);
  }

  /** The "trends and changes" block, run when there are at least two entries. */
  method Changes(entries: seq<WeightEntry>, sorted: seq<WeightEntry>, today: Day)
    returns (trend: Trend, weeklyChange: real, monthlyChange: real, days: int)
    requires |entries| > 1 && sorted == Sort(entries, WeightDate, Descending)
    ensures ChangesOf(entries, today, trend, weeklyChange, monthlyChange, days)
  {
    trend := RecentTrend(Column(sorted, WeightValue));
    weeklyChange := RoundedChange(sorted, today - WeekBack);
    RoundedChangeMeaning(entries, today - WeekBack);
    monthlyChange := RoundedChange(sorted, today - MonthBack);
    RoundedChangeMeaning(entries, today - MonthBack);
    days := DaysTracking(sorted);
    SameEntries(entries, sorted, today, 0.0, days);
  }

  /** calculateWeightStats($entries, $profile), with today's date as a parameter. */
  method CalculateWeightStats(entries: seq<WeightEntry>, profile: Profile, today: Day) returns (stats: WeightStats)
    ensures entries == [] ==> stats == InitialStats(0, profile)
    ensures stats.totalEntries == |entries| && stats.goalWeight == profile.weightGoal && stats.goalDate == profile.goalDate
    ensures entries != [] ==>
      && stats.current.Some? && stats.highest.Some? && stats.lowest.Some? && stats.average.Some?
      && SummaryOf(entries, stats.current.value, stats.highest.value, stats.lowest.value, stats.average.value)
    ensures |entries| <= 1 ==>
      stats.trend == Stable && stats.weeklyChange == 0.0 && stats.monthlyChange == 0.0 && stats.daysTracking == 0
    ensures |entries| > 1 ==>
      ChangesOf(entries, today, stats.trend, stats.weeklyChange, stats.monthlyChange, stats.daysTracking)
    ensures stats.progress.Some? <==>
      entries != [] && !EmptyNumber(profile.weightGoal) && stats.highest.value != profile.weightGoal.value
    ensures stats.progress.Some? ==>
      stats.progress.value == GoalProgress(stats.highest.value, stats.current.value, profile.weightGoal.value)
    ensures stats.bmi.Some? <==> entries != [] && !EmptyNumber(profile.height)
    ensures stats.bmi.Some? ==>
      stats.bmi.value == CalculateBmi(stats.current.value, profile.height.value)
      && stats.bmiCategory == GetBmiCategory(stats.bmi.value)
    ensures stats.bmi.None? ==> stats.bmiCategory == ""
  {
    stats := InitialStats(|entries|, profile);
    if entries == [] {
      return;
    }
    var sorted, current, highest, lowest, average := Summary(entries);
    stats := stats.(current := Some(current), highest := Some(highest), lowest := Some(lowest), average := Some(average));
    if !EmptyNumber(profile.height) {
      var bmi := CalculateBmi(current, profile.height.value);
      stats := stats.(bmi := Some(bmi), bmiCategory := GetBmiCategory(bmi));
    }
    if |entries| > 1 {
      var trend, weeklyChange, monthlyChange, days := Changes(entries, sorted, today);
      stats := stats.(trend := trend, weeklyChange := weeklyChange, monthlyChange := monthlyChange, daysTracking := days);
    }
    if !EmptyNumber(profile.weightGoal) && highest != profile.weightGoal.value {
      stats := stats.(progress := Some(GoalProgress(highest, current, profile.weightGoal.value)));
    }
  }

  // ---------------------------------------------------------------- the chart

  datatype WeightChart = WeightChart(labels: seq<Day>, weights: seq<real>, dates: seq<Day>)

  /** The rows of the chart are entries dated on or after the cutoff, oldest first. */
  lemma ChartRows(entries: seq<WeightEntry>, sorted: seq<WeightEntry>, cutoff: Day)
    requires multiset(sorted) == multiset(AtLeast(entries, WeightDate, cutoff))
    requires SortedBy(sorted, WeightDate, Ascending)
    ensures forall k :: 0 <= k < |sorted| ==> sorted[k] in entries && sorted[k].date >= cutoff
    ensures forall i, j :: 0 <= i < j < |sorted| ==> sorted[i].date <= sorted[j].date
  {
    var kept := AtLeast(entries, WeightDate, cutoff);
    forall k | 0 <= k < |sorted|
      ensures sorted[k] in entries && sorted[k].date >= cutoff
    {
      assert sorted[k] in multiset(kept);
      assert sorted[k] in kept;
    }
    forall i, j | 0 <= i < j < |sorted|
      ensures sorted[i].date <= sorted[j].date
    {
      assert InOrder(WeightDate(sorted[i]), WeightDate(sorted[j]), Ascending);
    }
  }

  /** Some entry records `weight` on `date`. */
  predicate Recorded(entries: seq<WeightEntry>, date: Day, weight: real) {
    exists e :: e in entries && e.date == date && e.weight == weight
  }

  /** The foreach of prepareWeightChartData(): one label, weight and date per row, in order. */
  method ChartColumns(rows: seq<WeightEntry>) returns (chart: WeightChart)
    ensures |chart.labels| == |rows| && |chart.weights| == |rows| && |chart.dates| == |rows|
    ensures forall k :: 0 <= k < |rows| ==>
      chart.labels[k] == rows[k].date && chart.weights[k] == rows[k].weight && chart.dates[k] == rows[k].date
  {
    var labels: seq<Day> := [];
    var weights: seq<real> := [];
    var dates: seq<Day> := [];
    for i := 0 to |rows|
      invariant |labels| == i && |weights| == i && |dates| == i
      invariant forall k :: 0 <= k < i ==>
        labels[k] == rows[k].date && weights[k] == rows[k].weight && dates[k] == rows[k].date
    {
      labels := labels + [rows[i].date];
      weights := weights + [rows[i].weight];
      dates := dates + [rows[i].date];
    }
    chart := WeightChart(labels, weights, dates);
  }

  /** The rows prepareWeightChartData() walks: the entries dated `cutoff` or later, oldest first. */
  function ChartRowsOf(entries: seq<WeightEntry>, cutoff: Day): seq<WeightEntry> {
    Sort(AtLeast(entries, WeightDate, cutoff), WeightDate, Ascending)
  }

  /** An entry's point on the chart: its date and its weight. */
  function Point(e: WeightEntry): (Day, real) {
    (e.date, e.weight)
  }

  /** The chart's (date, weight) points, in chart order. */
  function ChartPoints(chart: WeightChart): seq<(Day, real)>
    requires |chart.weights| == |chart.dates|
  {
    seq(|chart.dates|, k requires 0 <= k < |chart.dates| => (chart.dates[k], chart.weights[k]))
  }

  /** The chart built from those rows has one point per kept entry, the same points in some order. */
  lemma ChartKeepsDates(entries: seq<WeightEntry>, cutoff: Day, chart: WeightChart)
    requires var rows := ChartRowsOf(entries, cutoff);
      && |chart.dates| == |rows| && |chart.weights| == |rows|
      && forall k :: 0 <= k < |rows| ==> chart.dates[k] == rows[k].date && chart.weights[k] == rows[k].weight
    ensures var kept := AtLeast(entries, WeightDate, cutoff);
      && |chart.dates| == |kept|
      && multiset(chart.dates) == multiset(Column(kept, WeightDate))
      && multiset(ChartPoints(chart)) == multiset(Column(kept, Point))
  {
    var kept := AtLeast(entries, WeightDate, cutoff);
    var sorted := ChartRowsOf(entries, cutoff);
    assert chart.dates == Column(sorted, WeightDate);
    assert ChartPoints(chart) == Column(sorted, Point);
    ColumnPermutation(sorted, kept, WeightDate);
    ColumnPermutation(sorted, kept, Point);
  }

  /** What the chart built from those rows shows about the entries. */
  lemma ChartDescribesEntries(entries: seq<WeightEntry>, cutoff: Day, chart: WeightChart)
    requires var rows := ChartRowsOf(entries, cutoff);
      && |chart.labels| == |rows| && |chart.weights| == |rows| && |chart.dates| == |rows|
      && forall k :: 0 <= k < |rows| ==>
           chart.labels[k] == rows[k].date && chart.weights[k] == rows[k].weight && chart.dates[k] == rows[k].date
    ensures var kept := AtLeast(entries, WeightDate, cutoff);
      && |chart.labels| == |kept| && |chart.weights| == |kept| && |chart.dates| == |kept|
      && multiset(chart.dates) == multiset(Column(kept, WeightDate))
      && multiset(ChartPoints(chart)) == multiset(Column(kept, Point))
    ensures forall i, j :: 0 <= i < j < |chart.dates| ==> chart.dates[i] <= chart.dates[j]
    ensures forall k :: 0 <= k < |chart.dates| ==> chart.dates[k] >= cutoff && chart.labels[k] == chart.dates[k]
    ensures forall k :: 0 <= k < |chart.dates| ==> Recorded(entries, chart.dates[k], chart.weights[k])
  {
    var sorted := ChartRowsOf(entries, cutoff);
    ChartRows(entries, sorted, cutoff);
    ChartKeepsDates(entries, cutoff, chart);
    forall k | 0 <= k < |chart.dates|
      ensures Recorded(entries, chart.dates[k], chart.weights[k])
    {
      assert sorted[k] in entries;
    }
  }

  /**
   * prepareWeightChartData($entries, $days): the entries dated `days` days ago or later, oldest
   * first, one label, weight and date each.
   */
  method PrepareWeightChartData(entries: seq<WeightEntry>, days: int, today: Day) returns (chart: WeightChart)
    ensures var kept := AtLeast(entries, WeightDate, today - days);
      && |chart.labels| == |kept| && |chart.weights| == |kept| && |chart.dates| == |kept|
      && multiset(chart.dates) == multiset(Column(kept, WeightDate))
      && multiset(ChartPoints(chart)) == multiset(Column(kept, Point))
    ensures forall i, j :: 0 <= i < j < |chart.dates| ==> chart.dates[i] <= chart.dates[j]
    ensures forall k :: 0 <= k < |chart.dates| ==> chart.dates[k] >= today - days && chart.labels[k] == chart.dates[k]
    ensures forall k :: 0 <= k < |chart.dates| ==> Recorded(entries, chart.dates[k], chart.weights[k])
  {
    var cutoffDate := today - days;
    var filteredEntries := AtLeast(entries, WeightDate, cutoffDate);
    var sorted := Sort(filteredEntries, WeightDate, Ascending);
    chart := ChartColumns(sorted);
    ChartDescribesEntries(entries, cutoffDate, chart);
  }
}
