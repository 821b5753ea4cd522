/**
 * exercise.php: the exercise page's form handling (name and calorie selection, the duration
 * bound, logging and deleting entries) and the figures it shows (totals, week and month
 * windows, favourite exercise and weekday, streaks, the weekly and monthly charts).
 *
 * Dates are day numbers; `today` and the monthly chart's week bounds, which the page gets
 * from date() and strtotime(), are parameters.
 */
module ExercisePage {
  import opened Wrappers
  import opened Records
  import opened Php
  import opened PhpArray
  import opened Functions
  import opened DataHandler

  // ---------------------------------------------------------------- exercise table

  datatype ExerciseType = ExerciseType(name: string, caloriesPerMin: int)

  /** The selectable exercise types: display name and calories burned per minute. */
  const ExerciseTypes: map<string, ExerciseType> := map[
    "running" := ExerciseType("Running", 12),
    "walking" := ExerciseType("Walking", 4),
    "cycling" := ExerciseType("Cycling", 8),
    "swimming" := ExerciseType("Swimming", 10),
    "weight_lifting" := ExerciseType("Weight Lifting", 6),
    "yoga" := ExerciseType("Yoga", 3),
    "hiit" := ExerciseType("HIIT", 15),
    "pilates" := ExerciseType("Pilates", 4),
    "basketball" := ExerciseType("Basketball", 9),
    "tennis" := ExerciseType("Tennis", 8),
    "soccer" := ExerciseType("Soccer", 10),
    "dancing" := ExerciseType("Dancing", 5),
    "hiking" := ExerciseType("Hiking", 6),
    "climbing" := ExerciseType("Rock Climbing", 11),
    "boxing" := ExerciseType("Boxing", 13),
    "other" := ExerciseType("Other", 6)
  ]

  /** The intensity factors applied to an estimate; any other intensity counts as 1.0. */
  const IntensityMultipliers: map<string, real> := map["low" := 0.8, "moderate" := 1.0, "high" := 1.3, "extreme" := 1.6]

  function IntensityMultiplier(intensity: string): (m: real)
    ensures 0.8 <= m <= 1.6
    ensures intensity !in IntensityMultipliers ==> m == 1.0
    ensures m < 1.0 <==> intensity == "low"
  {
    if intensity in IntensityMultipliers then IntensityMultipliers[intensity] else 1.0
  }

  const LoggedMessage: string := "Exercise logged successfully!"
  const LogFailedMessage: string := "Failed to log exercise. Please try again."
  const InvalidDurationMessage: string := "Please enter a valid duration between 1 and 600 minutes."
  const DeletedMessage: string := "Exercise entry deleted successfully!"
  const DeleteFailedMessage: string := "Failed to delete exercise entry."
  const TokenMismatchMessage: string := "Security token mismatch. Please try again."

  /** The longest workout the form accepts, in minutes (10 hours). */
  const MaxDuration: int := 600

  // ---------------------------------------------------------------- the add form

  /**
   * The name stored with an entry: the custom name for type 'other' when one was given,
   * else the table's name for a known type, else 'Exercise'. It is never empty.
   */
  function ExerciseName(exerciseType: string, custom: string): (r: string)
    ensures exerciseType == "other" && !IsEmptyString(custom) ==> r == custom
    ensures !(exerciseType == "other" && !IsEmptyString(custom)) && exerciseType in ExerciseTypes ==>
      r == ExerciseTypes[exerciseType].name
    ensures exerciseType !in ExerciseTypes ==> r == "Exercise"
    ensures !IsEmptyString(r)
  {
    if exerciseType == "other" && !IsEmptyString(custom) then custom
    else if exerciseType in ExerciseTypes then
      var name := ExerciseTypes[exerciseType].name;
      assert |name| >= 4;
      name
    else "Exercise"
  }

  /**
   * The calories stored with an entry: the submitted value unless it is not positive and the
   * type is known; then the table rate times the duration, scaled by the intensity and rounded.
   */
  function EstimateCalories(calories: int, exerciseType: string, intensity: string, duration: int): (r: int)
    ensures !(calories <= 0 && exerciseType in ExerciseTypes) ==> r == calories
    ensures calories <= 0 && exerciseType in ExerciseTypes ==>
      var estimate := (ExerciseTypes[exerciseType].caloriesPerMin * duration) as real * IntensityMultiplier(intensity);
      estimate - 0.5 <= r as real <= estimate + 0.5
    ensures calories <= 0 && exerciseType in ExerciseTypes && intensity !in IntensityMultipliers ==>
      r == ExerciseTypes[exerciseType].caloriesPerMin * duration
    ensures calories <= 0 && exerciseType in ExerciseTypes && duration >= 0 ==> r >= 0
  {
    if calories <= 0 && exerciseType in ExerciseTypes then
      RatePositive(exerciseType);
      ScaledEstimate(ExerciseTypes[exerciseType].caloriesPerMin, duration, IntensityMultiplier(intensity))
    else calories
  }

  /** Every exercise type burns some calories per minute. */
  lemma RatePositive(exerciseType: string)
    requires exerciseType in ExerciseTypes
    ensures ExerciseTypes[exerciseType].caloriesPerMin > 0
  {
  }

  /** round($rate * $duration * $factor): the per-minute rate scaled by the duration and the intensity. */
  function ScaledEstimate(rate: int, duration: int, factor: real): (r: int)
    ensures (rate * duration) as real * factor - 0.5 <= r as real <= (rate * duration) as real * factor + 0.5
    ensures factor == 1.0 ==> r == rate * duration
    ensures rate > 0 && duration >= 0 && factor > 0.0 ==> r >= 0
  {
    var base := rate * duration;
    assert rate > 0 && duration >= 0 ==> base >= 0;
    assert factor == 1.0 ==> base as real * factor == base as real;
    RoundInt(base as real * factor)
  }

  predicate ValidDuration(duration: int) {
    0 < duration <= MaxDuration
  }

  /** The add_exercise form after intval(); the strings as submitted, before sanitizeInput(). */
  datatype ExerciseForm = ExerciseForm(
    exerciseType: string, customExercise: string, duration: int, calories: int,
    date: Option<Day>, notes: string, intensity: string)

  /** The entry the add_exercise action stores for a form. */
  function FormEntry(form: ExerciseForm, today: Day, now: Time, idBytes: seq<Byte>): (e: ExerciseEntry)
    requires |idBytes| == 4
    ensures e.exercise == ExerciseName(SanitizeString(form.exerciseType), SanitizeString(form.customExercise))
    ensures e.calories == EstimateCalories(form.calories, SanitizeString(form.exerciseType), SanitizeString(form.intensity),
                                           form.duration)
    ensures e.duration == form.duration && e.date == form.date.GetOr(today) && e.notes == SanitizeString(form.notes)
    ensures e.timestamp == now
  {
    var exerciseType := SanitizeString(form.exerciseType);
    var name := ExerciseName(exerciseType, SanitizeString(form.customExercise));
    var calories := EstimateCalories(form.calories, exerciseType, SanitizeString(form.intensity), form.duration);
    NewExerciseEntry(name, form.duration, calories, form.date, SanitizeString(form.notes), today, now, idBytes)
  }

  /**
   * The add_exercise action: after the CSRF check, an entry is stored only when
   * 1 <= duration <= 600, and the message says which way it went.
   */
  method AddExercise(dir: JsonDir<ListDoc<ExerciseEntry>>, userId: string, storedToken: Option<string>, token: string,
                     form: ExerciseForm, today: Day, now: Time, stamp: string, idBytes: seq<Byte>, diskOk: bool)
    returns (message: string)
    requires |idBytes| == 4
    modifies dir
    ensures !VerifyCsrfToken(storedToken, token) ==> message == TokenMismatchMessage
    ensures VerifyCsrfToken(storedToken, token) && !ValidDuration(form.duration) ==> message == InvalidDurationMessage
    ensures VerifyCsrfToken(storedToken, token) && ValidDuration(form.duration) ==>
      message == if diskOk then LoggedMessage else LogFailedMessage
    ensures var stored := VerifyCsrfToken(storedToken, token) && ValidDuration(form.duration);
      var name := ExerciseFile(userId);
      && dir.files == (if stored && diskOk
                       then old(dir.files)[name := Some(WithEntry(ReadJsonFile(old(dir.files), name), FormEntry(form, today, now, idBytes)))]
                       else old(dir.files))
      && dir.backups == (if stored then BackupsAfterWrite(old(dir.backups), old(dir.files), name, now, stamp) else old(dir.backups))
  {
    if !VerifyCsrfToken(storedToken, token) {
      return TokenMismatchMessage;
    }
    var exerciseType := SanitizeString(form.exerciseType);
    var custom := SanitizeString(form.customExercise);
    var notes := SanitizeString(form.notes);
    var intensity := SanitizeString(form.intensity);
    var name := ExerciseName(exerciseType, custom);
    var calories := EstimateCalories(form.calories, exerciseType, intensity, form.duration);
    if ValidDuration(form.duration) {
      var ok := AddExerciseEntry(dir, userId, name, form.duration, calories, form.date, notes, today, now, stamp, idBytes, diskOk);
      message := if ok then LoggedMessage else LogFailedMessage;
    } else {
      message := InvalidDurationMessage;
    }
  }

  /** The delete_exercise action: deleteEntry() on the user's exercise file, after the CSRF check. */
  method DeleteExercise(dir: JsonDir<ListDoc<ExerciseEntry>>, userId: string, storedToken: Option<string>, token: string,
                        entryId: string, now: Time, stamp: string, diskOk: bool)
    returns (message: string)
    modifies dir
    ensures !VerifyCsrfToken(storedToken, token) ==>
      message == TokenMismatchMessage && dir.files == old(dir.files) && dir.backups == old(dir.backups)
    ensures var name := ExerciseFile(userId);
      var result := DeletionResult(ReadJsonFile(old(dir.files), name), ExerciseId, SanitizeString(entryId));
      VerifyCsrfToken(storedToken, token) ==>
        && message == (if diskOk && result.Some? then DeletedMessage else DeleteFailedMessage)
        && dir.files == (if diskOk && result.Some? then old(dir.files)[name := result] else old(dir.files))
        && dir.backups == (if result.Some? then BackupsAfterWrite(old(dir.backups), old(dir.files), name, now, stamp)
                           else old(dir.backups))
  {
    if !VerifyCsrfToken(storedToken, token) {
      return TokenMismatchMessage;
    }
    var ok := DeleteEntry(dir, ExerciseFile(userId), SanitizeString(entryId), ExerciseId, now, stamp, diskOk);
    message := if ok then DeletedMessage else DeleteFailedMessage;
  }

  // ---------------------------------------------------------------- dates and weekdays

  function EntryExercise(e: ExerciseEntry): string { e.exercise }

  /** date('w') of a day number: 0 is Sunday; day 0, 1970-01-01, was a Thursday. */
  function Weekday(d: Day): (w: int)
    ensures 0 <= w < 7
  {
    (d + 4) % 7
  }

  /** Consecutive days have consecutive weekdays, and a week later the weekday is the same; day 0 is a Thursday. */
  lemma WeekdayCycle(d: Day)
    ensures Weekday(d + 1) == (Weekday(d) + 1) % 7
    ensures Weekday(d + 7) == Weekday(d)
    ensures DayNames[Weekday(0)] == "Thursday"
  {
  }

  function EntryWeekday(e: ExerciseEntry): int { Weekday(e.date) }

  const DayNames: seq<string> := ["Sunday", "Monday", "Tuesday", "Wednesday", "Thursday", "Friday", "Saturday"]

  /** rsort(array_unique(array_column($entries, 'date'))): each date once, newest first. */
  function DatesNewestFirst(entries: seq<ExerciseEntry>): (ds: seq<int>)
    ensures StrictlyDecreasing(ds)
    ensures forall d :: d in ds <==> exists k :: 0 <= k < |entries| && entries[k].date == d
  {
    var column := Column(entries, ExerciseDate);
    var ds := DistinctDesc(column);
    assert forall d :: d in column <==> exists k :: 0 <= k < |entries| && entries[k].date == d by {
      forall d | d in column ensures exists k :: 0 <= k < |entries| && entries[k].date == d {
        var k :| 0 <= k < |column| && column[k] == d;
      }
    }
    ds
  }

  /** sort(array_unique(array_column($entries, 'date'))): each date once, oldest first. */
  function DatesOldestFirst(entries: seq<ExerciseEntry>): (ds: seq<int>)
    ensures StrictlyIncreasing(ds)
    ensures forall d :: d in ds <==> d in DatesNewestFirst(entries)
    ensures |ds| == |DatesNewestFirst(entries)|
  {
    DistinctAsc(Column(entries, ExerciseDate))
  }

  /** The number of different dates the entries carry. */
  function DistinctDates(entries: seq<ExerciseEntry>): nat {
    |set k | 0 <= k < |entries| :: entries[k].date|
  }

  lemma DistinctDatesCount(entries: seq<ExerciseEntry>)
    ensures |DatesNewestFirst(entries)| == DistinctDates(entries)
  {
    var ds := DatesNewestFirst(entries);
    DistinctCardinality(ds);
    assert (set x | x in ds) == (set k | 0 <= k < |entries| :: entries[k].date);
  }

  // ---------------------------------------------------------------- the current streak

  /**
   * `n` is the length of the run the newest dates form: the newest is today, yesterday or
   * tomorrow, each of the next n - 1 is the day before the previous one, and the date after
   * them, if any, breaks the chain.
   */
  predicate IsCurrentRun(ds: seq<int>, today: Day, n: int) {
    && 0 <= n <= |ds|
    && (n > 0 ==> Abs(today - ds[0]) <= 1)
    && (forall k :: 0 < k < n ==> ds[k] == ds[k - 1] - 1)
    && (n < |ds| && n == 0 ==> Abs(today - ds[0]) > 1)
    && (n < |ds| && n > 0 ==> ds[n] != ds[n - 1] - 1)
  }

  /** The run is determined by the dates and today: at most one length qualifies. */
  lemma CurrentRunUnique(ds: seq<int>, today: Day, a: int, b: int)
    requires IsCurrentRun(ds, today, a) && IsCurrentRun(ds, today, b)
    ensures a == b
  {
    if a != b {
      assert false;
    }
  }

  /**
   * calculateCurrentStreak() with the day difference compared against 1: the length of the
   * run of consecutive days that reaches today (or yesterday).
   */
  method CalculateCurrentStreak(entries: seq<ExerciseEntry>, today: Day) returns (streak: int)
    ensures entries == [] ==> streak == 0
    ensures IsCurrentRun(DatesNewestFirst(entries), today, streak)
    ensures 0 <= streak <= DistinctDates(entries)
  {
    DistinctDatesCount(entries);
    if entries == [] {
      return 0;
    }
    streak := 0;
    var currentDate := today;
    var dates := DatesNewestFirst(entries);
    var i := 0;
    while i < |dates|
      invariant 0 <= i <= |dates| && streak == i
      invariant i > 0 ==> currentDate == dates[i - 1] && Abs(today - dates[0]) <= 1
      invariant i == 0 ==> currentDate == today
      invariant forall k :: 0 < k < i ==> dates[k] == dates[k - 1] - 1
    {
      if Abs(currentDate - dates[i]) <= 1 {
        streak := streak + 1;
        currentDate := dates[i];
      } else {
        break;
      }
      i := i + 1;
    }
  }

  /** calculateCurrentStreak() as written: the n-th date may lie up to n + 1 days before the previous one. */
  function ScanAsWritten(ds: seq<int>, currentDate: int, streak: nat): (r: nat)
    ensures streak <= r <= streak + |ds|
  {
    if ds == [] then streak
    else if Abs(currentDate - ds[0]) <= streak + 1 then ScanAsWritten(ds[1..], ds[0], streak + 1)
    else streak
  }

  /** calculateCurrentStreak() as written: `$diffDays <= $streak + 1`. */
  method CalculateCurrentStreakAsWritten(entries: seq<ExerciseEntry>, today: Day) returns (streak: int)
    ensures entries == [] ==> streak == 0
    ensures streak == ScanAsWritten(DatesNewestFirst(entries), today, 0)
    ensures 0 <= streak <= DistinctDates(entries)
  {
    DistinctDatesCount(entries);
    if entries == [] {
      return 0;
    }
    streak := 0;
    var currentDate := today;
    var dates := DatesNewestFirst(entries);
    var i := 0;
    while i < |dates|
      invariant 0 <= i <= |dates| && streak == i
      invariant ScanAsWritten(dates, today, 0) == ScanAsWritten(dates[i..], currentDate, streak)
    {
      assert dates[i..][1..] == dates[i + 1..];
      if Abs(currentDate - dates[i]) <= streak + 1 {
        streak := streak + 1;
        currentDate := dates[i];
      } else {
        break;
      }
      i := i + 1;
    }
  }

  /** Entries from today, two days ago and five days ago: their dates, newest first. */
  lemma GappedDates(entries: seq<ExerciseEntry>, today: Day)
    requires |entries| == 3
    requires entries[0].date == today && entries[1].date == today - 2 && entries[2].date == today - 5
    ensures DatesNewestFirst(entries) == [today, today - 2, today - 5]
  {
    var column := Column(entries, ExerciseDate);
    assert column == [today, today - 2, today - 5];
    assert column[1..] == [today - 2, today - 5];
    assert column[2..] == [today - 5];
    assert DistinctDesc(column[2..]) == [today - 5];
    assert DistinctDesc(column[1..]) == [today - 2, today - 5];
  }

  /**
   * With workouts today, two days ago and five days ago, the streak as written is 3 although
   * no two of the days are consecutive; the run that reaches today has length 1.
   */
  lemma StreakAsWrittenSkipsGaps(entries: seq<ExerciseEntry>, today: Day)
    requires |entries| == 3
    requires entries[0].date == today && entries[1].date == today - 2 && entries[2].date == today - 5
    ensures ScanAsWritten(DatesNewestFirst(entries), today, 0) == 3
    ensures forall n :: IsCurrentRun(DatesNewestFirst(entries), today, n) <==> n == 1
  {
    GappedDates(entries, today);
    var ds := DatesNewestFirst(entries);
    assert ds[1..] == [today - 2, today - 5] && ds[1..][1..] == [today - 5] && ds[1..][1..][1..] == [];
    assert ScanAsWritten(ds[1..][1..][1..], today - 5, 3) == 3;
    assert ScanAsWritten(ds[1..][1..], today - 2, 2) == 3;
    assert ScanAsWritten(ds[1..], today, 1) == 3;
    assert IsCurrentRun(ds, today, 1);
    forall n | IsCurrentRun(ds, today, n) ensures n == 1 {
      CurrentRunUnique(ds, today, n, 1);
    }
  }

  // ---------------------------------------------------------------- the longest streak

  /** ds[j], ..., ds[j + len - 1] are `len` consecutive days. */
  predicate ConsecutiveRun(ds: seq<int>, j: int, len: int) {
    0 <= j && 1 <= len && j + len <= |ds| && forall k :: j < k < j + len ==> ds[k] == ds[k - 1] + 1
  }

  /** No run of consecutive days ending at or before index `upto` is longer than `bound`. */
  ghost predicate RunsBounded(ds: seq<int>, upto: int, bound: int) {
    forall j, len :: ConsecutiveRun(ds, j, len) && j + len <= upto ==> len <= bound
  }

  /** A run that ends after a chain break at `start` cannot begin before it. */
  lemma RunStartsAfterBreak(ds: seq<int>, start: int, j: int, len: int)
    requires 0 < start < |ds| && ds[start] != ds[start - 1] + 1
    requires ConsecutiveRun(ds, j, len) && j + len > start
    ensures j >= start
  {
    if j < start {
      assert false;
    }
  }

  /** The next date continues the current run: it grows by one and the bound grows with it. */
  lemma ExtendRun(ds: seq<int>, i: int, current: int, longest: int)
    requires 1 <= i < |ds| && 1 <= current <= i && ds[i] == ds[i - 1] + 1
    requires ConsecutiveRun(ds, i - current, current)
    requires i - current > 0 ==> ds[i - current] != ds[i - current - 1] + 1
    requires RunsBounded(ds, i, MaxInt(longest, current))
    ensures ConsecutiveRun(ds, i - current, current + 1)
    ensures RunsBounded(ds, i + 1, MaxInt(longest, current + 1))
  {
    forall j, len | ConsecutiveRun(ds, j, len) && j + len <= i + 1
      ensures len <= MaxInt(longest, current + 1)
    {
      if j + len == i + 1 && i - current > 0 {
        RunStartsAfterBreak(ds, i - current, j, len);
      } else if j + len <= i {
        assert len <= MaxInt(longest, current);
      }
    }
  }

  /** The next date breaks the chain: a new run of one starts, and no run crosses the break. */
  lemma BreakRun(ds: seq<int>, i: int, current: int, longest: int)
    requires 1 <= i < |ds| && 1 <= current <= i && ds[i] != ds[i - 1] + 1
    requires RunsBounded(ds, i, MaxInt(longest, current))
    ensures ConsecutiveRun(ds, i, 1)
    ensures RunsBounded(ds, i + 1, MaxInt(MaxInt(longest, current), 1))
  {
    forall j, len | ConsecutiveRun(ds, j, len) && j + len <= i + 1
      ensures len <= MaxInt(MaxInt(longest, current), 1)
    {
      if j + len == i + 1 {
        RunStartsAfterBreak(ds, i, j, len);
      } else {
        assert len <= MaxInt(longest, current);
      }
    }
  }

  /**
   * calculateLongestStreak(): the length of the longest run of consecutive calendar days
   * among the distinct entry dates.
   */
  method CalculateLongestStreak(entries: seq<ExerciseEntry>) returns (longest: int)
    ensures entries == [] ==> longest == 0
    ensures entries != [] ==> 1 <= longest <= DistinctDates(entries)
    ensures entries != [] ==> exists j :: ConsecutiveRun(DatesOldestFirst(entries), j, longest)
    ensures forall j, len :: ConsecutiveRun(DatesOldestFirst(entries), j, len) ==> len <= longest
  {
    DistinctDatesCount(entries);
    if entries == [] {
      assert DatesOldestFirst(entries) == [];
      return 0;
    }
    assert entries[0].date in DatesNewestFirst(entries);
    longest := LongestRun(DatesOldestFirst(entries));
  }

  /** The loop of calculateLongestStreak() over the distinct dates, oldest first. */
  method LongestRun(dates: seq<int>) returns (longest: int)
    requires StrictlyIncreasing(dates) && |dates| >= 1
    ensures 1 <= longest <= |dates|
    ensures exists j :: ConsecutiveRun(dates, j, longest)
    ensures forall j, len :: ConsecutiveRun(dates, j, len) ==> len <= longest
  {
    var longestStreak := 0;
    var currentStreak := 1;
    var i := 1;
    while i < |dates|
      invariant 1 <= i <= |dates|
      invariant 1 <= currentStreak <= i
      invariant ConsecutiveRun(dates, i - currentStreak, currentStreak)
      invariant i - currentStreak > 0 ==> dates[i - currentStreak] != dates[i - currentStreak - 1] + 1
      invariant 0 <= longestStreak <= i - currentStreak
      invariant longestStreak > 0 ==> exists j :: ConsecutiveRun(dates, j, longestStreak)
      invariant RunsBounded(dates, i, MaxInt(longestStreak, currentStreak))
    {
      assert dates[i - 1] < dates[i];
      if Abs(dates[i] - dates[i - 1]) <= 1 {
        assert dates[i] == dates[i - 1] + 1;
        ExtendRun(dates, i, currentStreak, longestStreak);
        currentStreak := currentStreak + 1;
      } else {
        assert dates[i] != dates[i - 1] + 1;
        BreakRun(dates, i, currentStreak, longestStreak);
        longestStreak := MaxInt(longestStreak, currentStreak);
        currentStreak := 1;
      }
      i := i + 1;
    }
    longest := MaxInt(longestStreak, currentStreak);
  }

  // ---------------------------------------------------------------- calculateExerciseStats()

  datatype ExerciseStats = ExerciseStats(
    totalWorkouts: int, totalMinutes: int, totalCalories: int,
    averageDuration: real, averageCalories: real,
    thisWeekMinutes: int, thisWeekWorkouts: int, thisMonthMinutes: int, thisMonthWorkouts: int,
    currentStreak: int, longestStreak: int,
    favoriteExercise: string, mostActiveDay: string,
    weeklyGoalProgress: real, caloriesPerMinute: real)

  const EmptyStats: ExerciseStats := ExerciseStats(0, 0, 0, 0.0, 0.0, 0, 0, 0, 0, 0, 0, "", "", 0.0, 0.0)

  /** The week window reaches back 7 days and the month window 30, both inclusive of their first day. */
  const WeekDays: int := 7
  const MonthDays: int := 30

  /** The recommended weekly activity, in minutes. */
  const WeeklyGoalMinutes: int := 150

  /** `x` occurs in `s` at least as often as any other value. */
  predicate MostFrequent<U(==)>(s: seq<U>, x: U) {
    x in s && forall y :: y in s ==> multiset(s)[y] <= multiset(s)[x]
  }

  /** The per-entry tallies of the loop, over the entries seen so far. */
  predicate Tallied(seen: seq<ExerciseEntry>, today: Day, totalMinutes: int, totalCalories: int,
                    weekMinutes: int, weekWorkouts: int, monthMinutes: int, monthWorkouts: int) {
    && totalMinutes == Sum(seen, ExerciseDuration)
    && totalCalories == Sum(seen, ExerciseCalories)
    && weekMinutes == Sum(AtLeast(seen, ExerciseDate, today - WeekDays), ExerciseDuration)
    && weekWorkouts == |AtLeast(seen, ExerciseDate, today - WeekDays)|
    && monthMinutes == Sum(AtLeast(seen, ExerciseDate, today - MonthDays), ExerciseDuration)
    && monthWorkouts == |AtLeast(seen, ExerciseDate, today - MonthDays)|
  }

  /** One more entry seen: every tally takes it in, the windowed ones only when it is in the window. */
  lemma TalliedStep(seen: seq<ExerciseEntry>, e: ExerciseEntry, today: Day, totalMinutes: int, totalCalories: int,
                    weekMinutes: int, weekWorkouts: int, monthMinutes: int, monthWorkouts: int)
    requires Tallied(seen, today, totalMinutes, totalCalories, weekMinutes, weekWorkouts, monthMinutes, monthWorkouts)
    ensures var inWeek, inMonth := e.date >= today - WeekDays, e.date >= today - MonthDays;
      Tallied(seen + [e], today, totalMinutes + e.duration, totalCalories + e.calories,
              if inWeek then weekMinutes + e.duration else weekMinutes, if inWeek then weekWorkouts + 1 else weekWorkouts,
              if inMonth then monthMinutes + e.duration else monthMinutes, if inMonth then monthWorkouts + 1 else monthWorkouts)
  {
    SumSnoc(seen, e, ExerciseDuration);
    SumSnoc(seen, e, ExerciseCalories);
    AtLeastSumSnoc(seen, e, ExerciseDate, today - WeekDays, ExerciseDuration);
    AtLeastSumSnoc(seen, e, ExerciseDate, today - MonthDays, ExerciseDuration);
  }

  /** The tallies do not depend on the order the entries are visited in. */
  lemma TalliedPermutation(a: seq<ExerciseEntry>, b: seq<ExerciseEntry>, today: Day, totalMinutes: int, totalCalories: int,
                           weekMinutes: int, weekWorkouts: int, monthMinutes: int, monthWorkouts: int)
    requires multiset(a) == multiset(b)
    requires Tallied(a, today, totalMinutes, totalCalories, weekMinutes, weekWorkouts, monthMinutes, monthWorkouts)
    ensures Tallied(b, today, totalMinutes, totalCalories, weekMinutes, weekWorkouts, monthMinutes, monthWorkouts)
  {
    SumPermutation(a, b, ExerciseDuration);
    SumPermutation(a, b, ExerciseCalories);
    AtLeastMultiset(a, b, ExerciseDate, today - WeekDays);
    AtLeastMultiset(a, b, ExerciseDate, today - MonthDays);
    SumPermutation(AtLeast(a, ExerciseDate, today - WeekDays), AtLeast(b, ExerciseDate, today - WeekDays), ExerciseDuration);
    SumPermutation(AtLeast(a, ExerciseDate, today - MonthDays), AtLeast(b, ExerciseDate, today - MonthDays), ExerciseDuration);
    assert |AtLeast(a, ExerciseDate, today - WeekDays)| == |multiset(AtLeast(a, ExerciseDate, today - WeekDays))|;
    assert |AtLeast(b, ExerciseDate, today - WeekDays)| == |multiset(AtLeast(b, ExerciseDate, today - WeekDays))|;
    assert |AtLeast(a, ExerciseDate, today - MonthDays)| == |multiset(AtLeast(a, ExerciseDate, today - MonthDays))|;
    assert |AtLeast(b, ExerciseDate, today - MonthDays)| == |multiset(AtLeast(b, ExerciseDate, today - MonthDays))|;
  }

  /**
   * The week window lies inside the month window: the week's workouts are among the month's,
   * which are among all; with no negative durations the same holds for the minutes.
   */
  lemma WindowsNested(entries: seq<ExerciseEntry>, today: Day)
    ensures |AtLeast(entries, ExerciseDate, today - WeekDays)| <= |AtLeast(entries, ExerciseDate, today - MonthDays)| <= |entries|
    ensures NonNegative(entries, ExerciseDuration) ==>
      (Sum(AtLeast(entries, ExerciseDate, today - WeekDays), ExerciseDuration)
       <= Sum(AtLeast(entries, ExerciseDate, today - MonthDays), ExerciseDuration)
       <= Sum(entries, ExerciseDuration))
  {
    AtLeastShrinks(entries, ExerciseDate, today - MonthDays, today - WeekDays, (e: ExerciseEntry) => 1);
    if NonNegative(entries, ExerciseDuration) {
      AtLeastShrinks(entries, ExerciseDate, today - MonthDays, today - WeekDays, ExerciseDuration);
      AtLeastBelowTotal(entries, ExerciseDate, today - MonthDays, ExerciseDuration);
    }
  }

  /** Reordering the entries keeps each exercise's and each weekday's count. */
  lemma FrequentAfterSort(a: seq<ExerciseEntry>, b: seq<ExerciseEntry>, x: string, w: int)
    requires multiset(a) == multiset(b)
    requires MostFrequent(Column(a, EntryExercise), x) && MostFrequent(Column(a, EntryWeekday), w)
    ensures MostFrequent(Column(b, EntryExercise), x) && MostFrequent(Column(b, EntryWeekday), w)
  {
    ColumnPermutation(a, b, EntryExercise);
    ColumnPermutation(a, b, EntryWeekday);
    assert x in multiset(Column(a, EntryExercise));
    assert w in multiset(Column(a, EntryWeekday));
  }

  /** The key array_keys($freq, max($freq))[0] picks from a counter built over `s` is a most frequent value. */
  lemma MostCountedIsMostFrequent<U(!new)>(s: seq<U>)
    requires s != []
    ensures var c := Frequencies(s);
      && |c.order| > 0 && (forall k :: 0 <= k < |c.order| ==> c.order[k] in c.counts)
      && MostFrequent(s, FirstMax(c.order, c.counts))
  {
    FrequenciesCount(s);
    var c := Frequencies(s);
    assert s[0] in c.order;
    var r := FirstMax(c.order, c.counts);
    forall y | y in s ensures multiset(s)[y] <= multiset(s)[r] {
      var k :| 0 <= k < |c.order| && c.order[k] == y;
    }
  }

  /** On a tie, the key picked is the one of the most frequent values that occurs first in `s`. */
  lemma MostCountedSeenFirst<U(!new)>(s: seq<U>, q: nat)
    requires q < |s|
    ensures var c := Frequencies(s);
      && |c.order| > 0 && (forall k :: 0 <= k < |c.order| ==> c.order[k] in c.counts)
      && (multiset(s)[s[q]] >= multiset(s)[FirstMax(c.order, c.counts)] ==> FirstMax(c.order, c.counts) in s[..q + 1])
  {
    FrequenciesCount(s);
    FrequenciesFirstSeen(s);
    var c := Frequencies(s);
    assert s[0] in c.order;
    TieGoesToFirstSeen(s, c.order, c.counts, q);
  }

  /**
   * The favourites picked from the tallies of the sorted entries are most frequent among the
   * entries as given, and the weekday is a valid index into the day names.
   */
  lemma Favourites(entries: seq<ExerciseEntry>, sorted: seq<ExerciseEntry>)
    requires entries != [] && multiset(sorted) == multiset(entries)
    ensures var c := Frequencies(Column(sorted, EntryExercise));
      |c.order| > 0 && (forall k :: 0 <= k < |c.order| ==> c.order[k] in c.counts)
      && MostFrequent(Column(entries, EntryExercise), FirstMax(c.order, c.counts))
    ensures var c := Frequencies(Column(sorted, EntryWeekday));
      |c.order| > 0 && (forall k :: 0 <= k < |c.order| ==> c.order[k] in c.counts)
      && 0 <= FirstMax(c.order, c.counts) < 7
      && MostFrequent(Column(entries, EntryWeekday), FirstMax(c.order, c.counts))
  {
    assert |sorted| == |multiset(sorted)| == |multiset(entries)| == |entries|;
    var names, days := Column(sorted, EntryExercise), Column(sorted, EntryWeekday);
    MostCountedIsMostFrequent(names);
    MostCountedIsMostFrequent(days);
    var w := FirstMax(Frequencies(days).order, Frequencies(days).counts);
    var k :| 0 <= k < |sorted| && days[k] == w;
    FrequentAfterSort(sorted, entries, FirstMax(Frequencies(names).order, Frequencies(names).counts), w);
  }

  /** The foreach of calculateExerciseStats() over the entries, newest first. */
  method TallyEntries(sorted: seq<ExerciseEntry>, today: Day)
    returns (totalMinutes: int, totalCalories: int, weekMinutes: int, weekWorkouts: int, monthMinutes: int,
             monthWorkouts: int, exerciseFrequency: Counter<string>, dayFrequency: Counter<int>)
    ensures Tallied(sorted, today, totalMinutes, totalCalories, weekMinutes, weekWorkouts, monthMinutes, monthWorkouts)
    ensures exerciseFrequency == Frequencies(Column(sorted, EntryExercise))
    ensures dayFrequency == Frequencies(Column(sorted, EntryWeekday))
  {
    totalMinutes, totalCalories, weekMinutes, weekWorkouts, monthMinutes, monthWorkouts := 0, 0, 0, 0, 0, 0;
    var thisWeek, thisMonth := today - WeekDays, today - MonthDays;
    exerciseFrequency, dayFrequency := Counter(map[], []), Counter(map[], []);
    var i := 0;
    while i < |sorted|
      invariant 0 <= i <= |sorted|
      invariant Tallied(sorted[..i], today, totalMinutes, totalCalories, weekMinutes, weekWorkouts, monthMinutes, monthWorkouts)
      invariant exerciseFrequency == Frequencies(Column(sorted[..i], EntryExercise))
      invariant dayFrequency == Frequencies(Column(sorted[..i], EntryWeekday))
    {
      var entry := sorted[i];
      assert sorted[..i + 1] == sorted[..i] + [entry];
      TalliedStep(sorted[..i], entry, today, totalMinutes, totalCalories, weekMinutes, weekWorkouts, monthMinutes, monthWorkouts);
      ColumnSnoc(sorted[..i], entry, EntryExercise);
      ColumnSnoc(sorted[..i], entry, EntryWeekday);
      FrequenciesSnoc(Column(sorted[..i], EntryExercise), entry.exercise);
      FrequenciesSnoc(Column(sorted[..i], EntryWeekday), Weekday(entry.date));

      totalMinutes := totalMinutes + entry.duration;
      totalCalories := totalCalories + entry.calories;
      exerciseFrequency := Bump(exerciseFrequency, entry.exercise);
      dayFrequency := Bump(dayFrequency, Weekday(entry.date));
      if entry.date >= thisWeek {
        weekMinutes := weekMinutes + entry.duration;
        weekWorkouts := weekWorkouts + 1;
      }
      if entry.date >= thisMonth {
        monthMinutes := monthMinutes + entry.duration;
        monthWorkouts := monthWorkouts + 1;
      }
      i := i + 1;
    }
    assert sorted[..i] == sorted;
  }

  /**
   * Figures computed from the entries in date order describe the entries as given: the
   * tallies, the favourite exercise and the most active weekday do not depend on the order.
   */
  lemma SortedTalliesDescribeEntries(entries: seq<ExerciseEntry>, sorted: seq<ExerciseEntry>, today: Day, stats: ExerciseStats)
    requires entries != [] && multiset(sorted) == multiset(entries)
    requires Tallied(sorted, today, stats.totalMinutes, stats.totalCalories, stats.thisWeekMinutes, stats.thisWeekWorkouts,
                     stats.thisMonthMinutes, stats.thisMonthWorkouts)
    requires var c := Frequencies(Column(sorted, EntryExercise));
      |c.order| > 0 && (forall k :: 0 <= k < |c.order| ==> c.order[k] in c.counts)
      && stats.favoriteExercise == FirstMax(c.order, c.counts)
    requires var c := Frequencies(Column(sorted, EntryWeekday));
      |c.order| > 0 && (forall k :: 0 <= k < |c.order| ==> c.order[k] in c.counts)
      && 0 <= FirstMax(c.order, c.counts) < 7 && stats.mostActiveDay == DayNames[FirstMax(c.order, c.counts)]
    ensures Tallied(entries, today, stats.totalMinutes, stats.totalCalories, stats.thisWeekMinutes, stats.thisWeekWorkouts,
                    stats.thisMonthMinutes, stats.thisMonthWorkouts)
    ensures MostFrequent(Column(entries, EntryExercise), stats.favoriteExercise)
    ensures exists w :: 0 <= w < 7 && stats.mostActiveDay == DayNames[w] && MostFrequent(Column(entries, EntryWeekday), w)
    ensures stats.thisWeekWorkouts <= stats.thisMonthWorkouts <= |entries|
    ensures NonNegative(entries, ExerciseDuration) ==> stats.thisWeekMinutes <= stats.thisMonthMinutes <= stats.totalMinutes
  {
    TalliedPermutation(sorted, entries, today, stats.totalMinutes, stats.totalCalories, stats.thisWeekMinutes,
                       stats.thisWeekWorkouts, stats.thisMonthMinutes, stats.thisMonthWorkouts);
    WindowsNested(entries, today);
    Favourites(entries, sorted);
    var c := Frequencies(Column(sorted, EntryWeekday));
    assert MostFrequent(Column(entries, EntryWeekday), FirstMax(c.order, c.counts));
  }

  /**
   * calculateExerciseStats(): one pass over the entries newest first, tallying totals, the
   * week and month windows and how often each exercise and weekday occurs, then the
   * averages, the favourites, the streaks and the weekly goal progress.
   */
  method CalculateExerciseStats(entries: seq<ExerciseEntry>, today: Day) returns (stats: ExerciseStats)
    ensures entries == [] ==> stats == EmptyStats
    ensures entries != [] ==>
      && stats.totalWorkouts == |entries|
      && Tallied(entries, today, stats.totalMinutes, stats.totalCalories, stats.thisWeekMinutes, stats.thisWeekWorkouts,
                 stats.thisMonthMinutes, stats.thisMonthWorkouts)
      && MostFrequent(Column(entries, EntryExercise), stats.favoriteExercise)
      && (exists w :: 0 <= w < 7 && stats.mostActiveDay == DayNames[w] && MostFrequent(Column(entries, EntryWeekday), w))
      && IsCurrentRun(DatesNewestFirst(entries), today, stats.currentStreak)
      && 1 <= stats.longestStreak <= DistinctDates(entries)
      && (forall j, len :: ConsecutiveRun(DatesOldestFirst(entries), j, len) ==> len <= stats.longestStreak)
      && (exists j :: ConsecutiveRun(DatesOldestFirst(entries), j, stats.longestStreak))
    ensures stats.thisWeekWorkouts <= stats.thisMonthWorkouts <= stats.totalWorkouts
    ensures NonNegative(entries, ExerciseDuration) ==> stats.thisWeekMinutes <= stats.thisMonthMinutes <= stats.totalMinutes
    ensures stats.weeklyGoalProgress <= 100.0
  {
    if entries == [] {
      return EmptyStats;
    }
    var sorted := Sort(entries, ExerciseDate, Descending);
    var totalMinutes, totalCalories, weekMinutes, weekWorkouts, monthMinutes, monthWorkouts, exerciseFrequency, dayFrequency :=
      TallyEntries(sorted, today);

    var count := |entries|;
    var averageDuration := Round(totalMinutes as real / count as real);
    var averageCalories := Round(totalCalories as real / count as real);
    var caloriesPerMinute := if totalMinutes > 0 then Round(totalCalories as real / totalMinutes as real) else 0.0;

    Favourites(entries, sorted);
    var favorite := FirstMax(exerciseFrequency.order, exerciseFrequency.counts);
    var mostActive := FirstMax(dayFrequency.order, dayFrequency.counts);

    var currentStreak := CalculateCurrentStreak(entries, today);
    var longestStreak := CalculateLongestStreak(entries);
    var progress := MinReal(100.0, Round(weekMinutes as real / WeeklyGoalMinutes as real * 100.0));

    stats := ExerciseStats(count, totalMinutes, totalCalories, averageDuration, averageCalories,
                           weekMinutes, weekWorkouts, monthMinutes, monthWorkouts,
                           currentStreak, longestStreak, favorite, DayNames[mostActive], progress, caloriesPerMinute);
    SortedTalliesDescribeEntries(entries, sorted, today, stats);
  }

  // ---------------------------------------------------------------- prepareExerciseChartData()

  /** Parallel chart series: one label (the bucket's first day), minutes and calories per bucket. */
  datatype ChartData = ChartData(labels: seq<Day>, minutes: seq<int>, calories: seq<int>)

  /** The inner foreach: the minutes and calories of the entries dated lo..hi. */
  method SumRange(entries: seq<ExerciseEntry>, lo: Day, hi: Day) returns (minutes: int, calories: int)
    ensures minutes == Sum(Within(entries, ExerciseDate, lo, hi), ExerciseDuration)
    ensures calories == Sum(Within(entries, ExerciseDate, lo, hi), ExerciseCalories)
  {
    minutes, calories := 0, 0;
    var j := 0;
    while j < |entries|
      invariant 0 <= j <= |entries|
      invariant minutes == Sum(Within(entries[..j], ExerciseDate, lo, hi), ExerciseDuration)
      invariant calories == Sum(Within(entries[..j], ExerciseDate, lo, hi), ExerciseCalories)
    {
      var entry := entries[j];
      assert entries[..j + 1] == entries[..j] + [entry];
      WithinSumSnoc(entries[..j], entry, ExerciseDate, lo, hi, ExerciseDuration);
      WithinSumSnoc(entries[..j], entry, ExerciseDate, lo, hi, ExerciseCalories);
      if lo <= entry.date <= hi {
        minutes := minutes + entry.duration;
        calories := calories + entry.calories;
      }
      j := j + 1;
    }
    assert entries[..j] == entries;
  }

  /**
   * prepareExerciseChartData(): for 'weekly', one bucket per day of the last 7, oldest first;
   * otherwise four buckets, oldest first, where `weekBounds(i)` is the pair of dates that
   * strtotime("-(i+1) weeks monday") and strtotime("-i weeks sunday") give.
   */
  method PrepareExerciseChartData(entries: seq<ExerciseEntry>, weekly: bool, today: Day, weekBounds: int -> (Day, Day))
    returns (data: ChartData)
    ensures |data.labels| == |data.minutes| == |data.calories| == (if weekly then 7 else 4)
    ensures weekly ==>
      && (forall k :: 0 <= k < 7 ==> data.labels[k] == today - 6 + k)
      && data.minutes == DaySums(entries, ExerciseDate, today - 6, 7, ExerciseDuration)
      && data.calories == DaySums(entries, ExerciseDate, today - 6, 7, ExerciseCalories)
    ensures !weekly ==> forall k :: 0 <= k < 4 ==>
      && data.labels[k] == weekBounds(3 - k).0
      && data.minutes[k] == Sum(Within(entries, ExerciseDate, weekBounds(3 - k).0, weekBounds(3 - k).1), ExerciseDuration)
      && data.calories[k] == Sum(Within(entries, ExerciseDate, weekBounds(3 - k).0, weekBounds(3 - k).1), ExerciseCalories)
  {
    if weekly {
      data := DailyBuckets(entries, today);
    } else {
      data := WeeklyBuckets(entries, weekBounds);
    }
  }

  /** The 'weekly' branch: the days today - 6 .. today. */
  method DailyBuckets(entries: seq<ExerciseEntry>, today: Day) returns (data: ChartData)
    ensures |data.labels| == 7
    ensures forall k :: 0 <= k < 7 ==> data.labels[k] == today - 6 + k
    ensures data.minutes == DaySums(entries, ExerciseDate, today - 6, 7, ExerciseDuration)
    ensures data.calories == DaySums(entries, ExerciseDate, today - 6, 7, ExerciseCalories)
  {
    var labels, minutes, calories := [], [], [];
    var i := 6;
    while i >= 0
      invariant -1 <= i <= 6
      invariant |labels| == 6 - i
      invariant forall k :: 0 <= k < |labels| ==> labels[k] == today - 6 + k
      invariant minutes == DaySums(entries, ExerciseDate, today - 6, 6 - i, ExerciseDuration)
      invariant calories == DaySums(entries, ExerciseDate, today - 6, 6 - i, ExerciseCalories)
    {
      var date := today - i;
      labels := labels + [date];
      var dayMinutes, dayCalories := SumRange(entries, date, date);
      assert today - 6 + (6 - i + 1) - 1 == date;
      minutes := minutes + [dayMinutes];
      calories := calories + [dayCalories];
      i := i - 1;
    }
    data := ChartData(labels, minutes, calories);
  }

  /** The other branch: the buckets 3, 2, 1 and 0 weeks back, each from the start to the end that `weekBounds` gives. */
  method WeeklyBuckets(entries: seq<ExerciseEntry>, weekBounds: int -> (Day, Day)) returns (data: ChartData)
    ensures |data.labels| == |data.minutes| == |data.calories| == 4
    ensures forall k :: 0 <= k < 4 ==>
      && data.labels[k] == weekBounds(3 - k).0
      && data.minutes[k] == Sum(Within(entries, ExerciseDate, weekBounds(3 - k).0, weekBounds(3 - k).1), ExerciseDuration)
      && data.calories[k] == Sum(Within(entries, ExerciseDate, weekBounds(3 - k).0, weekBounds(3 - k).1), ExerciseCalories)
  {
    var labels, minutes, calories := [], [], [];
    var i := 3;
    while i >= 0
      invariant -1 <= i <= 3
      invariant |labels| == |minutes| == |calories| == 3 - i
      invariant forall k :: 0 <= k < 3 - i ==>
        && labels[k] == weekBounds(3 - k).0
        && minutes[k] == Sum(Within(entries, ExerciseDate, weekBounds(3 - k).0, weekBounds(3 - k).1), ExerciseDuration)
        && calories[k] == Sum(Within(entries, ExerciseDate, weekBounds(3 - k).0, weekBounds(3 - k).1), ExerciseCalories)
    {
      var weekStart, weekEnd := weekBounds(i).0, weekBounds(i).1;
      labels := labels + [weekStart];
      var weekMinutes, weekCalories := SumRange(entries, weekStart, weekEnd);
      minutes := minutes + [weekMinutes];
      calories := calories + [weekCalories];
      i := i - 1;
    }
    data := ChartData(labels, minutes, calories);
  }

  /** The weekly chart's day buckets add up to the minutes of the last 7 days; nothing else is counted. */
  lemma WeeklyChartCoversWeek(entries: seq<ExerciseEntry>, today: Day)
    ensures Sum(DaySums(entries, ExerciseDate, today - 6, 7, ExerciseDuration), Identity)
         == Sum(Within(entries, ExerciseDate, today - 6, today), ExerciseDuration)
  {
    DaySumsTotal(entries, ExerciseDate, today - 6, 7, ExerciseDuration);
  }
}
