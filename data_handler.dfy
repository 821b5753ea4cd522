/**
 * includes/data-handler.php: the JSON file store. Each data directory is a JsonDir: a map
 * from file name to the decoded document (None when the file cannot be read or does not
 * hold valid JSON), plus the backup copies writeJsonFile() leaves beside the files.
 */
module DataHandler {
  import opened Wrappers
  import opened Records
  import opened PhpArray
  import opened Php
  import Config
  import Functions

  // ---------------------------------------------------------------- readJsonFile()

  type Files<D> = map<string, Option<D>>

  /** The three outcomes of readJsonFile(): [] for a missing file, false on failure, the data. */
  datatype JsonRead<D> = EmptyArray | ReadFailed | Decoded(doc: D)

  function ReadJsonFile<D>(files: Files<D>, name: string): (r: JsonRead<D>)
    ensures r == EmptyArray <==> name !in files
    ensures r == ReadFailed <==> name in files && files[name].None?
    ensures r.Decoded? ==> name in files && files[name] == Some(r.doc)
    ensures name in files && files[name].Some? ==> r == Decoded(files[name].value)
  {
    if name !in files then EmptyArray
    else match files[name]
      case None => ReadFailed
      case Some(doc) => Decoded(doc)
  }

  // ---------------------------------------------------------------- file names and globs

  function UserFile(userId: string): string { userId + ".json" }
  function SessionFile(sessionId: string): string { sessionId + ".json" }
  function WeightFile(userId: string): string { userId + "_weight.json" }
  function ExerciseFile(userId: string): string { userId + "_exercise.json" }
  function FoodFile(userId: string): string { userId + "_food.json" }
  function RecipesFile(userId: string): string { userId + "_recipes.json" }
  const PublicRecipesFile: string := "public_recipes.json"

  predicate StartsWith(s: string, prefix: string) {
    |prefix| <= |s| && s[..|prefix|] == prefix
  }

  predicate EndsWith(s: string, suffix: string) {
    |suffix| <= |s| && s[|s| - |suffix|..] == suffix
  }

  predicate HasInfix(s: string, infix: string)
    decreases |s|
  {
    StartsWith(s, infix) || (s != [] && HasInfix(s[1..], infix))
  }

  /** glob('*.json'): a name ending in .json that is not hidden (`*` does not match a leading dot). */
  predicate MatchesJsonGlob(name: string) {
    name != [] && name[0] != '.' && EndsWith(name, ".json")
  }

  /** glob('*.backup.*') */
  predicate MatchesBackupGlob(name: string) {
    name != [] && name[0] != '.' && HasInfix(name, ".backup.")
  }

  /** A file list that glob('*.json') can return: each matching name exactly once. */
  predicate ListsJsonFiles<D>(listing: seq<string>, files: Files<D>) {
    (forall k :: 0 <= k < |listing| ==> listing[k] in files && MatchesJsonGlob(listing[k]))
    && (forall name :: name in files && MatchesJsonGlob(name) ==> name in listing)
    && (forall i, j :: 0 <= i < j < |listing| ==> listing[i] != listing[j])
  }

  lemma HasInfixAfter(prefix: string, infix: string, rest: string)
    ensures HasInfix(prefix + infix + rest, infix)
    decreases |prefix|
  {
    if prefix == [] {
      assert (prefix + infix + rest)[..|infix|] == infix;
    } else {
      assert (prefix + infix + rest)[1..] == prefix[1..] + infix + rest;
      HasInfixAfter(prefix[1..], infix, rest);
    }
  }

  /** A generated id names a user file that glob('*.json') lists. */
  lemma GeneratedUserFileListed(userId: string)
    requires userId != [] && Functions.IsIdString(userId)
    ensures MatchesJsonGlob(UserFile(userId))
  {
    assert UserFile(userId)[0] == userId[0];
    assert UserFile(userId)[|UserFile(userId)| - 5..] == ".json";
  }

  // ---------------------------------------------------------------- backups

  /** The copy writeJsonFile() makes: <file>.backup.<Y-m-d-H-i-s>. */
  function BackupName(name: string, stamp: string): string {
    name + ".backup." + stamp
  }

  const BackupRetention: int := Config.BackupRetentionDays * Config.SecondsPerDay

  /** cleanOldBackups() deletes a file when it matches *.backup.* and is older than the cutoff. */
  predicate Expired(backups: map<string, Time>, name: string, now: Time)
    requires name in backups
  {
    MatchesBackupGlob(name) && backups[name] < now - BackupRetention
  }

  function RetainedBackups(backups: map<string, Time>, now: Time): (r: map<string, Time>)
    ensures forall name :: name in r <==> name in backups && !Expired(backups, name, now)
    ensures forall name :: name in r ==> r[name] == backups[name]
  {
    map name | name in backups && !Expired(backups, name, now) :: backups[name]
  }

  /** The backup a write leaves: the copy it makes survives the clean-up that follows it. */
  function BackupsAfterWrite<D>(backups: map<string, Time>, files: Files<D>, name: string, now: Time, stamp: string)
    : (r: map<string, Time>)
    ensures name !in files ==> r == backups
    ensures name in files ==> BackupName(name, stamp) in r && r[BackupName(name, stamp)] == now
    ensures name in files ==>
      forall b :: b in r <==> b == BackupName(name, stamp) || (b in backups && !Expired(backups, b, now))
    ensures name in files ==> forall b :: b in r && b != BackupName(name, stamp) ==> r[b] == backups[b]
  {
    if Config.BackupEnabled && name in files then RetainedBackups(backups[BackupName(name, stamp) := now], now)
    else backups
  }

  lemma FreshBackupRetained<D>(backups: map<string, Time>, files: Files<D>, name: string, now: Time, stamp: string)
    requires name in files
    ensures BackupName(name, stamp) in BackupsAfterWrite(backups, files, name, now, stamp)
    ensures forall b :: b in backups && b != BackupName(name, stamp) && backups[b] >= now - BackupRetention ==>
      b in BackupsAfterWrite(backups, files, name, now, stamp)
  {
  }

  /** One data directory. */
  class JsonDir<D> {
    var files: Files<D>
    var backups: map<string, Time>

    constructor (files: Files<D>, backups: map<string, Time>)
      ensures this.files == files && this.backups == backups
    {
      this.files := files;
      this.backups := backups;
    }

    /** cleanOldBackups(): unlink every *.backup.* file whose mtime is before now − 30 days. */
    method CleanOldBackups(now: Time)
      modifies this
      ensures files == old(files)
      ensures backups == RetainedBackups(old(backups), now)
    {
      var pending := backups.Keys;
      while pending != {}
        invariant pending <= old(backups).Keys
        invariant backups.Keys <= old(backups).Keys
        invariant forall name :: name in backups ==> backups[name] == old(backups)[name]
        invariant forall name :: name in old(backups) && name !in pending ==>
          (name in backups <==> !Expired(old(backups), name, now))
        invariant forall name :: name in pending ==> name in backups
        invariant files == old(files)
        decreases |pending|
      {
        var name :| name in pending;
        if MatchesBackupGlob(name) && backups[name] < now - BackupRetention {
          backups := backups - {name};
        }
        pending := pending - {name};
      }
    }

    /**
     * writeJsonFile($file, $data) with backups on: a file that already exists is copied to a
     * backup first and old backups are cleaned; the write itself succeeds when `diskOk`.
     */
    method WriteJsonFile(name: string, doc: D, now: Time, stamp: string, diskOk: bool) returns (ok: bool)
      modifies this
      ensures ok == diskOk
      ensures files == if diskOk then old(files)[name := Some(doc)] else old(files)
      ensures backups == BackupsAfterWrite(old(backups), old(files), name, now, stamp)
    {
      if Config.BackupEnabled && name in files {
        backups := backups[BackupName(name, stamp) := now];
        CleanOldBackups(now);
      }
      if diskOk {
        files := files[name := Some(doc)];
      }
      ok := diskOk;
    }

    /** `if (file_exists($file)) unlink($file);` */
    method DeleteFile(name: string)
      modifies this
      ensures files == old(files) - {name}
      ensures backups == old(backups)
    {
      if name in files {
        files := files - {name};
      }
    }
  }

  // ---------------------------------------------------------------- entry lists

  /** $data['entries'] when the document is truthy and has the key, otherwise []. */
  function Entries<T>(read: JsonRead<ListDoc<T>>): seq<T> {
    if read.Decoded? && read.doc.entries.Some? then read.doc.entries.value else []
  }

  /** $data['recipes'] when the document is truthy and has the key, otherwise []. */
  function Recipes<T>(read: JsonRead<ListDoc<T>>): seq<T> {
    if read.Decoded? && read.doc.recipes.Some? then read.doc.recipes.value else []
  }

  /** The document the add functions start from: the one read, or a fresh one when it is falsy. */
  function Base<T>(read: JsonRead<ListDoc<T>>, initial: ListDoc<T>): ListDoc<T> {
    if read.Decoded? && read.doc.Truthy() then read.doc else initial
  }

  /** `$data['entries'][] = $entry` on the document add*Entry() reads ({'entries': []} when falsy). */
  function WithEntry<T>(read: JsonRead<ListDoc<T>>, entry: T): (d: ListDoc<T>)
    ensures d.entries == Some(Entries(read) + [entry])
    ensures d.recipes == if read.Decoded? && read.doc.Truthy() then read.doc.recipes else None
  {
    var base := Base(read, ListDoc(Some([]), None));
    base.(entries := Some(base.entries.GetOr([]) + [entry]))
  }

  /** `$data['recipes'][] = $recipe` on the document addRecipe() reads ({'recipes': []} when falsy). */
  function WithRecipe<T>(read: JsonRead<ListDoc<T>>, recipe: T): (d: ListDoc<T>)
    ensures d.recipes == Some(Recipes(read) + [recipe])
    ensures d.entries == if read.Decoded? && read.doc.Truthy() then read.doc.entries else None
  {
    var base := Base(read, ListDoc(None, Some([])));
    base.(recipes := Some(base.recipes.GetOr([]) + [recipe]))
  }

  /** Writing one entry and reading the file back gives the old entries with the new one last. */
  lemma AppendReadBack<T>(read: JsonRead<ListDoc<T>>, entry: T)
    ensures Entries(Decoded(WithEntry(read, entry))) == Entries(read) + [entry]
    ensures Recipes(Decoded(WithRecipe(read, entry))) == Recipes(read) + [entry]
    ensures forall k :: 0 <= k < |Entries(read)| ==> Entries(Decoded(WithEntry(read, entry)))[k] == Entries(read)[k]
  {
  }

  // ---------------------------------------------------------------- get functions

  function Min(a: int, b: int): int { if a <= b then a else b }

  /**
   * usort newest first on `key`, then array_slice($s, 0, $limit) when $limit > 0: the limit
   * newest elements, none of the dropped ones newer than any kept.
   */
  function NewestFirst<T>(s: seq<T>, key: T -> int, limit: int): (r: seq<T>)
    ensures SortedBy(r, key, Descending)
    ensures multiset(r) <= multiset(s)
    ensures limit <= 0 ==> multiset(r) == multiset(s)
    ensures limit > 0 ==> |r| == Min(limit, |s|)
    ensures forall x, y :: x in multiset(s) - multiset(r) && y in r ==> key(x) <= key(y)
    ensures forall x :: x in r ==> x in s
    ensures limit <= 0 ==> forall x :: x in s ==> x in r
  {
    var sorted := Sort(s, key, Descending);
    var n := if limit > 0 && limit < |s| then limit else |s|;
    SortedPrefix(s, sorted, key, n);
    sorted[..n]
  }

  /** A prefix of the sorted order holds the newest elements. */
  lemma SortedPrefix<T>(s: seq<T>, sorted: seq<T>, key: T -> int, n: nat)
    requires multiset(sorted) == multiset(s) && SortedBy(sorted, key, Descending)
    requires n <= |sorted|
    ensures SortedBy(sorted[..n], key, Descending)
    ensures multiset(sorted[..n]) <= multiset(s)
    ensures n == |sorted| ==> multiset(sorted[..n]) == multiset(s)
    ensures forall x, y :: x in multiset(s) - multiset(sorted[..n]) && y in sorted[..n] ==> key(x) <= key(y)
    ensures forall x :: x in sorted[..n] ==> x in s
    ensures n == |sorted| ==> forall x :: x in s ==> x in sorted[..n]
  {
    PrefixRest(s, sorted, n);
    PrefixDominates(s, sorted, key, n);
    PrefixMembers(s, sorted, n);
  }

  /** What the prefix leaves out of s is the rest of the sorted order. */
  lemma PrefixRest<T>(s: seq<T>, sorted: seq<T>, n: nat)
    requires multiset(sorted) == multiset(s) && n <= |sorted|
    ensures multiset(sorted[..n]) <= multiset(s)
    ensures multiset(s) - multiset(sorted[..n]) == multiset(sorted[n..])
  {
    assert sorted == sorted[..n] + sorted[n..];
  }

  lemma PrefixDominates<T>(s: seq<T>, sorted: seq<T>, key: T -> int, n: nat)
    requires multiset(sorted) == multiset(s) && SortedBy(sorted, key, Descending)
    requires n <= |sorted|
    requires multiset(s) - multiset(sorted[..n]) == multiset(sorted[n..])
    ensures forall x, y :: x in multiset(s) - multiset(sorted[..n]) && y in sorted[..n] ==> key(x) <= key(y)
  {
    var r := sorted[..n];
    forall x, y | x in multiset(s) - multiset(r) && y in r
      ensures key(x) <= key(y)
    {
      assert x in sorted[n..];
      var j :| n <= j < |sorted| && sorted[j] == x;
      var i :| 0 <= i < n && sorted[i] == y;
      assert InOrder(key(sorted[i]), key(sorted[j]), Descending);
    }
  }

  lemma PrefixMembers<T>(s: seq<T>, sorted: seq<T>, n: nat)
    requires multiset(sorted) == multiset(s) && n <= |sorted|
    ensures forall x :: x in sorted[..n] ==> x in s
    ensures n == |sorted| ==> forall x :: x in s ==> x in sorted[..n]
  {
    assert forall x :: x in sorted[..n] ==> x in sorted;
    assert forall x :: x in sorted ==> x in multiset(s);
    assert forall x :: x in s ==> x in multiset(sorted);
    assert n == |sorted| ==> sorted[..n] == sorted;
  }

  lemma WithinSubMultiset<T(!new)>(s: seq<T>, key: T -> int, lo: int, hi: int)
    ensures multiset(Within(s, key, lo, hi)) <= multiset(s)
  {
    WithinCounts(s, key, lo, hi);
  }

  /** getWeightData($userId, $limit): the user's weight entries, newest date first. */
  function GetWeightData(files: Files<ListDoc<WeightEntry>>, userId: string, limit: int): (r: seq<WeightEntry>)
    ensures var stored := Entries(ReadJsonFile(files, WeightFile(userId)));
      && SortedBy(r, WeightDate, Descending)
      && multiset(r) <= multiset(stored)
      && (limit <= 0 ==> multiset(r) == multiset(stored))
      && (limit > 0 ==> |r| == Min(limit, |stored|))
      && (forall x, y :: x in multiset(stored) - multiset(r) && y in r ==> x.date <= y.date)
  {
    NewestFirst(Entries(ReadJsonFile(files, WeightFile(userId))), WeightDate, limit)
  }

  /** getExerciseData($userId, $limit): the user's exercise entries, newest date first. */
  function GetExerciseData(files: Files<ListDoc<ExerciseEntry>>, userId: string, limit: int): (r: seq<ExerciseEntry>)
    ensures var stored := Entries(ReadJsonFile(files, ExerciseFile(userId)));
      && SortedBy(r, ExerciseDate, Descending)
      && multiset(r) <= multiset(stored)
      && (limit <= 0 ==> multiset(r) == multiset(stored))
      && (limit > 0 ==> |r| == Min(limit, |stored|))
      && (forall x, y :: x in multiset(stored) - multiset(r) && y in r ==> x.date <= y.date)
  {
    NewestFirst(Entries(ReadJsonFile(files, ExerciseFile(userId))), ExerciseDate, limit)
  }

  /** The stored food entries getFoodData() considers: those of `date` when one is given, else all. */
  function FoodOfDate(stored: seq<FoodEntry>, date: Option<Day>): (r: seq<FoodEntry>)
    ensures forall e :: multiset(r)[e] == if date.None? || e.date == date.value then multiset(stored)[e] else 0
  {
    if date.Some? then
      WithinCounts(stored, FoodDate, date.value, date.value);
      Within(stored, FoodDate, date.value, date.value)
    else stored
  }

  /**
   * getFoodData($userId, $date, $limit): the entries of that exact date when a date is given,
   * newest timestamp first, truncated when $limit > 0.
   */
  function GetFoodData(files: Files<ListDoc<FoodEntry>>, userId: string, date: Option<Day>, limit: int): (r: seq<FoodEntry>)
    ensures var stored := Entries(ReadJsonFile(files, FoodFile(userId)));
      var chosen := FoodOfDate(stored, date);
      && SortedBy(r, FoodTimestamp, Descending)
      && multiset(r) <= multiset(chosen)
      && multiset(r) <= multiset(stored)
      && (date.Some? ==> forall k :: 0 <= k < |r| ==> r[k].date == date.value)
      && (limit <= 0 ==> multiset(r) == multiset(chosen))
      && (date.None? && limit <= 0 ==> multiset(r) == multiset(stored))
      && (date.Some? && limit <= 0 ==> forall e :: e in stored && e.date == date.value ==> e in r)
      && (limit > 0 ==> |r| == Min(limit, |chosen|))
      && (limit > 0 ==> |r| <= limit)
      && (forall x, y :: x in multiset(chosen) - multiset(r) && y in r ==> FoodTimestamp(x) <= FoodTimestamp(y))
  {
    var stored := Entries(ReadJsonFile(files, FoodFile(userId)));
    var chosen := FoodOfDate(stored, date);
    var r := NewestFirst(chosen, FoodTimestamp, limit);
    FoodSelection(stored, date, limit, chosen, r);
    r
  }

  lemma FoodSelection(stored: seq<FoodEntry>, date: Option<Day>, limit: int, chosen: seq<FoodEntry>, r: seq<FoodEntry>)
    requires chosen == FoodOfDate(stored, date)
    requires r == NewestFirst(chosen, FoodTimestamp, limit)
    ensures multiset(r) <= multiset(stored)
    ensures date.Some? ==> forall k :: 0 <= k < |r| ==> r[k].date == date.value
    ensures date.Some? && limit <= 0 ==> forall e :: e in stored && e.date == date.value ==> e in r
  {
    if date.Some? {
      forall k | 0 <= k < |r| ensures r[k].date == date.value {
        assert r[k] in multiset(chosen);
      }
      forall e | e in stored && e.date == date.value && limit <= 0 ensures e in r {
        assert e in multiset(stored);
        assert multiset(chosen)[e] > 0;
      }
    }
  }

  /** getRecipes($userId, $includePublic): the user's recipes, then the public ones if asked for. */
  function GetRecipes(files: Files<ListDoc<Recipe>>, userId: string, includePublic: bool): (r: seq<Recipe>)
    ensures var own := Recipes(ReadJsonFile(files, RecipesFile(userId)));
      && |own| <= |r| && r[..|own|] == own
      && (includePublic ==> r[|own|..] == Recipes(ReadJsonFile(files, PublicRecipesFile)))
      && (!includePublic ==> r == own)
  {
    var own := Recipes(ReadJsonFile(files, RecipesFile(userId)));
    if includePublic then own + Recipes(ReadJsonFile(files, PublicRecipesFile)) else own
  }

  // ---------------------------------------------------------------- add functions

  /** add*Entry(): read the file, append the entry to "entries", write the file back. */
  method AppendEntry<T>(dir: JsonDir<ListDoc<T>>, name: string, entry: T, now: Time, stamp: string, diskOk: bool)
    returns (ok: bool)
    modifies dir
    ensures ok == diskOk
    ensures dir.files == if diskOk then old(dir.files)[name := Some(WithEntry(ReadJsonFile(old(dir.files), name), entry))]
      else old(dir.files)
    ensures dir.backups == BackupsAfterWrite(old(dir.backups), old(dir.files), name, now, stamp)
  {
    var read := ReadJsonFile(dir.files, name);
    var data := if read.Decoded? && read.doc.Truthy() then read.doc else ListDoc(Some([]), None);
    data := data.(entries := Some(data.entries.GetOr([]) + [entry]));
    ok := dir.WriteJsonFile(name, data, now, stamp, diskOk);
  }

  function NewWeightEntry(weight: real, unit: string, date: Option<Day>, notes: string, today: Day, now: Time, idBytes: seq<Byte>): WeightEntry
    requires |idBytes| == 4
  {
    WeightEntry(Functions.GenerateRandomString(8, idBytes), weight, unit, date.GetOr(today), notes, now)
  }

  /** addWeightEntry(): appends one entry, dated today when no date is given. */
  method AddWeightEntry(dir: JsonDir<ListDoc<WeightEntry>>, userId: string, weight: real, unit: string, date: Option<Day>,
                        notes: string, today: Day, now: Time, stamp: string, idBytes: seq<Byte>, diskOk: bool)
    returns (ok: bool)
    requires |idBytes| == 4
    modifies dir
    ensures ok == diskOk
    ensures var entry := NewWeightEntry(weight, unit, date, notes, today, now, idBytes);
      dir.files == if diskOk then old(dir.files)[WeightFile(userId) := Some(WithEntry(ReadJsonFile(old(dir.files), WeightFile(userId)), entry))]
      else old(dir.files)
    ensures dir.backups == BackupsAfterWrite(old(dir.backups), old(dir.files), WeightFile(userId), now, stamp)
  {
    ok := AppendEntry(dir, WeightFile(userId), NewWeightEntry(weight, unit, date, notes, today, now, idBytes), now, stamp, diskOk);
  }

  function NewExerciseEntry(exercise: string, duration: int, calories: int, date: Option<Day>, notes: string, today: Day,
                            now: Time, idBytes: seq<Byte>): ExerciseEntry
    requires |idBytes| == 4
  {
    ExerciseEntry(Functions.GenerateRandomString(8, idBytes), exercise, duration, calories, date.GetOr(today), notes, now)
  }

  /** addExerciseEntry(): appends one entry, dated today when no date is given. */
  method AddExerciseEntry(dir: JsonDir<ListDoc<ExerciseEntry>>, userId: string, exercise: string, duration: int, calories: int,
                          date: Option<Day>, notes: string, today: Day, now: Time, stamp: string, idBytes: seq<Byte>, diskOk: bool)
    returns (ok: bool)
    requires |idBytes| == 4
    modifies dir
    ensures ok == diskOk
    ensures var entry := NewExerciseEntry(exercise, duration, calories, date, notes, today, now, idBytes);
      dir.files == if diskOk then old(dir.files)[ExerciseFile(userId) := Some(WithEntry(ReadJsonFile(old(dir.files), ExerciseFile(userId)), entry))]
      else old(dir.files)
    ensures dir.backups == BackupsAfterWrite(old(dir.backups), old(dir.files), ExerciseFile(userId), now, stamp)
  {
    var entry := NewExerciseEntry(exercise, duration, calories, date, notes, today, now, idBytes);
    ok := AppendEntry(dir, ExerciseFile(userId), entry, now, stamp, diskOk);
  }

  function NewFoodEntry(food: string, calories: int, meal: string, date: Option<Day>, nutrition: map<string, real>, today: Day,
                        now: Time, idBytes: seq<Byte>): FoodEntry
    requires |idBytes| == 4
  {
    FoodEntry(Functions.GenerateRandomString(8, idBytes), food, calories, meal, date.GetOr(today), nutrition, now)
  }

  /** addFoodEntry(): appends one entry, dated today when no date is given. */
  method AddFoodEntry(dir: JsonDir<ListDoc<FoodEntry>>, userId: string, food: string, calories: int, meal: string,
                      date: Option<Day>, nutrition: map<string, real>, today: Day, now: Time, stamp: string, idBytes: seq<Byte>,
                      diskOk: bool)
    returns (ok: bool)
    requires |idBytes| == 4
    modifies dir
    ensures ok == diskOk
    ensures var entry := NewFoodEntry(food, calories, meal, date, nutrition, today, now, idBytes);
      dir.files == if diskOk then old(dir.files)[FoodFile(userId) := Some(WithEntry(ReadJsonFile(old(dir.files), FoodFile(userId)), entry))]
      else old(dir.files)
    ensures dir.backups == BackupsAfterWrite(old(dir.backups), old(dir.files), FoodFile(userId), now, stamp)
  {
    var entry := NewFoodEntry(food, calories, meal, date, nutrition, today, now, idBytes);
    ok := AppendEntry(dir, FoodFile(userId), entry, now, stamp, diskOk);
  }

  function NewRecipe(userId: string, name: string, ingredients: seq<string>, instructions: seq<string>,
                     nutrition: map<string, real>, isPublic: bool, now: Time, idBytes: seq<Byte>): Recipe
    requires |idBytes| == 4
  {
    Recipe(Functions.GenerateRandomString(8, idBytes), name, ingredients, instructions, nutrition, userId, now, isPublic)
  }

  /** addRecipe(): appends one recipe to the user's own recipe file, created_by the user. */
  method AddRecipe(dir: JsonDir<ListDoc<Recipe>>, userId: string, name: string, ingredients: seq<string>,
                   instructions: seq<string>, nutrition: map<string, real>, isPublic: bool, now: Time, stamp: string,
                   idBytes: seq<Byte>, diskOk: bool)
    returns (ok: bool)
    requires |idBytes| == 4
    modifies dir
    ensures ok == diskOk
    ensures var recipe := NewRecipe(userId, name, ingredients, instructions, nutrition, isPublic, now, idBytes);
      dir.files == if diskOk then old(dir.files)[RecipesFile(userId) := Some(WithRecipe(ReadJsonFile(old(dir.files), RecipesFile(userId)), recipe))]
      else old(dir.files)
    ensures dir.backups == BackupsAfterWrite(old(dir.backups), old(dir.files), RecipesFile(userId), now, stamp)
  {
    var file := RecipesFile(userId);
    var recipe := NewRecipe(userId, name, ingredients, instructions, nutrition, isPublic, now, idBytes);
    var read := ReadJsonFile(dir.files, file);
    var data := if read.Decoded? && read.doc.Truthy() then read.doc else ListDoc(None, Some([]));
    data := data.(recipes := Some(data.recipes.GetOr([]) + [recipe]));
    ok := dir.WriteJsonFile(file, data, now, stamp, diskOk);
  }

  // ---------------------------------------------------------------- deleteEntry()

  /** array_values(array_filter($s, fn($e) => id($e) !== $entryId)) */
  function WithoutId<T(!new)>(s: seq<T>, id: T -> string, entryId: string): (r: seq<T>)
    ensures |r| <= |s|
    ensures forall x :: x in r <==> x in s && id(x) != entryId
    ensures |r| < |s| <==> exists k :: 0 <= k < |s| && id(s[k]) == entryId
  {
    if s == [] then []
    else if id(s[0]) == entryId then WithoutId(s[1..], id, entryId)
    else
      var rest := WithoutId(s[1..], id, entryId);
      assert (exists k :: 0 <= k < |s| && id(s[k]) == entryId) <==> (exists k :: 0 <= k < |s[1..]| && id(s[1..][k]) == entryId) by {
        if exists k :: 0 <= k < |s| && id(s[k]) == entryId {
          var k :| 0 <= k < |s| && id(s[k]) == entryId;
          assert s[1..][k - 1] == s[k];
        }
      }
      [s[0]] + rest
  }

  /** The number of elements carrying the id. */
  function CountId<T>(s: seq<T>, id: T -> string, entryId: string): nat {
    if s == [] then 0 else (if id(s[0]) == entryId then 1 else 0) + CountId(s[1..], id, entryId)
  }

  /** The filter keeps the relative order: it distributes over concatenation. */
  lemma {:induction false} WithoutIdConcat<T(!new)>(a: seq<T>, b: seq<T>, id: T -> string, entryId: string)
    ensures WithoutId(a + b, id, entryId) == WithoutId(a, id, entryId) + WithoutId(b, id, entryId)
  {
    if a == [] {
      assert a + b == b;
    } else {
      assert (a + b)[0] == a[0];
      assert (a + b)[1..] == a[1..] + b;
      WithoutIdConcat(a[1..], b, id, entryId);
    }
  }

  /** Exactly the elements carrying the id are removed. */
  lemma {:induction false} WithoutIdCount<T(!new)>(s: seq<T>, id: T -> string, entryId: string)
    ensures |WithoutId(s, id, entryId)| == |s| - CountId(s, id, entryId)
  {
    if s != [] {
      WithoutIdCount(s[1..], id, entryId);
    }
  }

  /** With no element carrying the id, nothing changes. */
  lemma {:induction false} WithoutIdAbsent<T(!new)>(s: seq<T>, id: T -> string, entryId: string)
    requires forall k :: 0 <= k < |s| ==> id(s[k]) != entryId
    ensures WithoutId(s, id, entryId) == s
  {
    if s != [] {
      WithoutIdAbsent(s[1..], id, entryId);
    }
  }

  /** Deleting the id of an entry just appended, with an id no earlier entry has, undoes the append. */
  lemma DeleteUndoesAppend<T(!new)>(s: seq<T>, entry: T, id: T -> string)
    requires forall k :: 0 <= k < |s| ==> id(s[k]) != id(entry)
    ensures WithoutId(s + [entry], id, id(entry)) == s
  {
    WithoutIdConcat(s, [entry], id, id(entry));
    WithoutIdAbsent(s, id, id(entry));
    assert WithoutId([entry], id, id(entry)) == [];
  }

  /** The list deleteEntry() filters: "entries" when set, "recipes" otherwise, [] for a falsy document. */
  function DeletionList<T>(read: JsonRead<ListDoc<T>>): seq<T> {
    if !read.Decoded? then []
    else if read.doc.entries.Some? then read.doc.entries.value
    else read.doc.recipes.GetOr([])
  }

  /** The document deleteEntry() writes, or None when it returns false without writing. */
  function DeletionResult<T(!new)>(read: JsonRead<ListDoc<T>>, id: T -> string, entryId: string): (r: Option<ListDoc<T>>)
    ensures r.Some? <==> exists k :: 0 <= k < |DeletionList(read)| && id(DeletionList(read)[k]) == entryId
    ensures r.Some? && read.doc.entries.Some? ==> r.value == read.doc.(entries := Some(WithoutId(read.doc.entries.value, id, entryId)))
    ensures r.Some? && read.doc.entries.None? ==> r.value == read.doc.(recipes := Some(WithoutId(read.doc.recipes.value, id, entryId)))
  {
    if !read.Decoded? || !read.doc.Truthy() then None
    else if read.doc.entries.Some? then
      var kept := WithoutId(read.doc.entries.value, id, entryId);
      assert DeletionList(read) == read.doc.entries.value;
      if |kept| < |read.doc.entries.value| then Some(read.doc.(entries := Some(kept))) else None
    else
      var kept := WithoutId(read.doc.recipes.value, id, entryId);
      assert DeletionList(read) == read.doc.recipes.value;
      if |kept| < |read.doc.recipes.value| then Some(read.doc.(recipes := Some(kept))) else None
  }

  /**
   * deleteEntry($file, $entryId): removes every element with that id from the chosen list,
   * keeping the rest in order, and writes the file only when something was removed.
   */
  method DeleteEntry<T(!new)>(dir: JsonDir<ListDoc<T>>, name: string, entryId: string, id: T -> string, now: Time,
                              stamp: string, diskOk: bool)
    returns (ok: bool)
    modifies dir
    ensures var result := DeletionResult(ReadJsonFile(old(dir.files), name), id, entryId);
      && (ok <==> diskOk && result.Some?)
      && dir.files == (if diskOk && result.Some? then old(dir.files)[name := result] else old(dir.files))
      && dir.backups == (if result.Some? then BackupsAfterWrite(old(dir.backups), old(dir.files), name, now, stamp)
                         else old(dir.backups))
  {
    var read := ReadJsonFile(dir.files, name);
    if !read.Decoded? || !read.doc.Truthy() {
      return false;
    }
    var data := read.doc;
    if data.entries.Some? {
      var original := data.entries.value;
      var kept := WithoutId(original, id, entryId);
      if |kept| < |original| {
        ok := dir.WriteJsonFile(name, data.(entries := Some(kept)), now, stamp, diskOk);
        return;
      }
    } else {
      var original := data.recipes.value;
      var kept := WithoutId(original, id, entryId);
      if |kept| < |original| {
        ok := dir.WriteJsonFile(name, data.(recipes := Some(kept)), now, stamp, diskOk);
        return;
      }
    }
    ok := false;
  }

  // ---------------------------------------------------------------- user files

  /** getUserData($userId) */
  function GetUserData(files: Files<User>, userId: string): (r: JsonRead<User>)
    ensures r.Decoded? <==> UserFile(userId) in files && files[UserFile(userId)].Some?
    ensures r.Decoded? ==> files[UserFile(userId)] == Some(r.doc)
  {
    ReadJsonFile(files, UserFile(userId))
  }

  /** saveUserData(): stamps updated_at, changes no other field, and writes data/users/<id>.json. */
  method SaveUserData(users: JsonDir<User>, userId: string, user: User, now: Time, stamp: string, diskOk: bool)
    returns (ok: bool)
    modifies users
    ensures ok == diskOk
    ensures users.files == if diskOk then old(users.files)[UserFile(userId) := Some(user.(updatedAt := Some(now)))]
      else old(users.files)
    ensures users.backups == BackupsAfterWrite(old(users.backups), old(users.files), UserFile(userId), now, stamp)
  {
    ok := users.WriteJsonFile(UserFile(userId), user.(updatedAt := Some(now)), now, stamp, diskOk);
  }
}
