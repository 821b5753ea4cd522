/**
 * The shapes of the JSON documents FitGrit keeps under data/: one user record per file in
 * data/users/, one session record per file in data/sessions/, and per-user entry lists in
 * data/weight/, data/exercise/, data/food/ and data/recipes/.
 *
 * Calendar dates ('Y-m-d') are day numbers counted from 1970-01-01, and stored date-times
 * ('Y-m-d H:i:s') are Unix seconds; parsing and formatting them is not modelled.
 */
module Records {
  import opened Wrappers

  /** A calendar day: the number of days since 1970-01-01 (a Thursday). */
  type Day = int

  /** A point in time in Unix seconds. */
  type Time = int

  datatype Preferences = Preferences(weightUnit: string, heightUnit: string, timezone: string, notifications: bool)

  datatype Profile = Profile(
    height: Option<real>,
    gender: Option<string>,
    birthDate: Option<string>,
    activityLevel: string,
    goal: string,
    weightGoal: Option<real>,
    goalDate: Option<string>)

  /** data/users/<id>.json; `password` holds the password hash. */
  datatype User = User(
    id: string,
    email: string,
    password: string,
    firstName: string,
    lastName: string,
    createdAt: Time,
    lastLogin: Option<Time>,
    isActive: bool,
    loginAttempts: int,
    lockedUntil: Option<Time>,
    preferences: Preferences,
    profile: Profile,
    updatedAt: Option<Time>)

  /** data/sessions/<session id>.json */
  datatype SessionRecord = SessionRecord(
    sessionId: string,
    userId: string,
    createdAt: Time,
    expiresAt: Time,
    ipAddress: string,
    userAgent: string,
    isActive: bool)

  datatype WeightEntry = WeightEntry(id: string, weight: real, unit: string, date: Day, notes: string, timestamp: Time)

  datatype ExerciseEntry = ExerciseEntry(
    id: string, exercise: string, duration: int, calories: int, date: Day, notes: string, timestamp: Time)

  datatype FoodEntry = FoodEntry(
    id: string, food: string, calories: int, meal: string, date: Day, nutrition: map<string, real>, timestamp: Time)

  datatype Recipe = Recipe(
    id: string,
    name: string,
    ingredients: seq<string>,
    instructions: seq<string>,
    nutrition: map<string, real>,
    createdBy: string,
    createdAt: Time,
    isPublic: bool)

  /**
   * An entry-list document: {"entries": [...]} for weight, exercise and food, {"recipes": [...]}
   * for recipes. A key that is absent or null is None. The document with neither key is the
   * empty array, which PHP treats as false.
   */
  datatype ListDoc<T> = ListDoc(entries: Option<seq<T>>, recipes: Option<seq<T>>) {
    predicate Truthy() {
      entries.Some? || recipes.Some?
    }
  }

  /** The 'trend' of a statistics array: 'up', 'down' or 'stable'. */
  datatype Trend = Up | Down | Stable

  // Column accessors, passed to the array helpers as function values.

  function WeightDate(e: WeightEntry): int { e.date }
  function WeightValue(e: WeightEntry): real { e.weight }
  function WeightId(e: WeightEntry): string { e.id }

  function ExerciseDate(e: ExerciseEntry): int { e.date }
  function ExerciseDuration(e: ExerciseEntry): int { e.duration }
  function ExerciseCalories(e: ExerciseEntry): int { e.calories }
  function ExerciseId(e: ExerciseEntry): string { e.id }

  function FoodDate(e: FoodEntry): int { e.date }
  function FoodTimestamp(e: FoodEntry): int { e.timestamp }
  function FoodCalories(e: FoodEntry): int { e.calories }
  function FoodId(e: FoodEntry): string { e.id }

  function RecipeId(r: Recipe): string { r.id }
}
