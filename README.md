# FitGrit core in Dafny

FitGrit is a PHP fitness tracker. It keeps every user's data in JSON files on disk: the account,
sessions, weight, exercise and food logs, and recipes. There is no database. This project models in
Dafny the part of FitGrit that decides what is stored and what is shown, and proves properties of it:

- the helpers in `includes/functions.php`: ids, input sanitising, password rules, BMI, unit
  conversion, API responses and CSRF tokens;
- the JSON file store in `includes/data-handler.php`: reading, writing with backups, backup
  retention, the per-user logs and deletion by id;
- accounts and sessions in `includes/auth.php`: registration, login with lockout after failed
  attempts, session creation and validation, logout, expired-session cleanup and password change;
- the registration endpoint `api/register.php`;
- the statistics and chart code of `exercise.php`, `weight.php` and `dashboard.php`.

Modules follow the PHP files: `Functions`, `DataHandler`, `Auth`, `RegisterApi`, `ExercisePage`,
`WeightPage` and `DashboardPage`. They rest on a few shared modules:

- `Config`: the constants of `includes/config.php`;
- `Records`: the shapes of the JSON documents;
- `Php`: the PHP string builtins used (`trim`, `stripslashes`, `htmlspecialchars`, `strtolower`,
  `strlen`, `bin2hex`, `round`) and the `$_SESSION` / cookie state as a class;
- `PhpArray`: filtering, sorting, summing and counting over sequences, with their lemmas;
- `Wrappers`: `Option` and `Result`.

Each data directory is an object, `DataHandler.JsonDir`. Its `files` map says per file name whether
the file is absent, unreadable or holds a document; `backups` maps each backup name to its
modification time. Operations that write to disk are methods that change that object. Operations
that only compute are functions. A PHP loop that updates variables step by step is a `while` or
`for` loop here with its invariants; a `foreach` that only searches a list or collects from it, such
as the required-field check of the registration API, is a recursive function.
Time is a number of seconds; dates are day numbers (day 0 is 1970-01-01, a Thursday). The current
time, random bytes, `filter_var`, `password_hash`/`password_verify` and whether a disk write
succeeds are parameters.

Where the code and its own messages disagree, the model follows the code. For example,
`register.php` sanitises a name before matching it against a pattern that allows apostrophes. The
sanitiser turns `'` into `&#039;`, so a name with an apostrophe is always rejected
(`RegisterApi.ApostropheNameRejected`).

## Model

| member | source | states |
|---|---|---|
| Functions.GenerateRandomString | includes/functions.php:15-17 | for an even length the token has exactly that many characters, all hexadecimal digits (one byte gives two) |
| Functions.GenerateUserId | includes/functions.php:23-25 | a user id starts with `user_` and uses only letters, digits and `_` |
| Functions.GenerateSessionId | includes/functions.php:31-33 | a session id starts with `sess_` and uses only letters, digits and `_` |
| Functions.SanitizeString | includes/functions.php:46-48 | a sanitised string contains no `<`, `>`, `"` or `'` |
| Functions.Sanitize | includes/functions.php:40-52 | arrays are sanitised key by key, keeping their keys, each value replaced by its sanitised form; strings are trimmed, unslashed and escaped; other values are returned unchanged; nothing returned holds markup |
| Functions.SanitizeItems | includes/functions.php:41-43 | the items keep their keys in order, each value is the sanitised form of the value at the same position, and none holds markup |
| Functions.ValidatePassword | includes/functions.php:68-94 | valid exactly when the password is at least 8 bytes and has an upper-case letter, a lower-case letter and a digit; otherwise the message names the first rule broken, in the code's order |
| Functions.ApiResponse | includes/functions.php:222-234 | the response always has success, message and timestamp, and has data exactly when data is given |
| Functions.CalculateBmi | includes/functions.php:156-159 | a height of zero or less gives 0 |
| Functions.GetBmiCategory | includes/functions.php:166-171 | each of the four categories is returned exactly on its own interval: below 18.5, below 25, below 30, otherwise |
| Functions.BmiCategoryMonotone | includes/functions.php:166-171 | a larger BMI never gets a lower category |
| Functions.ConvertWeight | includes/functions.php:180-192 | the same unit, or any pair other than lbs/kg, returns the weight unchanged; a weight that is not negative stays not negative |
| Functions.ConvertHeight | includes/functions.php:201-213 | the same unit, or any pair other than inches/cm, returns the height unchanged; a height that is not negative stays not negative |
| Functions.IsAjaxRequest | includes/functions.php:250-253 | true exactly when the header is present and equals `xmlhttprequest` ignoring case |
| Functions.SameIgnoringCaseLowered | includes/functions.php:252 | two strings are equal ignoring case exactly when their lower-case forms are equal |
| Functions.VerifyCsrfToken | includes/functions.php:271-273 | true exactly when a token is stored in the session and equals the one given |
| Functions.GenerateCsrfToken | includes/functions.php:259-264 | keeps a token already in the session, or stores a fresh 32-digit one; the returned token always verifies; nothing else in the session changes |
| Php.Trim | includes/functions.php:46 | removes characters from the two ends only, and leaves none of trim's whitespace characters at either end |
| Php.StripSlashes | includes/functions.php:47 | never makes the string longer |
| Php.HtmlSpecialChars | includes/functions.php:48 | the result holds no markup character, and a string without one is unchanged |
| Php.ToLower | includes/auth.php:150 | lower-cases each character in place and keeps the length |
| Php.StrLen | includes/functions.php:71 | the byte length is at least the number of characters |
| Php.Bin2Hex | includes/functions.php:16 | two hexadecimal digits per byte |
| Php.Round | weight.php:149 | rounding to one decimal keeps the sign and moves the value by at most 0.05 |
| Php.Superglobals.ClearSession | includes/auth.php:339-343 | empties the session variables and keeps the cookie |
| DataHandler.ReadJsonFile | includes/data-handler.php:15-39 | a missing file reads as the empty array, an unreadable or malformed one as a failure, any other file as its document |
| DataHandler.GeneratedUserFileListed | includes/data-handler.php:109-112 | a generated user id's file name matches the `*.json` listing pattern |
| DataHandler.RetainedBackups | includes/data-handler.php:93-102 | removes exactly the files named like a backup that are older than the 30-day retention period; the others keep their times |
| DataHandler.BackupsAfterWrite | includes/data-handler.php:51-57 | writing a file that does not exist yet leaves the backups alone; writing one that exists adds its backup stamped with the write time, removes exactly the expired backups and keeps the times of the others |
| DataHandler.FreshBackupRetained | includes/data-handler.php:51-57 | the backup made by a write of an existing file survives the clean-up that follows, as do all backups still inside the retention period |
| DataHandler.JsonDir.CleanOldBackups | includes/data-handler.php:93-102 | deletes exactly the expired backups and touches no data file |
| DataHandler.JsonDir.WriteJsonFile | includes/data-handler.php:48-87 | backs up an existing file, cleans old backups, then stores the document when the write succeeds; returns whether it succeeded |
| DataHandler.JsonDir.DeleteFile | includes/auth.php:358-363 | removes exactly that file |
| DataHandler.WithEntry | includes/data-handler.php:167-182 | the new document's entries are the old ones followed by the new entry; recipes of an existing document are kept |
| DataHandler.WithRecipe | includes/data-handler.php:363-380 | the new document's recipes are the old ones followed by the new recipe; entries of an existing document are kept |
| DataHandler.AppendReadBack | includes/data-handler.php:161-185 | reading back after an append gives the old entries, in order, followed by the new one |
| DataHandler.NewestFirst | includes/data-handler.php:141-147 | the result is sorted newest first and drawn from the input; without a limit it is a permutation of all of it; with a limit it holds that many entries and no left-out entry is newer than one kept |
| DataHandler.GetWeightData | includes/data-handler.php:132-150 | the user's weight entries, newest date first, cut to the limit, dropping only the oldest |
| DataHandler.GetExerciseData | includes/data-handler.php:193-211 | the user's exercise entries, newest date first, cut to the limit, dropping only the oldest |
| DataHandler.FoodOfDate | includes/data-handler.php:268-272 | with a date, each stored entry of that date is kept as often as it is stored and no other is; without one, all are kept |
| DataHandler.GetFoodData | includes/data-handler.php:257-284 | the user's food entries of the date (or all of them), newest timestamp first; without a limit all of them, with one exactly the smaller of the limit and their number, and no entry left out is newer than one kept |
| DataHandler.FoodSelection | includes/data-handler.php:268-280 | with a date, every entry returned has that date and, without a limit, every stored entry of that date is returned |
| DataHandler.GetRecipes | includes/data-handler.php:329-349 | the user's own recipes come first, then the public ones when asked for |
| DataHandler.AppendEntry | includes/data-handler.php:161-185 | writes the file back with the entry appended, through the backing-up write |
| DataHandler.AddWeightEntry | includes/data-handler.php:161-185 | appends a weight entry carrying the given weight, unit, date (today when absent) and notes |
| DataHandler.AddExerciseEntry | includes/data-handler.php:223-248 | appends an exercise entry carrying the given exercise, duration, calories, date and notes |
| DataHandler.AddFoodEntry | includes/data-handler.php:296-321 | appends a food entry carrying the given food, calories, meal, date and nutrition |
| DataHandler.AddRecipe | includes/data-handler.php:361-383 | appends a recipe to the user's recipes file |
| DataHandler.WithoutId | includes/data-handler.php:398-406 | keeps exactly the entries with a different id and gets shorter exactly when one had that id |
| DataHandler.WithoutIdConcat | includes/data-handler.php:399-404 | filtering by id distributes over concatenation |
| DataHandler.WithoutIdCount | includes/data-handler.php:398-406 | the filtered list is shorter by the number of entries with that id |
| DataHandler.WithoutIdAbsent | includes/data-handler.php:399-406 | filtering by an id nobody has changes nothing |
| DataHandler.DeleteUndoesAppend | includes/data-handler.php:391-411 | deleting a freshly appended entry by its unique id restores the list |
| DataHandler.DeletionResult | includes/data-handler.php:391-411 | there is something to save exactly when some entry has the id; the saved document holds the other entries |
| DataHandler.DeleteEntry | includes/data-handler.php:391-411 | saves the document without the entry when it exists, and reports false without writing when it does not |
| DataHandler.SaveUserData | includes/data-handler.php:120-124 | stores the user stamped with the update time |
| DataHandler.GetUserData | includes/data-handler.php:109-112 | a user's document is read exactly when the user's file exists and holds a readable document, and is then that document |
| Auth.NormalizeIgnoresCaseAndPadding | includes/auth.php:150 | an email padded with whitespace and written in any case normalises to the stored lower-case email |
| Auth.NormalizeEmail | includes/auth.php:150 | the normalised email is no longer than the input, and has no trim whitespace at either end |
| Auth.NormalizeEmailIdempotent | includes/auth.php:150 | a normalised email is already lower-case, and normalising it again changes nothing |
| Auth.FirstWithEmail | includes/auth.php:168-180 | finds nothing exactly when no listed file holds the email; otherwise returns the user of the first listed file that holds it |
| Auth.FindUserByEmail | includes/auth.php:168-180 | returns the id of the first user file holding the normalised email, and nothing exactly when no user file holds it |
| Auth.EmailExists | includes/auth.php:149-161 | true exactly when some user file holds the normalised email |
| Auth.OnlyHolderFound | includes/auth.php:168-180 | when exactly one file holds an email, the lookup returns that user |
| Auth.FailedLogin | includes/auth.php:200-209 | counts one more failed attempt and locks for 15 minutes once the count reaches five; nothing else changes |
| Auth.IsAccountLocked | includes/auth.php:187-193 | an account without a lock time is never locked; with one it is locked exactly while the current time is before it |
| Auth.LockIsAnInterval | includes/auth.php:187-193 | a lock holds from any moment up to its expiry: locked later means locked earlier, and unlocked earlier means unlocked later |
| Auth.LoginDecision | includes/auth.php:108-141 | a locked account is refused whatever the password; an unlocked inactive account is refused as deactivated; an unlocked active account with a wrong password counts a failed attempt; a login succeeds exactly when the account is unlocked, active and the password verifies, and then resets the counter and the lock and records the time |
| Auth.WrongPasswordsCount | includes/auth.php:120-124 | each wrong password before the limit adds one attempt, and the lock is set exactly at the fifth |
| Auth.FiveWrongPasswordsLock | includes/auth.php:200-209 | after five wrong passwords even the right password is refused until the lock expires |
| Auth.LockExpiresThenCorrectPasswordResets | includes/auth.php:108-112 | once the lock has expired the right password logs in and clears the counter and the lock |
| Auth.LockExpiresThenWrongPasswordRelocks | includes/auth.php:200-209 | once the lock has expired a wrong password locks the account again at once, since the counter was never reset |
| Auth.Login | includes/auth.php:85-142 | a penalised or admitted user was read active and unlocked; a penalty is exactly one failed attempt; an admission resets the counter and the lock |
| Auth.Decide | includes/auth.php:103-141 | the same decision for a user found by id; a user read back locked is locked out until its formatted lock time |
| Auth.UnknownEmailLooksLikeWrongPassword | includes/auth.php:96-100 | an unknown email gets the same message as a wrong password |
| Auth.LockedAccountRefused | includes/auth.php:108-112 | a locked account is refused whatever the password, as locked out until its formatted lock time, which the lock-time message shows |
| Auth.HandleFailedLogin | includes/auth.php:200-209 | saves the user with one more failed attempt, and the lock once the limit is reached |
| Auth.SessionStatus | includes/auth.php:271-295 | no session id means no session; a session is active exactly when its file holds an active record that has not expired |
| Auth.SessionExpiry | includes/auth.php:219 | a session expires 30 days after it starts with remember-me and 1 hour after it starts otherwise, so never sooner than the 1-hour timeout |
| Auth.NewSession | includes/auth.php:219-228 | a new record carries the session and user ids, is active, starts now and expires strictly later at the session expiry, and has `unknown` for a missing address or user agent |
| Auth.SessionLifetime | includes/auth.php:217-246 | a fresh session stays active until its expiry, 1 hour or 30 days with remember-me, and is expired from then on |
| Auth.DestroySession | includes/auth.php:358-363 | removes exactly the session's file |
| Auth.CreateUserSession | includes/auth.php:217-246 | writes a new session record, logs the user in and sets a 30-day cookie only with remember-me |
| Auth.ValidateSession | includes/auth.php:271-295 | true exactly when the session is active; only an expired record's file is deleted; an active session is adopted into empty session variables; a missing, unreadable, inactive or expired session leaves the session variables as they were |
| Auth.IsLoggedIn | includes/auth.php:252-264 | true exactly when the session variables are set and the stored session is active |
| Auth.LogoutUser | includes/auth.php:324-352 | destroys the stored session, clears every session variable and the cookie, and returns true |
| Auth.WithoutExpiredSessions | includes/auth.php:368-378 | drops exactly the listed session files that are readable and past their expiry |
| Auth.CleanExpiredSessions | includes/auth.php:368-378 | deletes exactly those files and nothing else |
| Auth.NewUser | includes/auth.php:42-66 | a new account has the normalised email, no failed attempts, no lock, is active, has escaped names and the default units |
| Auth.NewUserNotLocked | includes/auth.php:42-66 | a newly registered user can log in with the right password, and a wrong one counts one attempt |
| Auth.RegistrationError | includes/auth.php:18-40 | registration proceeds exactly when all fields are given, the email is valid, the password is strong and the email is new; otherwise the first failing check in that order gives the message: all fields required, invalid email, the password validator's message, email already registered |
| Auth.RegisterUser | includes/auth.php:18-76 | on success writes a new user file under a fresh id; on any error writes nothing |
| Auth.RegisteredUserFound | includes/auth.php:42-75 | after a registration the new email is found by the lookup and leads to the new user |
| Auth.AuthenticateUser | includes/auth.php:85-142 | saves the failed attempt, or the reset counter and a new session, exactly as the login decision says, and writes nothing for other refusals; the user file and the session file are written with separate outcomes |
| Auth.FinishLogin | includes/auth.php:103-141 | the same steps for a user already found by email |
| Auth.PasswordChange | includes/auth.php:397-423 | a change succeeds exactly when the user exists, the current password verifies and the new one is strong, and then stores the new hash; otherwise the first failing check gives its message: user not found, current password incorrect, the password validator's message |
| Auth.PasswordChangeKeepsAccount | includes/auth.php:397-423 | after a change the new password verifies and every other field of the account is unchanged |
| Auth.UpdatePassword | includes/auth.php:397-423 | saves the changed account only when the change succeeds |
| RegisterApi.MissingField | api/register.php:29-34 | names the first required field that is absent or empty, and nothing exactly when all are present |
| RegisterApi.RegisterGuards | api/register.php:15-70 | rejects a non-POST request, then a non-AJAX one, then a missing field, a bad CSRF token, an invalid email, a mismatched confirmation, a weak password, a short name and a name outside the pattern, in that order; each guard, once the earlier ones pass, fails with its own message; passes exactly when none applies |
| RegisterApi.SanitizedQuoteFailsPattern | api/register.php:41-70 | a name with an apostrophe no longer matches the name pattern once sanitised |
| RegisterApi.ApostropheNameRejected | api/register.php:41-70 | a request whose first name holds an apostrophe is always rejected |
| RegisterApi.Register | api/register.php:15-84 | a request that fails a guard writes nothing; one that passes is registered exactly as `registerUser` does: its response, the new user file and the backup taken before the write |
| ExercisePage.ExerciseName | exercise.php:67-73 | a custom exercise name is used only for "other"; a known type gives its label; anything else gives "Exercise"; the name is never empty |
| ExercisePage.EstimateCalories | exercise.php:76-88 | calories given are kept; when none are given the estimate scales the type's per-minute rate by duration and intensity, is 1.0 for an unknown intensity, and is never negative for a duration that is not negative |
| ExercisePage.FormEntry | exercise.php:57-90 | the stored entry carries the sanitised name, the estimated calories, the duration, the date (today when absent) and the sanitised notes |
| ExercisePage.IntensityMultiplier | exercise.php:80-87 | the multiplier lies between 0.8 and 1.6, is 1.0 for an unknown intensity and is below 1.0 exactly for `low` |
| ExercisePage.ScaledEstimate | exercise.php:77-87 | the rounded estimate lies within 0.5 of rate × duration × factor, is exactly rate × duration for a factor of 1, and is not negative for a positive rate and factor and a duration that is not negative |
| ExercisePage.AddExercise | exercise.php:57-108 | a bad token or a duration outside 1 to 600 writes nothing and gives the matching message; otherwise the entry is appended |
| ExercisePage.DeleteExercise | exercise.php:111-122 | a bad token writes nothing; otherwise the entry with that id is deleted |
| ExercisePage.DatesNewestFirst | exercise.php:239-240 | each date appears once, in strictly decreasing order, and exactly the dates of the entries appear |
| ExercisePage.DatesOldestFirst | exercise.php:257-280 | the same dates in strictly increasing order |
| ExercisePage.CurrentRunUnique | exercise.php:234-255 | the current streak is determined by the dates and today |
| ExercisePage.CalculateCurrentStreak | exercise.php:234-255 | counts the consecutive days with an entry, starting from a date at most one day from today; 0 without entries; at most the number of distinct dates |
| ExercisePage.ScanAsWritten | exercise.php:242-252 | the scan as written counts at most one per distinct date |
| ExercisePage.CalculateCurrentStreakAsWritten | exercise.php:234-255 | the loop as written computes the scan as written |
| ExercisePage.StreakAsWrittenSkipsGaps | exercise.php:246 | entries on today, two days ago and five days ago give a streak of 3 as written, where the consecutive-day streak is 1 |
| ExercisePage.CalculateLongestStreak | exercise.php:257-280 | the longest run of consecutive days: every run is at most that long and one run reaches it; 0 without entries |
| ExercisePage.LongestRun | exercise.php:263-279 | the same for a strictly increasing list of dates |
| ExercisePage.TalliedPermutation | exercise.php:166-200 | the totals do not depend on the order in which the entries are added up |
| ExercisePage.WindowsNested | exercise.php:189-199 | this week's workouts and minutes never exceed this month's, nor this month's the totals |
| ExercisePage.MostCountedIsMostFrequent | exercise.php:213-222 | the key with the highest count, first one on ties, occurs at least as often as any other |
| ExercisePage.MostCountedSeenFirst | exercise.php:213-222 | on a tie the key picked is the one seen first: it occurs at or before every occurrence of any value at least as frequent |
| ExercisePage.Weekday | exercise.php:186 | the weekday of a day number is between 0 (Sunday) and 6 |
| ExercisePage.WeekdayCycle | exercise.php:186 | the next day has the next weekday, a week later has the same one, and day 0, 1 January 1970, is a Thursday |
| ExercisePage.Favourites | exercise.php:213-222 | the favourite exercise and the most active weekday are the most frequent ones among the entries |
| ExercisePage.TallyEntries | exercise.php:177-200 | the loop computes the totals, the week and month sums and counts, and the frequency of each exercise and weekday |
| ExercisePage.SortedTalliesDescribeEntries | exercise.php:166-222 | tallies of the sorted copy describe the entries as given |
| ExercisePage.CalculateExerciseStats | exercise.php:142-232 | empty entries give the initial statistics; otherwise totals, week and month figures, favourite, most active day and both streaks are those of the entries; week figures never exceed month figures; goal progress is at most 100; the current streak is the corrected one, where line 225 calls the one as written |
| ExercisePage.SumRange | exercise.php:313-321 | minutes and calories are the sums over the entries dated within the range |
| ExercisePage.PrepareExerciseChartData | exercise.php:283-329 | the weekly chart has one bar per day of the last seven days with that day's sums; the monthly chart has four bars, oldest first, each with the sums over the dates between the pair of bounds `weekBounds` gives for it |
| ExercisePage.DailyBuckets | exercise.php:286-304 | seven labels from six days ago to today, and the per-day sums |
| ExercisePage.WeeklyBuckets | exercise.php:305-325 | four buckets, oldest first, each with the sums over the dates between its two bounds |
| ExercisePage.WeeklyChartCoversWeek | exercise.php:286-304 | the bars of the weekly chart add up to the minutes of the whole week |
| DashboardPage.BackwardRunUnique | dashboard.php:110-136 | the count of the backward day scan is determined by the entries and today |
| DashboardPage.HasEntry | dashboard.php:120-125 | true exactly when some entry has that date |
| DashboardPage.BackwardStreak | dashboard.php:110-136 | counts the days back from today that have an entry, stopping at the first day without one or at the 30-day guard; 0 when today has none; at most the number of distinct dates |
| DashboardPage.CalculateExerciseStreak | dashboard.php:110-136 | the backward scan over the exercise entries given |
| DashboardPage.CalculateWeightLogStreak | dashboard.php:138-165 | the backward scan over the 30 newest weight entries |
| DashboardPage.WeightChange | dashboard.php:62-64 | the newest weight minus the one before, or 0 with fewer than two entries or a zero weight |
| DashboardPage.TrendOf | dashboard.php:91 | up exactly when the change is positive, down exactly when negative, stable exactly when zero |
| DashboardPage.TodayWithinWeek | dashboard.php:67-77 | today's entries are among this week's, so today's minutes never exceed the week's |
| DashboardPage.CalculateDashboardStats | dashboard.php:57-108 | current weight, change and trend from the newest entries; today's and this week's exercise sums; food calories and meal count; both streaks; today's minutes never exceed the week's |
| DashboardPage.PrepareWeightChartData | dashboard.php:167-179 | one point per entry, reversed so that entries stored newest first are drawn oldest first |
| DashboardPage.DayTotalsStep | dashboard.php:186-191 | adding an entry to the per-day totals keeps each day's total equal to the sum over that day's entries |
| DashboardPage.PrepareExerciseChartData | dashboard.php:181-200 | seven labels ending today, each value the minutes exercised on that day |
| DashboardPage.ExerciseChartCoversWindow | dashboard.php:181-200 | the chart's values add up to the minutes of the whole seven-day window |
| DashboardPage.BuildOverview | dashboard.php:40-53 | the BMI of the newest weight and its category exactly when a height and a weight are known; the weight chart of the entries reversed; the exercise chart of the last seven days |
| DashboardPage.ShowDashboard | dashboard.php:18-54 | the statistics are those of the 10 newest weight entries, the 7 newest exercise entries and today's food; the page shows BMI and its category exactly when a height and a weight are known, the weight chart of those entries oldest first, the exercise chart, and an exercise streak of at most 7 |
| WeightPage.AddWeight | weight.php:39-64 | a bad token, or a weight not strictly between 0 and 1000, writes nothing and gives the matching message; otherwise the entry is appended in the chosen unit |
| WeightPage.DeleteWeight | weight.php:66-77 | a bad token writes nothing; otherwise the entry with that id is deleted |
| WeightPage.WithGoal | weight.php:84-85 | only the profile's goal weight and goal date change |
| WeightPage.SetGoal | weight.php:79-99 | a bad token, or a goal not strictly between 0 and 1000, writes nothing; otherwise the user is saved with the new goal |
| WeightPage.RecentTrend | weight.php:183-188 | compares the newest weight with the fifth newest, or the oldest if fewer: down when it fell by more than 1, up when it rose by more than 1, stable otherwise |
| WeightPage.WindowChange | weight.php:158-180 | a change exists exactly when at least two entries fall in the window, and is then the newest minus the oldest weight in it |
| WeightPage.Percent | weight.php:198-200 | the share of the needed change achieved, in percent: 0 when nothing is achieved, 100 when all of it is, and never negative |
| WeightPage.GoalProgress | weight.php:192-202 | progress is between 0 and 100, 0 at the starting weight and 100 at the goal |
| WeightPage.DaysTracking | weight.php:205-209 | the number of days between the oldest and the newest entry |
| WeightPage.MeanWithin | weight.php:149 | the rounded average lies between the lowest and highest weight, give or take 0.05 |
| WeightPage.MeanWeight | weight.php:149 | the average is within 0.05 of the exact mean of the weights |
| WeightPage.SortedExtremes | weight.php:141-148 | after sorting, the first entry is the newest and the extremes are the lowest and highest weights of all entries |
| WeightPage.SameEntries | weight.php:141-143 | the window facts do not depend on the order of the entries |
| WeightPage.RoundedChangeMeaning | weight.php:158-180 | the weekly and monthly change is the rounded newest-minus-oldest in the window, or 0 with fewer than two entries |
| WeightPage.RoundedChange | weight.php:163-180 | the change is 0 with fewer than two entries in the window, and otherwise the rounded newest-minus-oldest weight of the window |
| WeightPage.Summary | weight.php:141-149 | current, highest, lowest and average describe the entries |
| WeightPage.Changes | weight.php:158-209 | trend, weekly and monthly change and days tracked describe the entries |
| WeightPage.InitialStats | weight.php:118-133 | the statistics before any entry is looked at: no weights, BMI or progress, stable trend, zero changes and days, the entry count, and the profile's goal |
| WeightPage.CalculateWeightStats | weight.php:118-212 | without entries the defaults; otherwise the summary; with two or more the changes; progress exactly when a goal is set and differs from the starting weight; BMI exactly when a height is known |
| WeightPage.ChartRows | weight.php:219-226 | the chart's rows are entries inside the window, in increasing date order |
| WeightPage.ChartColumns | weight.php:234-238 | one label, weight and date per row, in the rows' order |
| WeightPage.ChartKeepsDates | weight.php:215-241 | the chart has each date, and each (date, weight) point, of the window's entries as many times as they occur |
| WeightPage.ChartDescribesEntries | weight.php:215-241 | every point is a recorded entry inside the window, in increasing date order |
| WeightPage.PrepareWeightChartData | weight.php:215-241 | the (date, weight) points of the entries of the last `days` days and no others, each as many times as it occurs, oldest first |
| PhpArray.SumPermutation | weight.php:149 | a sum does not depend on the order of the entries |
| PhpArray.ColumnPermutation | weight.php:146 | the values picked from reordered entries are the same values reordered |
| PhpArray.DaySumsTotal | dashboard.php:181-200 | the per-day sums over consecutive days add up to the sum over the whole range |
| PhpArray.FrequenciesCount | exercise.php:181-187 | the counts are the number of occurrences of each key, and every key that occurs is listed exactly once |
| PhpArray.FrequenciesFirstSeen | exercise.php:181-187 | the keys are listed in first-seen order: a key listed before another occurs before every occurrence of that other |
| PhpArray.Sort | includes/data-handler.php:141-143 | sorting gives a sorted permutation of the input |
| PhpArray.InsertStable | includes/data-handler.php:141-143 | inserting one entry into a sorted list puts it in front of the entries with the same key and keeps their order |
| PhpArray.SortStable | includes/data-handler.php:141-143 | the entries with any one key keep their order through the sort |
| PhpArray.SortedAtLeast | weight.php:163-168 | keeping the entries from a date on leaves a sorted list sorted |
| PhpArray.FirstMax | exercise.php:213-222 | the first key with the highest count |
| PhpArray.TieGoesToFirstSeen | exercise.php:213-222 | with keys in first-seen order and exact counts, the key picked occurs at or before every occurrence of any value at least as frequent |

## Left out

- Dates and times: `DateTime`, `strtotime`, `date()` formatting and time of day are not modelled. Dates are day numbers and the current time is a parameter.
- ExercisePage.PrepareExerciseChartData: the monthly chart's bounds are the parameter `weekBounds`, standing for the two `strtotime` calls at exercise.php:308-309 (`-(i+1) weeks monday` and `-i weeks sunday`). The model does not compute them, so it does not show that on a Monday the newest bucket spans 14 days and overlaps the one before; on other days the buckets are calendar weeks.
- DashboardPage.BackwardStreak: the 30-day guard is compared day by day, so the scan may count up to 31 days. `DateTime` in PHP compares times as well, and then the 31st day usually fails the guard.
- Chart labels are day numbers, not formatted strings such as `M j`.
- Php.Round: rounds exact real numbers to one decimal, half away from zero. The floating-point error of PHP's `round()` is not modelled, and only the bound of 0.05 is proved.
- WeightPage.CalculateWeightStats: states the average only as the rounded mean of the entries. The model proves the mean lies between the extremes, give or take 0.05.
- Functions.CalculateBmi, Functions.ConvertWeight, Functions.ConvertHeight and ExercisePage.EstimateCalories: the products with the BMI factor, the conversion factors and the intensity multipliers are computed on exact reals. Only signs and the unchanged cases are stated.
- ExercisePage.CalculateExerciseStats: the averages (duration, calories, calories per minute) and the weekly goal progress are computed on exact reals; only the bound of 100 on the progress is stated about them.
- Php.HtmlSpecialChars: PHP returns an empty string for input that is not valid UTF-8. Strings here are sequences of Unicode scalars, so that case cannot arise in the model.
- Functions.IsAjaxRequest: case is ignored for ASCII letters only, where PHP's `strtolower` may depend on the locale.
- `json_encode`/`json_decode` are not modelled: a file holds a document, holds nothing readable, or is absent.
- `password_hash`/`password_verify`, `filter_var`, `random_bytes` and `hash_equals` are parameters. `hash_equals` is equality, without its timing behaviour.
- The real filesystem is not modelled: directories, `LOCK_EX` locking, races between requests and partial writes. Only the outcome of a write, success or failure, is a parameter.
- `logActivity` and error logging are left out; they write only to the log.
- Page output is left out: HTML, JavaScript and headers, `sendJsonResponse`/`exit`, redirects, flash messages, and the quick-add redirect of the pages.
- The page glue at `weight.php:104-115` and `exercise.php:130-140` only loads data and passes it on, so it is not modelled.
- These are outside the core: `index.php`, `logout.php`, `api/login.php`, `requireLogin`, `redirect`, `isMobile`, `getCurrentUser` and `formatDate`.
- Concurrency is not modelled: sessions of two requests at once, and PHP's own session handling beyond the `$_SESSION` variables and the session cookie.

## Findings

| source | as written | input that shows it | evidently intended | confidence | as-written member | corrected member |
|---|---|---|---|---|---|---|
| exercise.php:246 | the current streak grows while the next older date is at most `streak + 1` days before the date reached so far, so days without exercise are skipped | entries on today, two days ago and five days ago give a streak of 3 | a streak counts consecutive days only, each date exactly one day before the previous one, giving 1 here | not executed | ExercisePage.CalculateCurrentStreakAsWritten | ExercisePage.CalculateCurrentStreak |

`ExercisePage.StreakAsWrittenSkipsGaps` proves the counterexample for the code as written.
`ExercisePage.CalculateExerciseStats` uses the corrected streak.
