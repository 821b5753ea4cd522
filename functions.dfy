/**
 * includes/functions.php: id and token generation, input sanitising, password strength,
 * the API response shape, BMI and unit conversion, and the AJAX and CSRF checks.
 *
 * random_bytes() output and time() are parameters; filter_var email validation is a
 * predicate supplied by the caller.
 */
module Functions {
  import opened Wrappers
  import opened Php
  import Config

  // ---------------------------------------------------------------- ids and random strings

  /** generateRandomString($length): bin2hex of length/2 random bytes, given as `bytes`. */
  function GenerateRandomString(length: nat, bytes: seq<Byte>): (r: string)
    requires |bytes| == length / 2
    ensures |r| == length - length % 2
    ensures forall k :: 0 <= k < |r| ==> IsHexDigit(r[k])
  {
    Bin2Hex(bytes)
  }

  /** The characters generated ids are made of. */
  predicate IsIdChar(c: char) {
    'a' <= c <= 'z' || '0' <= c <= '9' || c == '_'
  }

  predicate IsIdString(s: string) {
    forall k :: 0 <= k < |s| ==> IsIdChar(s[k])
  }

  lemma IdConcat(a: string, b: string)
    requires IsIdString(a) && IsIdString(b)
    ensures IsIdString(a + b)
  {
    assert forall k :: 0 <= k < |a + b| ==> (a + b)[k] == if k < |a| then a[k] else b[k - |a|];
  }

  /** The id `prefix` + time() + "_" + a random hex string of `width` characters. */
  function TimedId(prefix: string, now: nat, width: nat, bytes: seq<Byte>): (r: string)
    requires |bytes| == width / 2
    requires IsIdString(prefix)
    ensures |r| > |prefix| && r[..|prefix|] == prefix
    ensures IsIdString(r)
  {
    var stamp := NatToString(now);
    var random := GenerateRandomString(width, bytes);
    IdConcat(prefix, stamp);
    IdConcat(prefix + stamp, "_");
    IdConcat(prefix + stamp + "_", random);
    prefix + stamp + "_" + random
  }

  /** generateUserId(): "user_" + time() + "_" + 8 hex digits. */
  function GenerateUserId(now: nat, bytes: seq<Byte>): (r: string)
    requires |bytes| == 4
    ensures |r| > 5 && r[..5] == "user_"
    ensures IsIdString(r)
  {
    TimedId("user_", now, 8, bytes)
  }

  /** generateSessionId(): "sess_" + time() + "_" + 16 hex digits. */
  function GenerateSessionId(now: nat, bytes: seq<Byte>): (r: string)
    requires |bytes| == 8
    ensures |r| > 5 && r[..5] == "sess_"
    ensures IsIdString(r)
  {
    TimedId("sess_", now, 16, bytes)
  }

  // ---------------------------------------------------------------- sanitizeInput()

  /** sanitizeInput() on a string: trim, then stripslashes, then htmlspecialchars with ENT_QUOTES. */
  function SanitizeString(s: string): (r: string)
    ensures NoMarkup(r)
  {
    HtmlSpecialChars(StripSlashes(Trim(s)))
  }

  /** A decoded request value. Array keys are kept as strings. */
  datatype Input =
    | Str(s: string)
    | Arr(items: seq<Item>)
    | Int(i: int)
    | Float(x: real)
    | Bool(b: bool)
    | Null

  /** One key => value pair of an array. */
  datatype Item = Item(key: string, value: Input)

  /** Every string inside the value, at any depth, is free of < > " and '. */
  predicate Clean(v: Input)
    decreases v, 1
  {
    match v
    case Str(s) => NoMarkup(s)
    case Arr(items) => CleanItems(items)
    case _ => true
  }

  predicate CleanItems(items: seq<Item>)
    decreases items, 0
  {
    forall k :: 0 <= k < |items| ==> Clean(items[k].value)
  }

  /** The same array keys, in the same order. */
  predicate SameKeys(a: seq<Item>, b: seq<Item>) {
    |a| == |b| && forall k :: 0 <= k < |a| ==> a[k].key == b[k].key
  }

  /**
   * sanitizeInput(): strings are sanitised, arrays are mapped element by element keeping
   * their keys (array_map), and every other value is returned unchanged.
   */
  function Sanitize(v: Input): (r: Input)
    ensures Clean(r)
    ensures v.Str? ==> r == Str(SanitizeString(v.s))
    ensures v.Arr? ==> r.Arr? && SameKeys(v.items, r.items)
    ensures v.Arr? ==> forall k :: 0 <= k < |v.items| ==> r.items[k].value == Sanitize(v.items[k].value)
    ensures !v.Str? && !v.Arr? ==> r == v
    decreases v, 1
  {
    match v
    case Str(s) => Str(SanitizeString(s))
    case Arr(items) => Arr(SanitizeItems(items))
    case _ => v
  }

  function SanitizeItems(items: seq<Item>): (r: seq<Item>)
    ensures SameKeys(items, r)
    ensures CleanItems(r)
    ensures forall k :: 0 <= k < |items| ==> r[k].value == Sanitize(items[k].value)
    decreases items, 0
  {
    if items == [] then []
    else [Item(items[0].key, Sanitize(items[0].value))] + SanitizeItems(items[1..])
  }

  // ---------------------------------------------------------------- validatePassword()

  predicate HasUpper(s: string) { exists k :: 0 <= k < |s| && 'A' <= s[k] <= 'Z' }
  predicate HasLower(s: string) { exists k :: 0 <= k < |s| && 'a' <= s[k] <= 'z' }
  predicate HasDigit(s: string) { exists k :: 0 <= k < |s| && '0' <= s[k] <= '9' }

  const TooShortMessage: string := "Password must be at least " + NatToString(Config.PasswordMinLength) + " characters long"
  const NoUpperMessage: string := "Password must contain at least one uppercase letter"
  const NoLowerMessage: string := "Password must contain at least one lowercase letter"
  const NoDigitMessage: string := "Password must contain at least one number"
  const ValidPasswordMessage: string := "Password is valid"

  datatype PasswordCheck = PasswordCheck(valid: bool, message: string)

  predicate StrongPassword(p: string) {
    StrLen(p) >= Config.PasswordMinLength && HasUpper(p) && HasLower(p) && HasDigit(p)
  }

  /**
   * validatePassword(): the length (in bytes) is checked first, then an upper-case letter, a
   * lower-case letter and a digit; the first failing check names the result.
   */
  function ValidatePassword(p: string): (r: PasswordCheck)
    ensures r.valid <==> StrongPassword(p)
    ensures r.valid <==> r.message == ValidPasswordMessage
    ensures StrLen(p) < Config.PasswordMinLength ==> r.message == TooShortMessage
    ensures StrLen(p) >= Config.PasswordMinLength && !HasUpper(p) ==> r.message == NoUpperMessage
    ensures StrLen(p) >= Config.PasswordMinLength && HasUpper(p) && !HasLower(p) ==> r.message == NoLowerMessage
    ensures StrLen(p) >= Config.PasswordMinLength && HasUpper(p) && HasLower(p) && !HasDigit(p) ==> r.message == NoDigitMessage
  {
    if StrLen(p) < Config.PasswordMinLength then PasswordCheck(false, TooShortMessage)
    else if !HasUpper(p) then PasswordCheck(false, NoUpperMessage)
    else if !HasLower(p) then PasswordCheck(false, NoLowerMessage)
    else if !HasDigit(p) then PasswordCheck(false, NoDigitMessage)
    else PasswordCheck(true, ValidPasswordMessage)
  }

  // ---------------------------------------------------------------- apiResponse()

  /** The array apiResponse() builds; `data` is present only when it was given. */
  datatype Response = Response(success: bool, message: string, timestamp: int, data: Option<map<string, string>>) {
    function Keys(): set<string> {
      {"success", "message", "timestamp"} + if data.Some? then {"data"} else {}
    }
  }

  function ApiResponse(success: bool, message: string, data: Option<map<string, string>>, now: int): (r: Response)
    ensures {"success", "message", "timestamp"} <= r.Keys()
    ensures "data" in r.Keys() <==> data.Some?
    ensures r.success == success && r.message == message && r.data == data
  {
    Response(success, message, now, data)
  }

  // ---------------------------------------------------------------- BMI

  /** calculateBMI(): 0 for a non-positive height, otherwise 703·w/h² rounded to one decimal. */
  function CalculateBmi(weight: real, height: real): (r: real)
    ensures height <= 0.0 ==> r == 0.0
  {
    if height <= 0.0 then 0.0 else Round(weight / (height * height) * 703.0)
  }

  const Underweight: string := "Underweight"
  const NormalWeight: string := "Normal weight"
  const Overweight: string := "Overweight"
  const Obese: string := "Obese"

  /** getBMICategory(): cut points 18.5, 25 and 30, each the lower bound of the next category. */
  function GetBmiCategory(bmi: real): (r: string)
    ensures r == Underweight <==> bmi < 18.5
    ensures r == NormalWeight <==> 18.5 <= bmi < 25.0
    ensures r == Overweight <==> 25.0 <= bmi < 30.0
    ensures r == Obese <==> 30.0 <= bmi
  {
    if bmi < 18.5 then Underweight
    else if bmi < 25.0 then NormalWeight
    else if bmi < 30.0 then Overweight
    else Obese
  }

  /** The position of a category on the scale, 0 for Underweight to 3 for Obese. */
  function CategoryRank(category: string): int {
    if category == Underweight then 0
    else if category == NormalWeight then 1
    else if category == Overweight then 2
    else 3
  }

  /** A larger BMI never falls in a lower category. */
  lemma BmiCategoryMonotone(a: real, b: real)
    requires a <= b
    ensures CategoryRank(GetBmiCategory(a)) <= CategoryRank(GetBmiCategory(b))
  {
  }

  // ---------------------------------------------------------------- unit conversion

  /** convertWeight(): lbs to kg and kg to lbs, rounded to one decimal; anything else unchanged. */
  function ConvertWeight(weight: real, from: string, to: string): (r: real)
    ensures from == to ==> r == weight
    ensures !(from == "lbs" && to == "kg") && !(from == "kg" && to == "lbs") ==> r == weight
    ensures weight >= 0.0 ==> r >= 0.0
  {
    if from == to then weight
    else if from == "lbs" && to == "kg" then Round(weight * 0.453592)
    else if from == "kg" && to == "lbs" then Round(weight * 2.20462)
    else weight
  }

  /** convertHeight(): inches to cm and cm to inches, rounded to one decimal; anything else unchanged. */
  function ConvertHeight(height: real, from: string, to: string): (r: real)
    ensures from == to ==> r == height
    ensures !(from == "inches" && to == "cm") && !(from == "cm" && to == "inches") ==> r == height
    ensures height >= 0.0 ==> r >= 0.0
  {
    if from == to then height
    else if from == "inches" && to == "cm" then Round(height * 2.54)
    else if from == "cm" && to == "inches" then Round(height * 0.393701)
    else height
  }

  // ---------------------------------------------------------------- request checks

  /** isAjaxRequest(): the X-Requested-With header, lower-cased, is "xmlhttprequest". */
  function IsAjaxRequest(requestedWith: Option<string>): (r: bool)
    ensures r <==> requestedWith.Some? && SameIgnoringCase(requestedWith.value, "xmlhttprequest")
  {
    if requestedWith.None? then false
    else
      SameIgnoringCaseLowered(requestedWith.value, "xmlhttprequest");
      LowerCaseFixed("xmlhttprequest");
      ToLower(requestedWith.value) == "xmlhttprequest"
  }

  /** No character of t from index i on is an upper-case letter. */
  predicate NoUpperFrom(t: string, i: nat)
    decreases |t| - i
  {
    i >= |t| || (!('A' <= t[i] <= 'Z') && NoUpperFrom(t, i + 1))
  }

  lemma {:induction false} NoUpperAt(t: string, i: nat)
    requires NoUpperFrom(t, i)
    ensures forall k :: i <= k < |t| ==> !('A' <= t[k] <= 'Z')
    decreases |t| - i
  {
    if i < |t| {
      NoUpperAt(t, i + 1);
    }
  }

  /** strtolower() leaves a string without upper-case letters as it is. */
  lemma LowerCaseFixed(t: string)
    requires NoUpperFrom(t, 0)
    ensures ToLower(t) == t
  {
    NoUpperAt(t, 0);
    assert forall k :: 0 <= k < |t| ==> ToLower(t)[k] == t[k];
  }

  /** Two strings are equal ignoring case exactly when their lower-cased forms are equal. */
  lemma SameIgnoringCaseLowered(a: string, b: string)
    ensures SameIgnoringCase(a, b) <==> ToLower(a) == ToLower(b)
  {
    if SameIgnoringCase(a, b) {
      assert forall k :: 0 <= k < |a| ==> ToLower(a)[k] == ToLower(b)[k];
    }
  }

  /** verifyCSRFToken(): a token is stored and the given one equals it (hash_equals). */
  function VerifyCsrfToken(stored: Option<string>, token: string): (r: bool)
    ensures r <==> stored == Some(token)
  {
    stored.Some? && stored.value == token
  }

  /**
   * generateCSRFToken(): a 32-character token is created only when the session has none, so
   * every later call returns the same token.
   */
  method GenerateCsrfToken(g: Superglobals, bytes: seq<Byte>) returns (token: string)
    requires |bytes| == 16
    modifies g
    ensures old(g.csrfToken).Some? ==> token == old(g.csrfToken).value
    ensures old(g.csrfToken).None? ==> token == GenerateRandomString(32, bytes)
    ensures g.csrfToken == Some(token)
    ensures VerifyCsrfToken(g.csrfToken, token)
    ensures g.userId == old(g.userId) && g.sessionId == old(g.sessionId)
    ensures g.loggedIn == old(g.loggedIn) && g.sessionCookie == old(g.sessionCookie)
  {
    if g.csrfToken.None? {
      g.csrfToken := Some(GenerateRandomString(32, bytes));
    }
    token := g.csrfToken.value;
  }
}
