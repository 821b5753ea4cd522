/**
 * api/register.php: the registration endpoint's chain of guards in front of registerUser().
 * Each guard ends the request with its own message; the first one that fails decides.
 *
 * The request body is the decoded JSON object with string values; a body that does not
 * decode behaves as the empty object (every isset() fails).
 */
module RegisterApi {
  import opened Wrappers
  import opened Records
  import opened Php
  import opened Functions
  import opened DataHandler
  import Auth

  const OnlyPostAllowed: string := "Only POST requests allowed"
  const AjaxOnly: string := "AJAX requests only"
  const TokenMismatch: string := "Security token mismatch"
  const InvalidEmailFormat: string := "Invalid email format"
  const PasswordsDiffer: string := "Passwords do not match"
  const NamesTooShort: string := "First and last names must be at least 2 characters"
  const NamesCharset: string := "Names can only contain letters, spaces, hyphens, apostrophes, and periods"
  const RegisteredMessage: string := "Registration successful! You can now log in with your credentials."

  const RequiredFields: seq<string> := ["email", "password", "confirm_password", "first_name", "last_name"]

  function FieldRequired(field: string): string {
    "Field '" + field + "' is required"
  }

  datatype Request = Request(isPost: bool, requestedWith: Option<string>, input: map<string, string>)

  /** isset($input[$field]) && !empty($input[$field]) */
  predicate Present(input: map<string, string>, field: string) {
    field in input && !IsEmptyString(input[field])
  }

  /** The first field of `fields` that is missing or empty. */
  function MissingField(input: map<string, string>, fields: seq<string>): (r: Option<string>)
    ensures r.None? <==> forall k :: 0 <= k < |fields| ==> Present(input, fields[k])
    ensures r.None? ==> forall f :: f in fields ==> Present(input, f)
    ensures r.Some? ==>
      exists k :: (0 <= k < |fields| && fields[k] == r.value && !Present(input, fields[k])
                   && forall j :: 0 <= j < k ==> Present(input, fields[j]))
  {
    if fields == [] then None
    else if !Present(input, fields[0]) then Some(fields[0])
    else
      var rest := MissingField(input, fields[1..]);
      assert forall k :: 1 <= k < |fields| ==> fields[k] == fields[1..][k - 1];
      rest
  }

  /** Every required field is present and non-empty. */
  predicate RequiredPresent(input: map<string, string>): (b: bool)
    ensures b ==> forall f :: f in RequiredFields ==> Present(input, f)
    ensures b ==>
      ("email" in input && "password" in input && "confirm_password" in input
       && "first_name" in input && "last_name" in input)
  {
    assert RequiredFields[0] == "email" && RequiredFields[1] == "password" && RequiredFields[2] == "confirm_password";
    assert RequiredFields[3] == "first_name" && RequiredFields[4] == "last_name";
    MissingField(input, RequiredFields).None?
  }

  /** A character of the class [a-zA-Z\s\-'.]; \s is space, \t, \n, \v, \f and \r. */
  predicate IsNameChar(c: char) {
    ('a' <= c <= 'z') || ('A' <= c <= 'Z')
    || c == ' ' || c == '\t' || c == '\n' || c == '\U{000B}' || c == '\U{000C}' || c == '\r'
    || c == '-' || c == '\'' || c == '.'
  }

  /** preg_match('/^[a-zA-Z\s\-\'\.]+$/', $name) */
  predicate MatchesNamePattern(name: string) {
    |name| > 0 && forall k :: 0 <= k < |name| ==> IsNameChar(name[k])
  }

  /** The values that reach registerUser(), or the message of the first failing guard. */
  datatype Guard = Pass(email: string, password: string, firstName: string, lastName: string) | Fail(message: string)

  predicate TokenAccepted(input: map<string, string>, storedToken: Option<string>) {
    "csrf_token" in input && VerifyCsrfToken(storedToken, input["csrf_token"])
  }

  /** The request gets past the method, AJAX and required-field guards. */
  predicate ReachesToken(req: Request) {
    req.isPost && IsAjaxRequest(req.requestedWith) && RequiredPresent(req.input)
  }

  /** ... and past the CSRF guard. */
  predicate PassesToken(req: Request, storedToken: Option<string>) {
    ReachesToken(req) && TokenAccepted(req.input, storedToken)
  }

  /** ... and past the email guard. */
  predicate PassesEmail(req: Request, storedToken: Option<string>, validEmail: string -> bool) {
    PassesToken(req, storedToken) && validEmail(SanitizeString(req.input["email"]))
  }

  /** ... and past the confirmation guard. */
  predicate PassesConfirmation(req: Request, storedToken: Option<string>, validEmail: string -> bool) {
    PassesEmail(req, storedToken, validEmail) && req.input["password"] == req.input["confirm_password"]
  }

  /** ... and past the password-strength guard. */
  predicate PassesStrength(req: Request, storedToken: Option<string>, validEmail: string -> bool) {
    PassesConfirmation(req, storedToken, validEmail) && StrongPassword(req.input["password"])
  }

  /** ... and past the name-length guard. */
  predicate PassesNameLength(req: Request, storedToken: Option<string>, validEmail: string -> bool) {
    PassesStrength(req, storedToken, validEmail)
    && StrLen(SanitizeString(req.input["first_name"])) >= 2 && StrLen(SanitizeString(req.input["last_name"])) >= 2
  }

  /** The guards of lines 15-70 in order; `validEmail` is filter_var's email check. */
  function RegisterGuards(req: Request, storedToken: Option<string>, validEmail: string -> bool): (r: Guard)
    ensures !req.isPost ==> r == Fail(OnlyPostAllowed)
    ensures req.isPost && !IsAjaxRequest(req.requestedWith) ==> r == Fail(AjaxOnly)
    ensures req.isPost && IsAjaxRequest(req.requestedWith) && MissingField(req.input, RequiredFields).Some? ==>
      r == Fail(FieldRequired(MissingField(req.input, RequiredFields).value))
    ensures r == Fail(TokenMismatch) ==> RequiredPresent(req.input)
    ensures ReachesToken(req) && !TokenAccepted(req.input, storedToken) ==> r == Fail(TokenMismatch)
    ensures PassesToken(req, storedToken) && !validEmail(SanitizeString(req.input["email"])) ==> r == Fail(InvalidEmailFormat)
    ensures PassesEmail(req, storedToken, validEmail) && req.input["password"] != req.input["confirm_password"] ==>
      r == Fail(PasswordsDiffer)
    ensures PassesConfirmation(req, storedToken, validEmail) && !StrongPassword(req.input["password"]) ==>
      r == Fail(ValidatePassword(req.input["password"]).message)
    ensures (PassesStrength(req, storedToken, validEmail)
             && (StrLen(SanitizeString(req.input["first_name"])) < 2 || StrLen(SanitizeString(req.input["last_name"])) < 2)) ==>
      r == Fail(NamesTooShort)
    ensures (PassesNameLength(req, storedToken, validEmail)
             && !(MatchesNamePattern(SanitizeString(req.input["first_name"]))
                  && MatchesNamePattern(SanitizeString(req.input["last_name"])))) ==>
      r == Fail(NamesCharset)
    ensures r.Pass? <==>
      (req.isPost && IsAjaxRequest(req.requestedWith) && RequiredPresent(req.input)
       && TokenAccepted(req.input, storedToken)
       && validEmail(SanitizeString(req.input["email"]))
       && req.input["password"] == req.input["confirm_password"]
       && StrongPassword(req.input["password"])
       && StrLen(SanitizeString(req.input["first_name"])) >= 2 && StrLen(SanitizeString(req.input["last_name"])) >= 2
       && MatchesNamePattern(SanitizeString(req.input["first_name"]))
       && MatchesNamePattern(SanitizeString(req.input["last_name"])))
    ensures r.Pass? ==>
      (r.email == SanitizeString(req.input["email"]) && r.password == req.input["password"]
       && r.firstName == SanitizeString(req.input["first_name"]) && r.lastName == SanitizeString(req.input["last_name"]))
  {
    if !req.isPost then Fail(OnlyPostAllowed)
    else if !IsAjaxRequest(req.requestedWith) then Fail(AjaxOnly)
    else
      var missing := MissingField(req.input, RequiredFields);
      if missing.Some? then Fail(FieldRequired(missing.value))
      else
        assert RequiredPresent(req.input);
        if !TokenAccepted(req.input, storedToken) then Fail(TokenMismatch)
        else
          var email := SanitizeString(req.input["email"]);
          var password := req.input["password"];
          var confirm := req.input["confirm_password"];
          var firstName := SanitizeString(req.input["first_name"]);
          var lastName := SanitizeString(req.input["last_name"]);
          if !validEmail(email) then Fail(InvalidEmailFormat)
          else if password != confirm then Fail(PasswordsDiffer)
          else if !ValidatePassword(password).valid then Fail(ValidatePassword(password).message)
          else if StrLen(firstName) < 2 || StrLen(lastName) < 2 then Fail(NamesTooShort)
          else if !MatchesNamePattern(firstName) || !MatchesNamePattern(lastName) then Fail(NamesCharset)
          else Pass(email, password, firstName, lastName)
  }

  // ---------------------------------------------------------------- apostrophes

  /** trim() keeps every character that is not itself a trim character. */
  lemma TrimKeeps(s: string, k: nat)
    requires k < |s| && !IsTrimChar(s[k])
    ensures s[k] in Trim(s)
  {
    var left := TrimLeft(s);
    var a := |s| - |left|;
    TrimLeftKeeps(s, k);
    TrimRightKeeps(left, k - a);
    assert TrimRight(left)[k - a] == s[k];
  }

  /** ltrim() drops only trim characters: a character that is not one is still there, shifted. */
  lemma TrimLeftKeeps(s: string, k: nat)
    requires k < |s| && !IsTrimChar(s[k])
    ensures |s| - |TrimLeft(s)| <= k
    ensures TrimLeft(s)[k - (|s| - |TrimLeft(s)|)] == s[k]
  {
    var a := |s| - |TrimLeft(s)|;
    assert forall j :: 0 <= j < a ==> s[..a][j] == s[j];
  }

  /** rtrim() drops only trim characters: a character that is not one is still there. */
  lemma TrimRightKeeps(t: string, i: nat)
    requires i < |t| && !IsTrimChar(t[i])
    ensures i < |TrimRight(t)| && TrimRight(t)[i] == t[i]
  {
    var n := |TrimRight(t)|;
    assert forall j :: n <= j < |t| ==> t[n..][j - n] == t[j];
  }

  /** stripslashes() never drops an apostrophe. */
  lemma {:induction false} StripSlashesKeepsQuote(s: string, k: nat)
    requires k < |s| && s[k] == '\''
    ensures '\'' in StripSlashes(s)
    decreases |s|
  {
    if k == 0 {
      assert StripSlashes(s)[0] == '\'';
    } else if s[0] != '\\' {
      StripSlashesKeepsQuote(s[1..], k - 1);
    } else if k == 1 {
      assert StripSlashes(s)[0] == '\'';
    } else {
      StripSlashesKeepsQuote(s[2..], k - 2);
    }
  }

  /** htmlspecialchars() with ENT_QUOTES turns an apostrophe into &#039;, so an ampersand appears. */
  lemma {:induction false} EscapedQuoteLeavesAmpersand(s: string)
    requires '\'' in s
    ensures '&' in HtmlSpecialChars(s)
  {
    var head, tail := EscapeChar(s[0]), HtmlSpecialChars(s[1..]);
    assert HtmlSpecialChars(s) == head + tail;
    if s[0] == '\'' {
      assert (head + tail)[0] == '&';
    } else {
      EscapedQuoteLeavesAmpersand(s[1..]);
      var j :| 0 <= j < |tail| && tail[j] == '&';
      assert (head + tail)[|head| + j] == '&';
    }
  }

  /** A sanitised name always contains an ampersand when the submitted one had an apostrophe. */
  lemma SanitizedQuoteFailsPattern(name: string)
    requires '\'' in name
    ensures !MatchesNamePattern(SanitizeString(name))
  {
    SanitizedQuoteLeavesAmpersand(name);
    var r := SanitizeString(name);
    var m :| 0 <= m < |r| && r[m] == '&';
    assert !IsNameChar(r[m]);
  }

  lemma SanitizedQuoteLeavesAmpersand(name: string)
    requires '\'' in name
    ensures '&' in SanitizeString(name)
  {
    var k :| 0 <= k < |name| && name[k] == '\'';
    TrimKeeps(name, k);
    var t := Trim(name);
    var j :| 0 <= j < |t| && t[j] == '\'';
    StripSlashesKeepsQuote(t, j);
    EscapedQuoteLeavesAmpersand(StripSlashes(t));
  }

  /**
   * The name check runs after sanitizeInput(), which rewrites ' to &#039;: a first or last
   * name with an apostrophe is refused every time, although the message lists apostrophes as
   * allowed.
   */
  lemma ApostropheNameRejected(req: Request, storedToken: Option<string>, validEmail: string -> bool)
    requires ("first_name" in req.input && '\'' in req.input["first_name"])
          || ("last_name" in req.input && '\'' in req.input["last_name"])
    ensures RegisterGuards(req, storedToken, validEmail).Fail?
  {
    if "first_name" in req.input && '\'' in req.input["first_name"] {
      SanitizedQuoteFailsPattern(req.input["first_name"]);
    } else {
      SanitizedQuoteFailsPattern(req.input["last_name"]);
    }
  }

  // ---------------------------------------------------------------- the endpoint

  /** api/register.php: the guards, then registerUser() and the response it maps to. */
  method Register(users: JsonDir<User>, listing: seq<string>, req: Request, storedToken: Option<string>,
                  validEmail: string -> bool, hash: string -> string, now: nat, stamp: string, idBytes: seq<Byte>,
                  diskOk: bool) returns (resp: Response)
    requires |idBytes| == 4
    requires ListsJsonFiles(listing, users.files)
    modifies users
    ensures var guard := RegisterGuards(req, storedToken, validEmail);
      guard.Fail? ==>
        (resp == ApiResponse(false, guard.message, None, now)
         && users.files == old(users.files) && users.backups == old(users.backups))
    ensures var guard := RegisterGuards(req, storedToken, validEmail);
      var userId := GenerateUserId(now, idBytes);
      guard.Pass? ==>
        var err := Auth.RegistrationError(old(users.files), listing, guard.email, guard.password, guard.firstName,
                                          guard.lastName, validEmail);
        && resp == (if err.Some? then ApiResponse(false, err.value, None, now)
                    else if diskOk then ApiResponse(true, Auth.RegistrationSuccessful,
                                                    Some(map["user_id" := userId, "message" := RegisteredMessage]), now)
                    else ApiResponse(false, Auth.RegistrationFailed, None, now))
        && users.files == (if err.None? && diskOk
                           then old(users.files)[UserFile(userId) := Some(Auth.NewUser(userId, guard.email, hash(guard.password),
                                  guard.firstName, guard.lastName, now).(updatedAt := Some(now)))]
                           else old(users.files))
        && users.backups == (if err.Some? then old(users.backups)
                             else BackupsAfterWrite(old(users.backups), old(users.files), UserFile(userId), now, stamp))
  {
    var guard := RegisterGuards(req, storedToken, validEmail);
    if guard.Fail? {
      return ApiResponse(false, guard.message, None, now);
    }
    var result := Auth.RegisterUser(users, listing, guard.email, guard.password, guard.firstName, guard.lastName,
                                    validEmail, hash, now, stamp, idBytes, diskOk);
    if result.success {
      var userId := result.data.value["user_id"];
      resp := ApiResponse(true, Auth.RegistrationSuccessful, Some(map["user_id" := userId, "message" := RegisteredMessage]), now);
    } else {
      resp := ApiResponse(false, result.message, None, now);
    }
  }
}
