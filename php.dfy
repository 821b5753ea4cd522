/**
 * The pieces of the PHP runtime the application relies on: the string built-ins it calls
 * (trim, strtolower, stripslashes, htmlspecialchars, strlen, bin2hex, empty) and the
 * request-scoped superglobals $_SESSION and $_COOKIE.
 *
 * Strings are sequences of Unicode scalar values; strlen() is modelled as the length of
 * their UTF-8 encoding.
 */
module Php {
  import opened Wrappers

  // ---------------------------------------------------------------- trim()

  /** The characters trim() strips by default: " \t\n\r\0\x0B". */
  predicate IsTrimChar(c: char) {
    c == ' ' || c == '\t' || c == '\n' || c == '\r' || c == '\0' || c == '\U{000B}'
  }

  predicate AllTrimChars(s: string) {
    forall k :: 0 <= k < |s| ==> IsTrimChar(s[k])
  }

  /** ltrim(): the suffix left after dropping every leading trim character. */
  function TrimLeft(s: string): (r: string)
    ensures |r| <= |s| && r == s[|s| - |r|..]
    ensures AllTrimChars(s[..|s| - |r|])
    ensures r == [] || !IsTrimChar(r[0])
  {
    if |s| > 0 && IsTrimChar(s[0]) then
      var r := TrimLeft(s[1..]);
      assert s[..|s| - |r|] == [s[0]] + s[1..][..|s| - 1 - |r|];
      r
    else s
  }

  /** rtrim(): the prefix left after dropping every trailing trim character. */
  function TrimRight(s: string): (r: string)
    ensures |r| <= |s| && r == s[..|r|]
    ensures AllTrimChars(s[|r|..])
    ensures r == [] || !IsTrimChar(r[|r| - 1])
  {
    if |s| > 0 && IsTrimChar(s[|s| - 1]) then
      var r := TrimRight(s[..|s| - 1]);
      assert s[|r|..] == s[..|s| - 1][|r|..] + [s[|s| - 1]];
      r
    else s
  }

  function Trim(s: string): (r: string)
    ensures |r| <= |s|
    ensures r == [] || (!IsTrimChar(r[0]) && !IsTrimChar(r[|r| - 1]))
  {
    TrimRight(TrimLeft(s))
  }

  // ---------------------------------------------------------------- strtolower()

  /** strtolower() maps the ASCII letters A-Z only (PHP 8.2 and later). */
  function LowerChar(c: char): char {
    if 'A' <= c <= 'Z' then (c as int + 32) as char else c
  }

  function UpperChar(c: char): char {
    if 'a' <= c <= 'z' then (c as int - 32) as char else c
  }

  function ToLower(s: string): (r: string)
    ensures |r| == |s|
    ensures forall k :: 0 <= k < |s| ==> r[k] == LowerChar(s[k])
  {
    if s == [] then [] else [LowerChar(s[0])] + ToLower(s[1..])
  }

  function ToUpper(s: string): (r: string)
    ensures |r| == |s|
    ensures forall k :: 0 <= k < |s| ==> r[k] == UpperChar(s[k])
  {
    if s == [] then [] else [UpperChar(s[0])] + ToUpper(s[1..])
  }

  /** Two strings that differ only in the case of ASCII letters. */
  predicate SameIgnoringCase(a: string, b: string) {
    |a| == |b| && forall k :: 0 <= k < |a| ==> LowerChar(a[k]) == LowerChar(b[k])
  }

  // ---------------------------------------------------------------- stripslashes()

  /**
   * stripslashes(): a backslash is dropped and the character after it kept, except that
   * the pair backslash-zero becomes a NUL character; a trailing lone backslash is dropped.
   */
  function StripSlashes(s: string): (r: string)
    ensures |r| <= |s|
    decreases |s|
  {
    if |s| == 0 then ""
    else if s[0] != '\\' then [s[0]] + StripSlashes(s[1..])
    else if |s| == 1 then ""
    else (if s[1] == '0' then "\0" else [s[1]]) + StripSlashes(s[2..])
  }

  // ---------------------------------------------------------------- htmlspecialchars()

  /** The characters that must not survive in HTML output: < > " ' */
  predicate IsMarkupChar(c: char) {
    c == '<' || c == '>' || c == '"' || c == '\''
  }

  /** The characters htmlspecialchars() rewrites under ENT_QUOTES: the markup characters and &. */
  predicate IsEscapedChar(c: char) {
    IsMarkupChar(c) || c == '&'
  }

  predicate NoMarkup(s: string) {
    forall k :: 0 <= k < |s| ==> !IsMarkupChar(s[k])
  }

  /** The entity htmlspecialchars() writes for one character (ENT_QUOTES, HTML 4.01 table). */
  function EscapeChar(c: char): (r: string)
    ensures NoMarkup(r)
    ensures !IsEscapedChar(c) ==> r == [c]
    ensures IsEscapedChar(c) ==> |r| > 1 && r[0] == '&'
  {
    if c == '&' then "&amp;"
    else if c == '"' then "&quot;"
    else if c == '\'' then "&#039;"
    else if c == '<' then "&lt;"
    else if c == '>' then "&gt;"
    else [c]
  }

  /** htmlspecialchars($s, ENT_QUOTES, 'UTF-8') with double encoding. */
  function HtmlSpecialChars(s: string): (r: string)
    ensures NoMarkup(r)
    ensures (forall k :: 0 <= k < |s| ==> !IsEscapedChar(s[k])) ==> r == s
  {
    if s == [] then []
    else
      var head, tail := EscapeChar(s[0]), HtmlSpecialChars(s[1..]);
      assert forall k :: 0 <= k < |head + tail| ==>
        (head + tail)[k] == if k < |head| then head[k] else tail[k - |head|];
      head + tail
  }

  // ---------------------------------------------------------------- empty(), strlen(), bin2hex()

  /** empty() on a string: true for "" and for "0". */
  predicate IsEmptyString(s: string) {
    s == "" || s == "0"
  }

  /** The number of bytes of a character in UTF-8. */
  function Utf8Width(c: char): nat {
    if c as int < 0x80 then 1
    else if c as int < 0x800 then 2
    else if c as int < 0x10000 then 3
    else 4
  }

  /** strlen(): the number of bytes of the string's UTF-8 encoding. */
  function StrLen(s: string): (n: nat)
    ensures n >= |s|
  {
    if s == [] then 0 else Utf8Width(s[0]) + StrLen(s[1..])
  }

  newtype Byte = x: int | 0 <= x < 256

  function HexDigit(n: int): (c: char)
    requires 0 <= n < 16
    ensures IsHexDigit(c)
  {
    if n < 10 then ('0' as int + n) as char else ('a' as int + n - 10) as char
  }

  predicate IsHexDigit(c: char) {
    '0' <= c <= '9' || 'a' <= c <= 'f'
  }

  /** bin2hex(): two lower-case hexadecimal digits per byte, high nibble first. */
  function Bin2Hex(bytes: seq<Byte>): (r: string)
    ensures |r| == 2 * |bytes|
    ensures forall k :: 0 <= k < |r| ==> IsHexDigit(r[k])
  {
    if bytes == [] then ""
    else [HexDigit(bytes[0] as int / 16), HexDigit(bytes[0] as int % 16)] + Bin2Hex(bytes[1..])
  }

  function DigitChar(d: int): char
    requires 0 <= d < 10
  {
    ('0' as int + d) as char
  }

  /** The decimal string PHP writes for a non-negative integer. */
  function NatToString(n: nat): (r: string)
    ensures |r| > 0
    ensures forall k :: 0 <= k < |r| ==> '0' <= r[k] <= '9'
  {
    if n < 10 then [DigitChar(n)] else NatToString(n / 10) + [DigitChar(n % 10)]
  }

  /** empty() on an optional number: null and 0 are empty. */
  predicate EmptyNumber(x: Option<real>) {
    x.None? || x.value == 0.0
  }

  // ---------------------------------------------------------------- abs(), max(), min()

  function Abs(x: int): nat {
    if x < 0 then -x else x
  }

  function MaxInt(a: int, b: int): int {
    if a >= b then a else b
  }

  function MinReal(a: real, b: real): real {
    if a <= b then a else b
  }

  // ---------------------------------------------------------------- round()

  /**
   * round($x, 1), the only precision the application asks for: the nearest multiple of 0.1,
   * halves rounded away from zero. Computed on exact reals; the binary floating-point error
   * PHP pre-rounds away is not modelled.
   */
  function Round(x: real): (r: real)
    ensures x >= 0.0 ==> r >= 0.0
    ensures x <= 0.0 ==> r <= 0.0
    ensures -0.05 <= r - x <= 0.05
  {
    var magnitude := if x >= 0.0 then x else -x;
    var n := HalfUp(magnitude * 10.0);
    if x >= 0.0 then n as real / 10.0 else -(n as real / 10.0)
  }

  /** The integer nearest to y, halves rounded up. */
  function HalfUp(y: real): (n: int)
    ensures n as real <= y + 0.5 < n as real + 1.0
  {
    (y + 0.5).Floor
  }

  /** round($x) with no places, as an integer: the nearest integer, halves away from zero. */
  function RoundInt(x: real): (n: int)
    ensures x - 0.5 <= n as real <= x + 0.5
    ensures x >= 0.0 ==> n >= 0
    ensures x == x.Floor as real ==> n as real == x
  {
    var m := if x >= 0.0 then x else -x;
    var h := HalfUp(m);
    assert x == x.Floor as real ==> h as real == m by {
      if x == x.Floor as real {
        NearestOfIntegral(m, h, if x >= 0.0 then x.Floor else -x.Floor);
      }
    }
    if x >= 0.0 then h else -h
  }

  lemma NearestOfIntegral(y: real, n: int, k: int)
    requires n as real <= y + 0.5 < n as real + 1.0
    requires y == k as real
    ensures n as real == y
  {
    assert n as real <= k as real + 0.5;
    assert n <= k;
    assert k as real < n as real + 0.5;
    assert k <= n;
  }

  // ---------------------------------------------------------------- superglobals

  /** A cookie the response sets: its value and its expiry (Unix time). */
  datatype Cookie = Cookie(value: string, expires: int)

  /**
   * The request-scoped state PHP keeps outside the data files: the keys of $_SESSION the
   * application uses, and the fitgrit_session cookie ($_COOKIE on the way in, setcookie()
   * on the way out; the model keeps the cookie the browser will send next).
   */
  class Superglobals {
    var userId: Option<string>
    var sessionId: Option<string>
    var loggedIn: bool
    var csrfToken: Option<string>
    var sessionCookie: Option<Cookie>

    constructor (cookie: Option<Cookie>)
      ensures userId == None && sessionId == None && !loggedIn && csrfToken == None
      ensures sessionCookie == cookie
    {
      userId, sessionId, loggedIn, csrfToken := None, None, false, None;
      sessionCookie := cookie;
    }

    /** `$_SESSION = []`. The cookie is not part of the session. */
    method ClearSession()
      modifies this
      ensures userId == None && sessionId == None && !loggedIn && csrfToken == None
      ensures sessionCookie == old(sessionCookie)
    {
      userId, sessionId, loggedIn, csrfToken := None, None, false, None;
    }
  }
}
