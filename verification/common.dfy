/**
 * Values shared by every service of the habit tracker: optional values (Java's
 * `null` / `Optional`), service outcomes (a value or the exception the service
 * throws), the exception kinds the services raise, and the text helpers the
 * services and the browser scripts rely on (Java and JavaScript trimming, Java's
 * `StringUtils.hasText`, UTF-16 lengths, decimal rendering of ids).
 */
module Common {

  datatype Option<+T> = None | Some(value: T)

  /** The outcome of a service call: its value, or the exception it throws. */
  datatype Result<+T> = Ok(value: T) | Err(error: Exception)

  /** The unit value of services declared `void`. */
  datatype Unit = Unit

  /**
   * The exceptions the modelled services can raise.  The first five are the
   * application's own exception classes; the others come from libraries the
   * services call (Spring Security, Spring Data / the JPA provider, the JDK).
   */
  datatype Exception =
    | BadRequest(message: string)        // BadRequestException
    | ResourceNotFound(message: string)  // ResourceNotFoundException
    | UserNotFound(userId: int)          // UserNotFoundException(Long userId)
    | Unauthorized(message: string)      // UnauthorizedException
    | Conflict(message: string)          // ConflictException
    | BadCredentials                     // the authenticator rejected the credentials
    | NonUniqueResult                    // an Optional-returning finder matched two or more rows
    | DataIntegrityViolation             // a save broke a unique or not-null column
    | IllegalArgument(message: string)   // java.lang.IllegalArgumentException
    | NullPointer                        // java.lang.NullPointerException

  /** `getMessage()` of each exception kind. */
  function Message(e: Exception): (m: string)
    ensures e.UserNotFound? ==> m == "Usuario con ID " + IntToString(e.userId) + " no encontrado."
  {
    match e
    case BadRequest(msg) => msg
    case ResourceNotFound(msg) => msg
    case UserNotFound(id) => "Usuario con ID " + IntToString(id) + " no encontrado."
    case Unauthorized(msg) => msg
    case Conflict(msg) => msg
    case BadCredentials => "Bad credentials"
    case NonUniqueResult => "query did not return a unique result"
    case DataIntegrityViolation => "could not execute statement"
    case IllegalArgument(msg) => msg
    case NullPointer => "null"
  }

  // ---------------------------------------------------------------------------
  // Decimal rendering (Java string concatenation of a long)

  function DigitChar(d: nat): (c: char)
    requires d < 10
    ensures '0' <= c <= '9'
  {
    ['0', '1', '2', '3', '4', '5', '6', '7', '8', '9'][d]
  }

  function NatToString(n: nat): (s: string)
    ensures |s| >= 1
    ensures forall k :: 0 <= k < |s| ==> '0' <= s[k] <= '9'
    ensures n < 10 <==> |s| == 1
  {
    if n < 10 then [DigitChar(n)] else NatToString(n / 10) + [DigitChar(n % 10)]
  }

  function IntToString(i: int): (s: string)
    ensures |s| >= 1
    ensures i < 0 <==> s[0] == '-'
  {
    if i < 0 then "-" + NatToString(-i) else NatToString(i)
  }

  // ---------------------------------------------------------------------------
  // Whitespace classes

  /** The characters Java's `String.trim()` removes: every code point up to U+0020. */
  predicate IsJavaTrimSpace(c: char) {
    c as int <= 0x20
  }

  /**
   * `Character.isWhitespace`: the space separators except the no-break ones
   * (U+00A0, U+2007, U+202F), the line and paragraph separators, and the
   * controls U+0009..U+000D and U+001C..U+001F.
   */
  predicate IsJavaWhitespace(c: char) {
    var k := c as int;
    (0x09 <= k <= 0x0D) || (0x1C <= k <= 0x20) || k == 0x1680 ||
    (0x2000 <= k <= 0x200A && k != 0x2007) || k == 0x2028 || k == 0x2029 ||
    k == 0x205F || k == 0x3000
  }

  /** The WhiteSpace and LineTerminator characters JavaScript's `String.prototype.trim` removes. */
  predicate IsJsWhitespace(c: char) {
    var k := c as int;
    (0x09 <= k <= 0x0D) || k == 0x20 || k == 0xA0 || k == 0x1680 ||
    (0x2000 <= k <= 0x200A) || k == 0x2028 || k == 0x2029 || k == 0x202F ||
    k == 0x205F || k == 0x3000 || k == 0xFEFF
  }

  // ---------------------------------------------------------------------------
  // Trimming

  /** `s` without its leading characters of class `space`. */
  function DropLeading(s: string, space: char -> bool): (r: string)
    ensures |r| <= |s| && r == s[|s| - |r|..]
    ensures r == [] || !space(r[0])
    ensures forall k :: 0 <= k < |s| - |r| ==> space(s[k])
  {
    if s == [] || !space(s[0]) then s else DropLeading(s[1..], space)
  }

  /** `s` without its trailing characters of class `space`. */
  function DropTrailing(s: string, space: char -> bool): (r: string)
    ensures |r| <= |s| && r == s[..|r|]
    ensures r == [] || !space(r[|r| - 1])
    ensures forall k :: |r| <= k < |s| ==> space(s[k])
  {
    if s == [] || !space(s[|s| - 1]) then s else DropTrailing(s[..|s| - 1], space)
  }

  /** Java's `String.trim()`. */
  function JavaTrim(s: string): (r: string)
    ensures r == [] || (!IsJavaTrimSpace(r[0]) && !IsJavaTrimSpace(r[|r| - 1]))
    ensures |r| <= |s|
  {
    DropTrailing(DropLeading(s, IsJavaTrimSpace), IsJavaTrimSpace)
  }

  /** JavaScript's `String.prototype.trim()`. */
  function JsTrim(s: string): (r: string)
    ensures r == [] || (!IsJsWhitespace(r[0]) && !IsJsWhitespace(r[|r| - 1]))
    ensures |r| <= |s|
  {
    DropTrailing(DropLeading(s, IsJsWhitespace), IsJsWhitespace)
  }

  /** A trimmed string is empty exactly when every character is of the trimmed class. */
  lemma {:induction false} TrimEmptyIffAllSpace(s: string, space: char -> bool)
    ensures DropTrailing(DropLeading(s, space), space) == [] <==> forall k :: 0 <= k < |s| ==> space(s[k])
  {
    var l := DropLeading(s, space);
    if l != [] {
      assert !space(l[0]) && l[0] == s[|s| - |l|];
      var r := DropTrailing(l, space);
      assert |r| >= 1 by {
        assert 0 <= 0 < |l| && !space(l[0]);
      }
    }
  }

  /** Spring's `StringUtils.hasText`: not null and holding a non-whitespace character. */
  predicate HasText(s: Option<string>) {
    s.Some? && exists k :: 0 <= k < |s.value| && !IsJavaWhitespace(s.value[k])
  }

  // ---------------------------------------------------------------------------
  // Lengths and prefixes

  /** JavaScript's `length`: UTF-16 code units, two for a character outside the BMP. */
  function Utf16Length(s: string): (n: nat)
    ensures |s| <= n <= 2 * |s|
  {
    if s == [] then 0 else (if s[0] as int >= 0x10000 then 2 else 1) + Utf16Length(s[1..])
  }

  predicate IsPrefix(p: string, s: string) {
    |p| <= |s| && s[..|p|] == p
  }

  predicate IsSuffix(p: string, s: string) {
    |p| <= |s| && s[|s| - |p|..] == p
  }

  // ---------------------------------------------------------------------------
  // Searching and filtering sequences (Java streams, JavaScript array methods)

  /** The index of the first element satisfying `p` (`findIndex`, `findFirst`). */
  function FirstIndex<T>(s: seq<T>, p: T -> bool): (r: Option<nat>)
    ensures r.None? <==> forall k :: 0 <= k < |s| ==> !p(s[k])
    ensures r.Some? ==> r.value < |s| && p(s[r.value]) && forall k :: 0 <= k < r.value ==> !p(s[k])
  {
    if s == [] then None
    else if p(s[0]) then Some(0)
    else match FirstIndex(s[1..], p)
      case None => None
      case Some(i) => Some(i + 1)
  }

  /** The first element satisfying `p` (`find`, `findFirst`). */
  function FindFirst<T>(s: seq<T>, p: T -> bool): (r: Option<T>)
    ensures r.None? <==> forall k :: 0 <= k < |s| ==> !p(s[k])
    ensures r.Some? ==> r.value in s && p(r.value)
    ensures r.Some? ==> exists k :: 0 <= k < |s| && s[k] == r.value && forall j :: 0 <= j < k ==> !p(s[j])
  {
    match FirstIndex(s, p)
    case None => None
    case Some(i) => Some(s[i])
  }

  /** The elements satisfying `p`, in order (`filter`). */
  function Filter<T(!new)>(s: seq<T>, p: T -> bool): (r: seq<T>)
    ensures |r| <= |s|
    ensures forall x :: x in r <==> x in s && p(x)
  {
    if s == [] then [] else (if p(s[0]) then [s[0]] else []) + Filter(s[1..], p)
  }

  /** How many elements satisfy `p` (`filter(...).count()`). */
  function Count<T>(s: seq<T>, p: T -> bool): (n: nat)
    ensures n <= |s|
    ensures n == 0 <==> forall k :: 0 <= k < |s| ==> !p(s[k])
  {
    if s == [] then 0 else (if p(s[0]) then 1 else 0) + Count(s[1..], p)
  }

  lemma {:induction false} CountAppend<T>(a: seq<T>, b: seq<T>, p: T -> bool)
    ensures Count(a + b, p) == Count(a, p) + Count(b, p)
  {
    if a == [] {
      assert a + b == b;
    } else {
      assert (a + b)[1..] == a[1..] + b;
      CountAppend(a[1..], b, p);
    }
  }

  /** Concatenation regroups freely; stated apart so that large contexts need not rediscover it. */
  lemma AppendAssoc<T>(a: seq<T>, b: seq<T>, c: seq<T>)
    ensures a + (b + c) == (a + b) + c
  {
  }

  /** A prefix one element longer is the prefix followed by that element. */
  lemma PrefixSnoc<T>(s: seq<T>, i: nat)
    requires i < |s|
    ensures s[..i + 1] == s[..i] + [s[i]]
  {
  }

  /** Filtering by a predicate every element meets changes nothing. */
  lemma {:induction false} FilterTodos<T(!new)>(s: seq<T>, p: T -> bool)
    requires forall k :: 0 <= k < |s| ==> p(s[k])
    ensures Filter(s, p) == s
  {
    if s != [] {
      FilterTodos(s[1..], p);
      assert s == [s[0]] + s[1..];
    }
  }

  lemma {:induction false} FilterLength<T(!new)>(s: seq<T>, p: T -> bool)
    ensures |Filter(s, p)| == Count(s, p)
  {
    if s != [] {
      FilterLength(s[1..], p);
    }
  }
}
