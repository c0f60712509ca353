/**
 * The two pieces of Python string behaviour the application relies on:
 * the truthiness of a string (`s or fallback`, `s if s else fallback`) and
 * `str.strip()` with no arguments, which removes leading and trailing
 * whitespace as `str.isspace` defines it.
 */
module Text {

  /** `s or fallback`: an empty string is falsy in Python, every other string is truthy. */
  function OrElse(s: string, fallback: string): (r: string)
    ensures s == [] ==> r == fallback
    ensures s != [] ==> r == s
  {
    if s == [] then fallback else s
  }

  /** The code points for which Python's `str.isspace` holds. */
  predicate IsSpace(c: char)
    ensures c == ' ' || c == '\t' || c == '\n' || c == '\r' ==> IsSpace(c)
    ensures ('0' <= c <= '9') || ('a' <= c <= 'z') || ('A' <= c <= 'Z') ==> !IsSpace(c)
  {
    var n := c as int;
    (9 <= n <= 13) || (28 <= n <= 32) || n == 0x85 || n == 0xA0 || n == 0x1680 ||
    (0x2000 <= n <= 0x200A) || n == 0x2028 || n == 0x2029 || n == 0x202F ||
    n == 0x205F || n == 0x3000
  }

  /** Every character of `s` is whitespace (vacuously so for the empty string). */
  ghost predicate Blank(s: string) {
    forall i :: 0 <= i < |s| ==> IsSpace(s[i])
  }

  /** The number of whitespace characters `s` starts with. */
  function LeadingSpaces(s: string): (n: nat)
    ensures n <= |s|
    ensures forall i :: 0 <= i < n ==> IsSpace(s[i])
    ensures n < |s| ==> !IsSpace(s[n])
  {
    if s != [] && IsSpace(s[0]) then 1 + LeadingSpaces(s[1..]) else 0
  }

  /** The length of `s` without its trailing whitespace. */
  function TrailingStart(s: string): (m: nat)
    ensures m <= |s|
    ensures forall i :: m <= i < |s| ==> IsSpace(s[i])
    ensures 0 < m ==> !IsSpace(s[m - 1])
  {
    if s != [] && IsSpace(s[|s| - 1]) then TrailingStart(s[..|s| - 1]) else |s|
  }

  /**
   * Python's `s.strip()`: empty when `s` is blank, and otherwise the slice from
   * the first to the last non-whitespace character.
   */
  function Strip(s: string): (r: string)
    ensures |r| <= |s|
    ensures r != [] ==> !IsSpace(r[0]) && !IsSpace(r[|r| - 1])
  {
    var start, end := LeadingSpaces(s), TrailingStart(s);
    if start < end then s[start..end] else []
  }

  /**
   * `s.strip()` is falsy exactly when `s` is empty or consists only of
   * whitespace: the test the feedback form applies to its text.
   */
  lemma StripEmptyIffBlank(s: string)
    ensures Strip(s) == [] <==> Blank(s)
  {
    var start := LeadingSpaces(s);
    if start < |s| {
      assert !IsSpace(s[start]);
    }
  }

  /**
   * What `strip` keeps starts and ends with non-whitespace, and everything it
   * cuts off on either side is whitespace.
   */
  lemma StripIsTrimmedSlice(s: string)
    requires !Blank(s)
    ensures var start, end := LeadingSpaces(s), TrailingStart(s);
      && start < end && Strip(s) == s[start..end]
      && !IsSpace(s[start]) && !IsSpace(s[end - 1])
      && (forall i :: 0 <= i < start ==> IsSpace(s[i]))
      && (forall i :: end <= i < |s| ==> IsSpace(s[i]))
  {
    StripEmptyIffBlank(s);
  }
}
