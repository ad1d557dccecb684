/** The .NET string tests the core relies on: `char.IsWhiteSpace`,
    `string.IsNullOrWhiteSpace` and `string.IsNullOrEmpty`. A nullable string
    is an `Option<string>`. */
module Text {
  import opened Common

  /** `char.IsWhiteSpace`: the Unicode space, line and paragraph separators,
      the control characters U+0009 to U+000D, and U+0085. */
  predicate IsWhiteSpace(c: char)
    // no ASCII letter, digit or '+' is white space; tab, line feed, carriage
    // return and space are
    ensures IsWhiteSpace(c) ==> !('0' <= c <= '9' || 'A' <= c <= 'Z' || 'a' <= c <= 'z' || c == '+')
    ensures c == ' ' || c == '\t' || c == '\n' || c == '\r' ==> IsWhiteSpace(c)
  {
    || ('\U{0009}' <= c <= '\U{000D}')
    || c == '\U{0020}'
    || c == '\U{0085}'
    || c == '\U{00A0}'
    || c == '\U{1680}'
    || ('\U{2000}' <= c <= '\U{200A}')
    || c == '\U{2028}'
    || c == '\U{2029}'
    || c == '\U{202F}'
    || c == '\U{205F}'
    || c == '\U{3000}'
  }

  /** Every character of `s` is white space (true of the empty string). */
  predicate AllWhiteSpace(s: string) {
    forall i :: 0 <= i < |s| ==> IsWhiteSpace(s[i])
  }

  /** `string.IsNullOrWhiteSpace`. */
  predicate IsNullOrWhiteSpace(s: Option<string>)
    // a string that is not blank is present and holds a non-space character
    ensures !IsNullOrWhiteSpace(s) ==> s.Some? && exists i :: 0 <= i < |s.value| && !IsWhiteSpace(s.value[i])
    ensures s.Some? && |s.value| > 0 && !IsWhiteSpace(s.value[0]) ==> !IsNullOrWhiteSpace(s)
  {
    s.None? || AllWhiteSpace(s.value)
  }

  /** `string.IsNullOrEmpty`. */
  predicate IsNullOrEmpty(s: Option<string>)
    // the empty test is the narrower one: " " is white space but not empty
    ensures IsNullOrEmpty(s) ==> IsNullOrWhiteSpace(s)
    ensures s == Some(" ") ==> !IsNullOrEmpty(s) && IsNullOrWhiteSpace(s)
  {
    s.None? || s.value == ""
  }
}
