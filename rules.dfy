/** The FluentValidation string rules the request validators use: `NotEmpty`,
    `MinimumLength`, and `Matches` with the single-character-class patterns
    `[A-Z]`, `[a-z]`, `[0-9]` and `[^a-zA-Z0-9]` (each matches when some
    character of the string is in the class). */
module Rules {
  import opened Common
  import opened Text

  /** `NotEmpty()` on a string: not null, not empty, not only white space. */
  predicate NotEmpty(s: Option<string>)
    ensures NotEmpty(s) ==> s.Some? && |s.value| > 0 && !IsNullOrEmpty(s)
    ensures NotEmpty(s) <==> s.Some? && exists i :: 0 <= i < |s.value| && !IsWhiteSpace(s.value[i])
  {
    !IsNullOrWhiteSpace(s)
  }

  /** `MinimumLength(n)`, counted in characters. */
  predicate MinimumLength(s: string, n: nat) {
    |s| >= n
  }

  predicate IsAsciiUpper(c: char) { 'A' <= c <= 'Z' }
  predicate IsAsciiLower(c: char) { 'a' <= c <= 'z' }
  predicate IsAsciiDigit(c: char) { '0' <= c <= '9' }
  predicate IsAsciiAlphanumeric(c: char) { IsAsciiUpper(c) || IsAsciiLower(c) || IsAsciiDigit(c) }

  /** `Matches("[A-Z]")`. */
  predicate HasUpper(s: string)
    ensures HasUpper(s) ==> NotEmpty(Some(s))
  {
    exists i :: 0 <= i < |s| && IsAsciiUpper(s[i])
  }
  /** `Matches("[a-z]")`. */
  predicate HasLower(s: string)
    ensures HasLower(s) ==> NotEmpty(Some(s))
  {
    exists i :: 0 <= i < |s| && IsAsciiLower(s[i])
  }
  /** `Matches("[0-9]")`. */
  predicate HasDigit(s: string)
    ensures HasDigit(s) ==> NotEmpty(Some(s))
  {
    exists i :: 0 <= i < |s| && IsAsciiDigit(s[i])
  }
  /** `Matches("[^a-zA-Z0-9]")`. */
  predicate HasSpecial(s: string)
    // letters and digits alone never match; white space does
    ensures (forall i :: 0 <= i < |s| ==> IsAsciiAlphanumeric(s[i])) ==> !HasSpecial(s)
    ensures |s| > 0 && AllWhiteSpace(s) ==> HasSpecial(s)
  {
    assert |s| > 0 && AllWhiteSpace(s) ==> IsWhiteSpace(s[0]);
    exists i :: 0 <= i < |s| && !IsAsciiAlphanumeric(s[i])
  }

  /** A string with a letter or digit in it passes `NotEmpty`. */
  lemma AlphanumericIsNotEmpty(s: string, i: nat)
    requires i < |s| && IsAsciiAlphanumeric(s[i])
    ensures NotEmpty(Some(s))
  {
    assert !IsWhiteSpace(s[i]);
  }
}
