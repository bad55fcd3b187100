/** The request validators of `src/lib/schemas.ts`, as predicates on strings. */
module Schemas {
  import opened Text

  /** `/[A-Z]/`, `/[a-z]/`, `/\d/` and `/[@$!%*?&#]/`: some character of the class occurs. */
  predicate IsUpper(c: char) { 'A' <= c <= 'Z' }
  predicate IsLower(c: char) { 'a' <= c <= 'z' }
  predicate IsDigit(c: char) { '0' <= c <= '9' }
  predicate IsSpecial(c: char) {
    c == '@' || c == '$' || c == '!' || c == '%' || c == '*' || c == '?' || c == '&' || c == '#'
  }

  predicate HasUpper(s: string) { exists i | 0 <= i < |s| :: IsUpper(s[i]) }
  predicate HasLower(s: string) { exists i | 0 <= i < |s| :: IsLower(s[i]) }
  predicate HasDigit(s: string) { exists i | 0 <= i < |s| :: IsDigit(s[i]) }
  predicate HasSpecial(s: string) { exists i | 0 <= i < |s| :: IsSpecial(s[i]) }

  const MinPasswordLength := 8
  const MaxPasswordLength := 128

  const TooShort := "Password must be at least 8 characters long"
  const NoUpper := "Password must contain at least one uppercase letter"
  const NoLower := "Password must contain at least one lowercase letter"
  const NoDigit := "Password must contain at least one number"
  const NoSpecial := "Password must contain at least one special character (@, $, !, %, *, ?, &, #)"
  const TooLong := "Password must be at most 128 characters long"
  const HasSpace := "Password must not contain spaces"
  const HasWord := "Password must not contain the word 'password'"

  /** The messages of the checks of `passwordSchema` that fail on `p`, in the order
      of the chain. */
  function PasswordIssues(p: string): seq<string> {
    (if Utf16Length(p) < MinPasswordLength then [TooShort] else [])
    + (if !HasUpper(p) then [NoUpper] else [])
    + (if !HasLower(p) then [NoLower] else [])
    + (if !HasDigit(p) then [NoDigit] else [])
    + (if !HasSpecial(p) then [NoSpecial] else [])
    + (if Utf16Length(p) > MaxPasswordLength then [TooLong] else [])
    + (if Contains(p, " ") then [HasSpace] else [])
    + (if Contains(p, "password") then [HasWord] else [])
  }

  /** `passwordSchema` accepts `p`: no check reports an issue. */
  predicate PasswordAccepted(p: string) {
    PasswordIssues(p) == []
  }

  /** What acceptance means, rule by rule. */
  lemma PasswordAcceptedIff(p: string)
    ensures PasswordAccepted(p) <==>
      && MinPasswordLength <= Utf16Length(p) <= MaxPasswordLength
      && HasUpper(p) && HasLower(p) && HasDigit(p) && HasSpecial(p)
      && ' ' !in p
      && !Contains(p, "password")
  {
    ContainsChar(p, ' ');
  }

  /** The character and substring checks pass on the upper-case spelling of the word. */
  lemma UpperCaseWordChecks()
    ensures var p := "aPASSWORD1!";
      && HasUpper(p) && HasLower(p) && HasDigit(p) && HasSpecial(p)
      && ' ' !in p && !Contains(p, "password")
  {
    var p := "aPASSWORD1!";
    assert IsLower(p[0]) && IsUpper(p[1]) && IsDigit(p[9]) && IsSpecial(p[10]);
    NotContainsWithoutFirst(p, "password");
  }

  /** The lower-case spelling of the word is refused. */
  lemma LowerCaseWordRejected()
    ensures !PasswordAccepted("Apassword1!")
  {
    var lower := "Apassword1!";
    assert lower[1..9] == "password" by {
      assert lower == "A" + "password" + "1!";
    }
    assert OccursAt(lower, "password", 1);
    PasswordAcceptedIff(lower);
  }

  /** The word check is case-sensitive: only the lower-case spelling is refused. */
  lemma PasswordWordCheckIsCaseSensitive()
    ensures PasswordAccepted("aPASSWORD1!")
    ensures !PasswordAccepted("Apassword1!")
  {
    UpperCaseWordChecks();
    PasswordAcceptedIff("aPASSWORD1!");
    LowerCaseWordRejected();
  }

  /** Lengths are counted in UTF-16 code units: two emoji and four ASCII characters
      make a password of length 8 that passes every check. */
  lemma PasswordLengthCountsCodeUnits()
    ensures |"Ab1!\U{1F600}\U{1F600}"| == 6
    ensures Utf16Length("Ab1!\U{1F600}\U{1F600}") == 8
    ensures PasswordAccepted("Ab1!\U{1F600}\U{1F600}")
  {
    var p := "Ab1!\U{1F600}\U{1F600}";
    assert IsUpper(p[0]) && IsLower(p[1]) && IsDigit(p[2]) && IsSpecial(p[3]);
    ContainsChar(p, ' ');
    NotContainsWithoutFirst(p, "password");
  }

  /** `tokenSchema`: `min(1)`. */
  predicate TokenAccepted(t: string) {
    |t| >= 1
  }

  lemma TokenAcceptedIffNonEmpty(t: string)
    ensures TokenAccepted(t) <==> t != ""
  {
  }
}
