/**
 * The JavaScript string operations the core relies on: `trim`, `toLowerCase`,
 * `startsWith`, `includes`, `split` on a one-character separator, and `length`,
 * which counts UTF-16 code units.
 */
module Text {

  /** The characters `String.prototype.trim` removes: the ECMAScript WhiteSpace
      and LineTerminator code points (space separators of category Zs included). */
  predicate IsWhitespace(c: char) {
    || c == '\t' || c == '\n' || c == '\U{000B}' || c == '\U{000C}' || c == '\r'
    || c == ' ' || c == '\U{00A0}' || c == '\U{1680}'
    || ('\U{2000}' <= c <= '\U{200A}')
    || c == '\U{2028}' || c == '\U{2029}' || c == '\U{202F}' || c == '\U{205F}'
    || c == '\U{3000}' || c == '\U{FEFF}'
  }

  /** Drops leading whitespace. */
  function TrimStart(s: string): (r: string)
    ensures |r| <= |s| && r == s[|s| - |r|..]
    ensures forall k | 0 <= k < |s| - |r| :: IsWhitespace(s[k])
    ensures r != [] ==> !IsWhitespace(r[0])
    decreases |s|
  {
    if |s| > 0 && IsWhitespace(s[0]) then TrimStart(s[1..]) else s
  }

  /** Drops trailing whitespace. */
  function TrimEnd(s: string): (r: string)
    ensures |r| <= |s| && r == s[..|r|]
    ensures forall k | |r| <= k < |s| :: IsWhitespace(s[k])
    ensures r != [] ==> !IsWhitespace(r[|r| - 1])
    decreases |s|
  {
    if |s| > 0 && IsWhitespace(s[|s| - 1]) then TrimEnd(s[..|s| - 1]) else s
  }

  /** JavaScript's `length`: the number of UTF-16 code units, two for a character
      outside the Basic Multilingual Plane. */
  function Utf16Length(s: string): (n: nat)
    ensures |s| <= n <= 2 * |s|
  {
    if s == [] then 0 else (if s[0] <= '\U{FFFF}' then 1 else 2) + Utf16Length(s[1..])
  }

  /** The two lengths agree exactly on strings inside the Basic Multilingual Plane. */
  lemma {:induction false} Utf16LengthIsLengthIff(s: string)
    ensures Utf16Length(s) == |s| <==> forall k | 0 <= k < |s| :: s[k] <= '\U{FFFF}'
    decreases |s|
  {
    if s != [] {
      Utf16LengthIsLengthIff(s[1..]);
      assert forall k | 1 <= k < |s| :: s[k] == s[1..][k - 1];
    }
  }

  /** Code units of a concatenation add up. */
  lemma {:induction false} Utf16LengthAppend(a: string, b: string)
    ensures Utf16Length(a + b) == Utf16Length(a) + Utf16Length(b)
    decreases |a|
  {
    if a == [] {
      assert a + b == b;
    } else {
      Utf16LengthAppend(a[1..], b);
      assert (a + b)[0] == a[0] && (a + b)[1..] == a[1..] + b;
    }
  }

  /** `s.trim()`. */
  function Trim(s: string): string {
    TrimEnd(TrimStart(s))
  }

  /** `toLowerCase` on one character; only the letters A-Z are lowered in this model. */
  function ToLowerChar(c: char): (d: char)
    ensures IsWhitespace(d) <==> IsWhitespace(c)
    ensures !('A' <= d <= 'Z')
  {
    if 'A' <= c <= 'Z' then (c as int - 'A' as int + 'a' as int) as char else c
  }

  /** `s.toLowerCase()`, character by character. */
  function ToLower(s: string): (r: string)
    ensures |r| == |s|
  {
    if s == [] then [] else [ToLowerChar(s[0])] + ToLower(s[1..])
  }

  /** Lowering works character by character. */
  lemma {:induction false} ToLowerAt(s: string, k: int)
    requires 0 <= k < |s|
    ensures ToLower(s)[k] == ToLowerChar(s[k])
    decreases |s|
  {
    if k > 0 {
      ToLowerAt(s[1..], k - 1);
    }
  }

  /** Lowering a concatenation lowers each part. */
  lemma {:induction false} ToLowerAppend(a: string, b: string)
    ensures ToLower(a + b) == ToLower(a) + ToLower(b)
    decreases |a|
  {
    if a == [] {
      assert a + b == b;
    } else {
      var ab := a + b;
      assert ab[0] == a[0] && ab[1..] == a[1..] + b;
      calc {
        ToLower(ab);
        [ToLowerChar(a[0])] + ToLower(a[1..] + b);
        { ToLowerAppend(a[1..], b); }
        [ToLowerChar(a[0])] + (ToLower(a[1..]) + ToLower(b));
        ([ToLowerChar(a[0])] + ToLower(a[1..])) + ToLower(b);
      }
    }
  }

  /** `s.trim().toLowerCase()`: the form in which the store keeps emails. */
  function Normalize(s: string): string {
    ToLower(Trim(s))
  }

  /** The shape of a normalised email: no whitespace at either end, no upper-case letter. */
  predicate Normalized(s: string) {
    && (s != [] ==> !IsWhitespace(s[0]) && !IsWhitespace(s[|s| - 1]))
    && forall k | 0 <= k < |s| :: !('A' <= s[k] <= 'Z')
  }

  /** A string with no whitespace at either end is its own trim. */
  lemma TrimOfTrimmed(s: string)
    requires s != [] ==> !IsWhitespace(s[0]) && !IsWhitespace(s[|s| - 1])
    ensures Trim(s) == s
  {
  }

  /** Normalize yields exactly the strings of that shape: it produces one, and it
      leaves one as it is (so normalising twice is normalising once). */
  lemma NormalizedIff(s: string)
    ensures Normalized(Normalize(s))
    ensures Normalized(s) <==> Normalize(s) == s
  {
    var t := Trim(s);
    var u := ToLower(t);
    forall k | 0 <= k < |u|
      ensures u[k] == ToLowerChar(t[k])
    {
      ToLowerAt(t, k);
    }
    if Normalized(s) {
      TrimOfTrimmed(s);
      forall k | 0 <= k < |s|
        ensures u[k] == s[k]
      {
      }
    }
  }

  /** `s.startsWith(p)`. */
  predicate StartsWith(s: string, p: string) {
    |p| <= |s| && s[..|p|] == p
  }

  /** `sub` occurs in `s` starting at index `i`. */
  predicate OccursAt(s: string, sub: string, i: int) {
    0 <= i && i + |sub| <= |s| && s[i..i + |sub|] == sub
  }

  /** `s.includes(sub)`. */
  predicate Contains(s: string, sub: string) {
    exists i | 0 <= i <= |s| :: OccursAt(s, sub, i)
  }

  /** Searching for a one-character string is searching for the character. */
  lemma ContainsChar(s: string, c: char)
    ensures Contains(s, [c]) <==> c in s
  {
    if c in s {
      var i :| 0 <= i < |s| && s[i] == c;
      assert OccursAt(s, [c], i);
    }
    if Contains(s, [c]) {
      var i :| 0 <= i <= |s| && OccursAt(s, [c], i);
      assert s[i] == s[i..i + 1][0];
    }
  }

  /** A string cannot contain a pattern whose first character it lacks. */
  lemma NotContainsWithoutFirst(s: string, sub: string)
    requires sub != [] && sub[0] !in s
    ensures !Contains(s, sub)
  {
  }

  /** Pieces joined back with the separator between them. */
  function Join(parts: seq<string>, sep: char): string
    requires |parts| >= 1
  {
    if |parts| == 1 then parts[0] else parts[0] + [sep] + Join(parts[1..], sep)
  }

  /** `s.split(sep)` for a one-character separator: the maximal separator-free pieces,
      left to right, which joined with the separator give `s` back. */
  function Split(s: string, sep: char): (r: seq<string>)
    ensures |r| >= 1
    ensures forall k | 0 <= k < |r| :: sep !in r[k]
    ensures Join(r, sep) == s
    ensures sep in s ==> |r| >= 2
    decreases |s|
  {
    if s == [] then [""]
    else if s[0] == sep then [""] + Split(s[1..], sep)
    else
      var rest := Split(s[1..], sep);
      [[s[0]] + rest[0]] + rest[1..]
  }

  /** The piece of `s` before its first `sep` (all of `s` when there is none). */
  function PieceBefore(s: string, sep: char): (r: string)
    ensures sep !in r
    ensures StartsWith(s, r)
    ensures |r| < |s| ==> s[|r|] == sep
    decreases |s|
  {
    if s == [] || s[0] == sep then "" else [s[0]] + PieceBefore(s[1..], sep)
  }

  /** Splitting a string that begins with the first piece `w` and a separator:
      the second piece is what follows, up to the next separator. */
  lemma {:induction false} SplitSecondPiece(s: string, w: string, sep: char)
    requires sep !in w && StartsWith(s, w + [sep])
    ensures |Split(s, sep)| >= 2
    ensures Split(s, sep)[0] == w
    ensures Split(s, sep)[1] == PieceBefore(s[|w| + 1..], sep)
    decreases |w|
  {
    if w == [] {
      assert s[0] == sep;
      SplitFirstPiece(s[1..], sep);
    } else {
      assert s[0] == w[0];
      assert StartsWith(s[1..], w[1..] + [sep]) by {
        assert s[1..][..|w|] == (w + [sep])[1..];
      }
      SplitSecondPiece(s[1..], w[1..], sep);
      assert s[1..][|w[1..]| + 1..] == s[|w| + 1..];
    }
  }

  /** The first piece of a split is the text before the first separator. */
  lemma {:induction false} SplitFirstPiece(s: string, sep: char)
    ensures Split(s, sep)[0] == PieceBefore(s, sep)
    decreases |s|
  {
    if s != [] && s[0] != sep {
      SplitFirstPiece(s[1..], sep);
    }
  }
}
