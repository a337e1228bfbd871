/**
 * The rules the sign-up, sign-in and password-recovery forms share: the e-mail pattern
 * `\S+@\S+\.\S+` (tested unanchored, so it only asks that some piece of the text looks like
 * an address) and the password length rule.
 */
module Validation {
  import opened Wrappers
  import opened Text

  const MinPasswordLength: nat := 6

  /** No white space in `s[i..j]`. */
  ghost predicate NoSpaceIn(s: string, i: int, j: int)
    requires 0 <= i <= j <= |s|
  {
    forall k :: i <= k < j ==> !IsSpace(s[k])
  }

  /** The pattern matches `s[a..e]`: a non-space run `s[a..b]`, `@` at `b`, a non-space run
      `s[b+1..c]`, `.` at `c`, and a non-space run `s[c+1..e]`, each run non-empty. */
  ghost predicate MatchesAt(s: string, a: int, b: int, c: int, e: int) {
    0 <= a < b && b + 1 < c && c + 1 < e <= |s|
    && s[b] == '@' && s[c] == '.'
    && NoSpaceIn(s, a, b) && NoSpaceIn(s, b + 1, c) && NoSpaceIn(s, c + 1, e)
  }

  /** `/\S+@\S+\.\S+/.test(s)`: the pattern matches somewhere in `s`. A match needs at least
      five characters, among them an `@` and a dot. */
  ghost function EmailPattern(s: string): (m: bool)
    ensures m ==> |s| >= 5 && '@' in s && '.' in s
  {
    MatchShape(s);
    exists a, b, c, e :: MatchesAt(s, a, b, c, e)
  }

  lemma MatchShape(s: string)
    ensures (exists a, b, c, e :: MatchesAt(s, a, b, c, e)) ==> |s| >= 5 && '@' in s && '.' in s
  {
    if exists a, b, c, e :: MatchesAt(s, a, b, c, e) {
      var a, b, c, e :| MatchesAt(s, a, b, c, e);
      assert s[b] == '@' && s[c] == '.';
    }
  }

  /** The end of the non-space run starting at `i`. */
  function RunEnd(s: string, i: nat): (j: nat)
    requires i <= |s|
    ensures i <= j <= |s|
    ensures forall k :: i <= k < j ==> !IsSpace(s[k])
    ensures j < |s| ==> IsSpace(s[j])
    decreases |s| - i
  {
    if i < |s| && !IsSpace(s[i]) then RunEnd(s, i + 1) else i
  }

  /** Some `s[k]` with `i <= k < j` is a dot. */
  function DotIn(s: string, i: int, j: int): (b: bool)
    requires 0 <= i && j <= |s|
    ensures b <==> exists k :: i <= k < j && s[k] == '.'
    decreases j - i
  {
    if i >= j then false else s[i] == '.' || DotIn(s, i + 1, j)
  }

  /** The `@` at `b` can be the middle of a match: a non-space character before it, and after
      it a non-space run with a dot that is neither its first nor its last character. */
  predicate AtSignFits(s: string, b: nat)
    requires b < |s|
  {
    s[b] == '@' && b >= 1 && !IsSpace(s[b - 1]) && DotIn(s, b + 2, RunEnd(s, b + 1) - 1)
  }

  function ValidFrom(s: string, b: nat): (r: bool)
    requires b <= |s|
    ensures r <==> exists k :: b <= k < |s| && AtSignFits(s, k)
    decreases |s| - b
  {
    if b == |s| then false
    else
      var rest := ValidFrom(s, b + 1);
      assert (exists k :: b <= k < |s| && AtSignFits(s, k)) <==> AtSignFits(s, b) || rest;
      AtSignFits(s, b) || rest
  }

  lemma AtSignFitsGivesMatch(s: string, b: nat)
    requires b < |s| && AtSignFits(s, b)
    ensures EmailPattern(s)
  {
    var r := RunEnd(s, b + 1);
    var c :| b + 2 <= c < r - 1 && s[c] == '.';
    assert MatchesAt(s, b - 1, b, c, c + 2);
  }

  lemma MatchGivesAtSign(s: string, a: int, b: int, c: int, e: int)
    requires MatchesAt(s, a, b, c, e)
    ensures AtSignFits(s, b)
  {
    var r := RunEnd(s, b + 1);
    assert !IsSpace(s[b - 1]);
    assert !IsSpace(s[c]) && !IsSpace(s[c + 1]);
    assert forall k :: b + 1 <= k < c + 2 ==> !IsSpace(s[k]);
    assert b + 2 <= c < r - 1;
  }

  /** The scan finds a fitting `@` exactly when the pattern matches somewhere. */
  lemma ScanIffPattern(s: string)
    ensures ValidFrom(s, 0) <==> EmailPattern(s)
  {
    if ValidFrom(s, 0) {
      var b :| 0 <= b < |s| && AtSignFits(s, b);
      AtSignFitsGivesMatch(s, b);
    }
    if EmailPattern(s) {
      var a, b, c, e :| MatchesAt(s, a, b, c, e);
      MatchGivesAtSign(s, a, b, c, e);
    }
  }

  /** The e-mail check the forms run, decided by one scan for a fitting `@`; it holds exactly
      when the pattern matches somewhere. */
  function ValidEmail(s: string): (ok: bool)
    ensures ok <==> EmailPattern(s)
  {
    ScanIffPattern(s);
    ValidFrom(s, 0)
  }

  /** The pattern is not anchored: text around a matching address keeps it matching. */
  lemma PatternUnanchored(pre: string, s: string, post: string)
    requires EmailPattern(s)
    ensures EmailPattern(pre + s + post)
  {
    var a, b, c, e :| MatchesAt(s, a, b, c, e);
    var t := pre + s + post;
    var n := |pre|;
    forall k | 0 <= k < |s| ensures t[n + k] == s[k] { }
    NoSpaceShift(s, t, n, a, b);
    NoSpaceShift(s, t, n, b + 1, c);
    NoSpaceShift(s, t, n, c + 1, e);
    assert t[b + n] == '@' && t[c + n] == '.';
    assert MatchesAt(t, a + n, b + n, c + n, e + n);
  }

  /** A white-space-free piece of `s` stays white-space free where `s` sits inside `t`. */
  lemma NoSpaceShift(s: string, t: string, n: nat, i: int, j: int)
    requires n + |s| <= |t| && forall k :: 0 <= k < |s| ==> t[n + k] == s[k]
    requires 0 <= i <= j <= |s| && NoSpaceIn(s, i, j)
    ensures NoSpaceIn(t, i + n, j + n)
  {
    forall k | i + n <= k < j + n ensures !IsSpace(t[k]) {
      assert t[k] == s[k - n];
    }
  }

  /** The pattern needs an `@` and a dot after it, so text without an `@` never matches. */
  lemma PatternNeedsAt(s: string)
    requires forall k :: 0 <= k < |s| ==> s[k] != '@'
    ensures !EmailPattern(s)
  {
  }

  /** The e-mail rule of a form: an empty value gets `required`, one the pattern rejects gets
      `invalid`, and any other value passes. */
  function EmailError(email: string, required: string, invalid: string): (r: Option<string>)
    ensures email == "" ==> r == Some(required)
    ensures email != "" && !EmailPattern(email) ==> r == Some(invalid)
    ensures r.None? <==> EmailPattern(email)
  {
    if email == "" then Some(required)
    else if !ValidEmail(email) then Some(invalid)
    else None
  }

  /** The password rule of the sign-up and sign-in forms: required, then at least six
      characters. */
  function PasswordError(password: string): (r: Option<string>)
    ensures password == "" ==> r == Some("Password is required")
    ensures password != "" && Utf16Length(password) < MinPasswordLength ==> r == Some("Password must be at least 6 characters")
    ensures r.None? <==> Utf16Length(password) >= MinPasswordLength
  {
    if password == "" then Some("Password is required")
    else if Utf16Length(password) < 6 then Some("Password must be at least 6 characters")
    else None
  }

  /** What a failed request shows: the thrown message, or the page's fallback when it is
      empty (`err.message || fallback`). */
  lemma FallbackWhenEmpty(fallback: string)
    ensures MessageOr("", fallback) == fallback
  {
  }
}
