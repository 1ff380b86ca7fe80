/** The pieces of JavaScript string and regular-expression semantics the
    validators rely on: the `\s` / `\S` and `.` character classes,
    `String.prototype.trim`, `Array.prototype.join`, and the two patterns the
    forms test (`/\S+@\S+\.\S+/` and `/.{8,}/`), each given once as a
    declarative predicate and once as the left-to-right scan a regular
    expression engine performs, with a proof that the two agree. */
module JsText {

  /** The characters `\s` matches and `trim` removes (ECMAScript WhiteSpace
      and LineTerminator). */
  predicate IsSpace(c: char) {
    || c == '\t' || c == '\n' || c == '\U{000B}' || c == '\U{000C}' || c == '\r'
    || c == ' ' || c == '\U{00A0}' || c == '\U{1680}'
    || ('\U{2000}' <= c <= '\U{200A}')
    || c == '\U{2028}' || c == '\U{2029}' || c == '\U{202F}' || c == '\U{205F}'
    || c == '\U{3000}' || c == '\U{FEFF}'
  }

  /** The characters `.` does not match. */
  predicate IsLineTerminator(c: char) {
    c == '\n' || c == '\r' || c == '\U{2028}' || c == '\U{2029}'
  }

  predicate IsLower(c: char) { 'a' <= c <= 'z' }
  predicate IsUpper(c: char) { 'A' <= c <= 'Z' }
  predicate IsDigit(c: char) { '0' <= c <= '9' }
  predicate IsAlphanumeric(c: char) { IsLower(c) || IsUpper(c) || IsDigit(c) }

  /** Every character is white space (so `trim` leaves nothing). */
  predicate IsBlank(s: string) {
    forall i :: 0 <= i < |s| ==> IsSpace(s[i])
  }

  // ---------------------------------------------------------------- trim

  /** Number of leading white-space characters. */
  function LeadingSpace(s: string): (k: nat)
    ensures k <= |s|
    ensures forall i :: 0 <= i < k ==> IsSpace(s[i])
    ensures k < |s| ==> !IsSpace(s[k])
  {
    if |s| == 0 || !IsSpace(s[0]) then 0 else 1 + LeadingSpace(s[1..])
  }

  /** Number of trailing white-space characters. */
  function TrailingSpace(s: string): (k: nat)
    ensures k <= |s|
    ensures forall i :: |s| - k <= i < |s| ==> IsSpace(s[i])
    ensures k < |s| ==> !IsSpace(s[|s| - 1 - k])
  {
    if |s| == 0 || !IsSpace(s[|s| - 1]) then 0 else 1 + TrailingSpace(s[..|s| - 1])
  }

  /** `s.trim()`: the slice of `s` between its leading and trailing white space. */
  function Trim(s: string): string {
    var t := s[LeadingSpace(s)..];
    t[..|t| - TrailingSpace(t)]
  }

  /** `!s.trim()` holds exactly for the all-white-space strings; a trimmed
      non-blank string starts and ends with a non-space character of `s`. */
  lemma TrimEmptyIffBlank(s: string)
    ensures Trim(s) == "" <==> IsBlank(s)
    ensures Trim(s) != "" ==> !IsSpace(Trim(s)[0]) && !IsSpace(Trim(s)[|Trim(s)| - 1])
  {
    var a := LeadingSpace(s);
    var t := s[a..];
    var b := TrailingSpace(t);
    if a < |s| {
      assert t[0] == s[a];
      assert !IsSpace(t[0]);
      assert b < |t|;
      assert Trim(s)[0] == s[a];
    } else {
      assert forall i :: 0 <= i < |s| ==> IsSpace(s[i]);
    }
  }

  // ---------------------------------------------------------------- join

  /** `parts.join(sep)`. */
  function Join(parts: seq<string>, sep: string): string {
    if |parts| == 0 then ""
    else if |parts| == 1 then parts[0]
    else parts[0] + sep + Join(parts[1..], sep)
  }

  // ---------------------------------------------------------------- contains

  /** `/[a-z]+/.test(s)` and its siblings: some character of the class occurs. */
  predicate ContainsLower(s: string) { exists i :: 0 <= i < |s| && IsLower(s[i]) }
  predicate ContainsUpper(s: string) { exists i :: 0 <= i < |s| && IsUpper(s[i]) }
  predicate ContainsDigit(s: string) { exists i :: 0 <= i < |s| && IsDigit(s[i]) }
  predicate ContainsSpecial(s: string) { exists i :: 0 <= i < |s| && !IsAlphanumeric(s[i]) }

  // ---------------------------------------------------------------- /.{n,}/

  /** No line terminator in `s[from..from + n]`. */
  predicate LineAt(s: string, from: nat, n: nat)
    requires from + n <= |s|
  {
    forall k :: from <= k < from + n ==> !IsLineTerminator(s[k])
  }

  /** `/.{n,}/.test(s)`: some `n` consecutive characters contain no line
      terminator. */
  predicate HasLine(s: string, n: nat) {
    exists from: nat | from <= |s| :: from + n <= |s| && LineAt(s, from, n)
  }

  /** The scan a regular-expression engine performs for `/.{n,}/`: count the
      current run of non-terminators and stop once it reaches `n`. */
  method ScanLine(s: string, n: nat) returns (found: bool)
    ensures found <==> HasLine(s, n)
  {
    if n == 0 {
      assert LineAt(s, 0, 0);
      return true;
    }
    var run: nat := 0;
    var k: nat := 0;
    while k < |s|
      invariant k <= |s|
      invariant run <= k && run < n
      invariant LineAt(s, k - run, run)
      invariant k - run > 0 ==> IsLineTerminator(s[k - run - 1])
      invariant forall from: nat :: from + n <= k ==> !LineAt(s, from, n)
    {
      if IsLineTerminator(s[k]) {
        forall from: nat | from + n == k + 1
          ensures !LineAt(s, from, n)
        {
          assert IsLineTerminator(s[from + n - 1]);
        }
        run := 0;
      } else {
        run := run + 1;
        if run == n {
          assert LineAt(s, k + 1 - n, n);
          return true;
        }
        forall from: nat | from + n == k + 1
          ensures !LineAt(s, from, n)
        {
          assert from <= k - run < from + n;
          assert IsLineTerminator(s[k - run]);
        }
      }
      k := k + 1;
    }
    return false;
  }

  // ---------------------------------------------------------------- /\S+@\S+\.\S+/

  /** A match of `\S+@\S+\.\S+` whose `@` is at `p` and whose `.` is at `q`;
      one non-space character on either side is all the outer `\S+` need. */
  predicate EmailMatchAt(s: string, p: nat, q: nat) {
    && 0 < p && p + 2 <= q && q + 1 < |s|
    && s[p] == '@' && s[q] == '.'
    && !IsSpace(s[p - 1]) && !IsSpace(s[q + 1])
    && forall k :: p < k < q ==> !IsSpace(s[k])
  }

  /** `/\S+@\S+\.\S+/.test(s)`: the pattern matches somewhere in `s`. */
  predicate EmailShaped(s: string) {
    exists p: nat, q: nat | p < q < |s| :: EmailMatchAt(s, p, q)
  }

  /** A match needs at least five characters, so the empty string never
      matches. */
  lemma EmailShapedIsLong(s: string)
    requires EmailShaped(s)
    ensures |s| >= 5
  {
  }

  /** The one-pass scan a regular-expression engine can use for
      `\S+@\S+\.\S+`: within the current run of non-space characters remember
      the first `@` that has a character before it, and accept at a `.` at
      least two characters after it that is followed by a non-space
      character. */
  method ScanEmail(s: string) returns (found: bool)
    ensures found <==> EmailShaped(s)
  {
    var runStart: nat := 0;
    var at: nat := 0;
    var seenAt := false;
    var k: nat := 0;
    while k < |s|
      invariant runStart <= k <= |s|
      invariant forall j :: runStart <= j < k ==> !IsSpace(s[j])
      invariant runStart > 0 ==> IsSpace(s[runStart - 1])
      invariant seenAt ==> runStart < at < k && s[at] == '@'
      invariant seenAt ==> forall j :: runStart < j < at ==> s[j] != '@'
      invariant !seenAt ==> forall j :: runStart < j < k ==> s[j] != '@'
      invariant forall p: nat, q: nat :: q < k ==> !EmailMatchAt(s, p, q)
    {
      var c := s[k];
      if IsSpace(c) {
        runStart, seenAt := k + 1, false;
      } else if c == '.' && seenAt && at + 2 <= k && k + 1 < |s| && !IsSpace(s[k + 1]) {
        assert EmailMatchAt(s, at, k);
        return true;
      } else {
        forall p: nat
          ensures EmailMatchAt(s, p, k) ==> seenAt && at + 2 <= k
        {
          MatchInsideRun(s, runStart, k, p);
        }
        if c == '@' && !seenAt && runStart < k {
          at, seenAt := k, true;
        }
      }
      k := k + 1;
    }
    return false;
  }

  /** The `@` of a match whose `.` is at `q` lies strictly inside the run of
      non-space characters that contains `q`. */
  lemma MatchInsideRun(s: string, runStart: nat, q: nat, p: nat)
    requires runStart <= q < |s|
    requires runStart > 0 ==> IsSpace(s[runStart - 1])
    ensures EmailMatchAt(s, p, q) ==> runStart < p < q
  {
  }
}
