/**
 * The JavaScript string primitives the server's logic relies on, over Dafny strings
 * (sequences of Unicode scalar values): `toLowerCase`/`toUpperCase` (ASCII letters
 * only), `trim`, `split` on one character, `Array.prototype.join`, `indexOf` and
 * `String.prototype.replace` with a string pattern, including the `$` patterns of
 * its replacement argument.
 */
module JsStrings {

  // ---------------------------------------------------------------- case mapping

  function LowerChar(c: char): char {
    if 'A' <= c <= 'Z' then (c as int + 32) as char else c
  }

  function UpperChar(c: char): char {
    if 'a' <= c <= 'z' then (c as int - 32) as char else c
  }

  function ToLower(s: string): string {
    seq(|s|, i requires 0 <= i < |s| => LowerChar(s[i]))
  }

  /** The four spellings `toLowerCase` maps to "no". */
  const NO_SPELLINGS: set<string> := {"no", "nO", "No", "NO"}

  /** A string lower-cases to "no" exactly when it is one of the four spellings of "no". */
  lemma LowerIsNo(s: string)
    ensures ToLower(s) == "no" <==> s in NO_SPELLINGS
  {
    if ToLower(s) == "no" {
      assert |s| == 2;
      assert ToLower(s)[0] == 'n' && ToLower(s)[1] == 'o';
      assert LowerChar(s[0]) == 'n' && LowerChar(s[1]) == 'o';
      assert s[0] == 'n' || s[0] == 'N';
      assert s[1] == 'o' || s[1] == 'O';
      assert s == [s[0], s[1]];
    }
  }

  // ---------------------------------------------------------------- trim

  /**
   * The characters `String.prototype.trim` removes: the WhiteSpace code points of
   * ECMAScript (tab, vertical tab, form feed, no-break space, byte order mark and
   * the space separators) and its LineTerminators (LF, CR, U+2028, U+2029).
   */
  const JS_WHITESPACE: set<char> := {
    '\t', '\n', '\U{000B}', '\U{000C}', '\r', ' ', '\U{00A0}', '\U{1680}',
    '\U{2000}', '\U{2001}', '\U{2002}', '\U{2003}', '\U{2004}', '\U{2005}',
    '\U{2006}', '\U{2007}', '\U{2008}', '\U{2009}', '\U{200A}',
    '\U{2028}', '\U{2029}', '\U{202F}', '\U{205F}', '\U{3000}', '\U{FEFF}'
  }

  predicate IsJsWhitespace(c: char) {
    c in JS_WHITESPACE
  }

  predicate AllWhitespace(s: string) {
    forall i :: 0 <= i < |s| ==> IsJsWhitespace(s[i])
  }

  function TrimStart(s: string): string {
    if s != [] && IsJsWhitespace(s[0]) then TrimStart(s[1..]) else s
  }

  function TrimEnd(s: string): string {
    if s != [] && IsJsWhitespace(s[|s| - 1]) then TrimEnd(s[..|s| - 1]) else s
  }

  /** `s.trim()`. */
  function Trim(s: string): string {
    TrimEnd(TrimStart(s))
  }

  /** How many whitespace characters `s` starts with. */
  function LeadingWhitespace(s: string): (n: nat)
    ensures n <= |s|
  {
    if s != [] && IsJsWhitespace(s[0]) then 1 + LeadingWhitespace(s[1..]) else 0
  }

  /** Where the trailing whitespace of `s` begins. */
  function TrailingStart(s: string): (k: nat)
    ensures k <= |s|
  {
    if s != [] && IsJsWhitespace(s[|s| - 1]) then TrailingStart(s[..|s| - 1]) else |s|
  }

  lemma {:induction false} TrimStartAt(s: string)
    ensures TrimStart(s) == s[LeadingWhitespace(s)..]
    ensures AllWhitespace(s[..LeadingWhitespace(s)])
    ensures LeadingWhitespace(s) < |s| ==> !IsJsWhitespace(s[LeadingWhitespace(s)])
  {
    if s != [] && IsJsWhitespace(s[0]) {
      TrimStartAt(s[1..]);
      var k := LeadingWhitespace(s[1..]);
      assert s[1..][k..] == s[k + 1..];
      assert s[..k + 1] == [s[0]] + s[1..][..k];
    }
  }

  lemma {:induction false} TrimEndAt(s: string)
    ensures TrimEnd(s) == s[..TrailingStart(s)]
    ensures AllWhitespace(s[TrailingStart(s)..])
    ensures TrailingStart(s) > 0 ==> !IsJsWhitespace(s[TrailingStart(s) - 1])
  {
    if s != [] && IsJsWhitespace(s[|s| - 1]) {
      var init := s[..|s| - 1];
      TrimEndAt(init);
      var k := TrailingStart(init);
      assert init[..k] == s[..k];
      assert s[k..] == init[k..] + [s[|s| - 1]];
    }
  }

  /**
   * `trim` keeps the part of `s` between leading and trailing whitespace: all that it
   * removes is whitespace, and the result neither starts nor ends with whitespace.
   */
  lemma TrimSpec(s: string)
    ensures exists i, j :: 0 <= i <= j <= |s| && Trim(s) == s[i..j] && AllWhitespace(s[..i]) && AllWhitespace(s[j..])
    ensures Trim(s) != [] ==> !IsJsWhitespace(Trim(s)[0]) && !IsJsWhitespace(Trim(s)[|Trim(s)| - 1])
  {
    TrimStartAt(s);
    var i := LeadingWhitespace(s);
    var t := s[i..];
    TrimEndAt(t);
    var k := TrailingStart(t);
    assert Trim(s) == t[..k] == s[i..i + k];
    assert s[i + k..] == t[k..];
    if k > 0 {
      assert t[0] == s[i] && t[k - 1] == Trim(s)[k - 1];
    }
  }

  lemma {:induction false} TrimStartPadded(s: string, i: nat)
    requires i < |s| && AllWhitespace(s[..i]) && !IsJsWhitespace(s[i])
    ensures TrimStart(s) == s[i..]
  {
    if i > 0 {
      assert s[..i][0] == s[0];
      var u := s[1..][..i - 1];
      assert AllWhitespace(u) by {
        forall m | 0 <= m < |u| ensures IsJsWhitespace(u[m]) {
          assert u[m] == s[..i][m + 1];
        }
      }
      TrimStartPadded(s[1..], i - 1);
      assert s[1..][i - 1..] == s[i..];
    }
  }

  lemma {:induction false} TrimEndPadded(s: string, j: nat)
    requires 0 < j <= |s| && AllWhitespace(s[j..]) && !IsJsWhitespace(s[j - 1])
    ensures TrimEnd(s) == s[..j]
    decreases |s|
  {
    if j < |s| {
      var init := s[..|s| - 1];
      assert s[j..][|s| - 1 - j] == s[|s| - 1];
      assert AllWhitespace(init[j..]) by {
        forall m | 0 <= m < |init[j..]| ensures IsJsWhitespace(init[j..][m]) {
          assert init[j..][m] == s[j..][m];
        }
      }
      TrimEndPadded(init, j);
      assert init[..j] == s[..j];
    }
  }

  /** Conversely, whitespace around a core that neither starts nor ends with whitespace is exactly what `trim` removes. */
  lemma TrimOfPadded(s: string, i: nat, j: nat)
    requires i < j <= |s|
    requires AllWhitespace(s[..i]) && AllWhitespace(s[j..])
    requires !IsJsWhitespace(s[i]) && !IsJsWhitespace(s[j - 1])
    ensures Trim(s) == s[i..j]
  {
    TrimStartPadded(s, i);
    var t := s[i..];
    assert t[j - i..] == s[j..] && t[j - i - 1] == s[j - 1];
    TrimEndPadded(t, j - i);
    assert t[..j - i] == s[i..j];
  }

  // ---------------------------------------------------------------- split and join

  /** Number of occurrences of `c` in `s`. */
  function Occurrences(s: string, c: char): nat {
    if s == [] then 0 else (if s[0] == c then 1 else 0) + Occurrences(s[1..], c)
  }

  /** `s.split(sep)` for a one-character separator. */
  function Split(s: string, sep: char): (parts: seq<string>)
    ensures |parts| >= 1
  {
    if s == [] then [""]
    else
      var rest := Split(s[1..], sep);
      if s[0] == sep then [""] + rest else [[s[0]] + rest[0]] + rest[1..]
  }

  /** `parts.join(sep)`. */
  function Join(sep: string, parts: seq<string>): string {
    if |parts| == 0 then ""
    else if |parts| == 1 then parts[0]
    else parts[0] + sep + Join(sep, parts[1..])
  }

  /**
   * Splitting on a character yields one more part than there are separators, no part
   * contains the separator, and joining the parts with it gives back the string.
   */
  lemma {:induction false} SplitJoin(s: string, sep: char)
    ensures |Split(s, sep)| == Occurrences(s, sep) + 1
    ensures forall k :: 0 <= k < |Split(s, sep)| ==> sep !in Split(s, sep)[k]
    ensures Join([sep], Split(s, sep)) == s
  {
    if s != [] {
      var rest := Split(s[1..], sep);
      SplitJoin(s[1..], sep);
      var parts := Split(s, sep);
      if s[0] == sep {
        assert parts[1..] == rest;
      } else {
        assert parts[0] == [s[0]] + rest[0];
        assert forall k :: 1 <= k < |parts| ==> parts[k] == rest[k];
        if |rest| > 1 {
          assert parts[1..] == rest[1..];
          assert Join([sep], rest) == rest[0] + [sep] + Join([sep], rest[1..]);
        }
      }
    }
  }

  // ---------------------------------------------------------------- indexOf and replace

  predicate OccursAt(s: string, pat: string, i: int) {
    0 <= i && i + |pat| <= |s| && s[i..i + |pat|] == pat
  }

  function IndexFrom(s: string, pat: string, from: nat): (r: int)
    requires from <= |s| + 1
    ensures r == -1 || (from <= r && OccursAt(s, pat, r))
    ensures forall i :: from <= i && (r == -1 || i < r) ==> !OccursAt(s, pat, i)
    decreases |s| + 1 - from
  {
    if from + |pat| > |s| then -1
    else if s[from..from + |pat|] == pat then from
    else IndexFrom(s, pat, from + 1)
  }

  /** `s.indexOf(pat)`: the first position at which `pat` occurs, or -1 when it does not occur. */
  function IndexOf(s: string, pat: string): (r: int)
    ensures r == -1 || OccursAt(s, pat, r)
    ensures forall i :: 0 <= i && (r == -1 || i < r) ==> !OccursAt(s, pat, i)
  {
    IndexFrom(s, pat, 0)
  }

  /**
   * The replacement text `String.prototype.replace` inserts for one match of a string
   * pattern (ECMAScript GetSubstitution with no capture groups): `$$` gives `$`, `$&`
   * the matched text, `` $` `` the text before the match, `$'` the text after it; any
   * other `$` (including `$1` and `$<`) stands for itself.
   */
  function Substitution(replacement: string, matched: string, before: string, after: string): string
    decreases |replacement|
  {
    if |replacement| >= 2 && replacement[0] == '$' && replacement[1] in "$&`'" then
      var insert :=
        if replacement[1] == '$' then "$"
        else if replacement[1] == '&' then matched
        else if replacement[1] == '`' then before
        else after;
      insert + Substitution(replacement[2..], matched, before, after)
    else if replacement == [] then []
    else [replacement[0]] + Substitution(replacement[1..], matched, before, after)
  }

  /** A replacement without `$` is inserted literally. */
  lemma {:induction false} SubstitutionLiteral(replacement: string, matched: string, before: string, after: string)
    requires '$' !in replacement
    ensures Substitution(replacement, matched, before, after) == replacement
  {
    if replacement != [] {
      assert replacement[0] != '$';
      assert '$' !in replacement[1..] by {
        forall i | 0 <= i < |replacement[1..]| ensures replacement[1..][i] != '$' {
          assert replacement[1..][i] == replacement[i + 1];
        }
      }
      SubstitutionLiteral(replacement[1..], matched, before, after);
    }
  }

  /** `s.replace(pat, replacement)` with a string pattern: only the first occurrence is replaced. */
  function ReplaceFirst(s: string, pat: string, replacement: string): string {
    var i := IndexOf(s, pat);
    if i < 0 then s
    else s[..i] + Substitution(replacement, pat, s[..i], s[i + |pat|..]) + s[i + |pat|..]
  }

  /** Replacing into a string whose first occurrence of the pattern sits right after a prefix. */
  lemma ReplaceAfterPrefix(lead: string, pat: string, tail: string, replacement: string)
    requires forall i :: 0 <= i < |lead| ==> !OccursAt(lead + pat + tail, pat, i)
    ensures ReplaceFirst(lead + pat + tail, pat, replacement)
         == lead + Substitution(replacement, pat, lead, tail) + tail
    ensures '$' !in replacement ==> ReplaceFirst(lead + pat + tail, pat, replacement) == lead + replacement + tail
  {
    var s := lead + pat + tail;
    assert OccursAt(s, pat, |lead|) by {
      assert s[|lead|..|lead| + |pat|] == pat;
    }
    var k := IndexOf(s, pat);
    assert k == |lead|;
    assert s[..k] == lead && s[k + |pat|..] == tail;
    if '$' !in replacement {
      SubstitutionLiteral(replacement, pat, lead, tail);
    }
  }

  /**
   * No position of `lead` starts the pattern's first two characters: each holds a
   * character other than the pattern's first, or is followed within `lead` by one
   * other than its second.
   */
  predicate NoEarlyStart(lead: string, pat: string)
    requires |pat| >= 2
  {
    forall i :: 0 <= i < |lead| ==> lead[i] != pat[0] || (i + 1 < |lead| && lead[i + 1] != pat[1])
  }

  /** Then the pattern cannot occur at any position of `lead`, whatever follows it. */
  lemma NoEarlyStartNoOccurrence(lead: string, pat: string, tail: string)
    requires |pat| >= 2 && NoEarlyStart(lead, pat)
    ensures forall i :: 0 <= i < |lead| ==> !OccursAt(lead + pat + tail, pat, i)
  {
    var s := lead + pat + tail;
    forall i | 0 <= i < |lead| ensures !OccursAt(s, pat, i) {
      assert lead[i] != pat[0] || (i + 1 < |lead| && lead[i + 1] != pat[1]);
      assert s[i] == lead[i];
      if i + 1 < |lead| {
        assert s[i + 1] == lead[i + 1];
      }
      if i + |pat| <= |s| {
        assert s[i..i + |pat|][0] == s[i] && s[i..i + |pat|][1] == s[i + 1];
      }
    }
  }

  lemma NoEarlyStartConcat(a: string, b: string, pat: string)
    requires |pat| >= 2 && NoEarlyStart(a, pat) && NoEarlyStart(b, pat)
    ensures NoEarlyStart(a + b, pat)
  {
    var s := a + b;
    forall i | 0 <= i < |s| ensures s[i] != pat[0] || (i + 1 < |s| && s[i + 1] != pat[1]) {
      if i < |a| {
        assert a[i] != pat[0] || (i + 1 < |a| && a[i + 1] != pat[1]);
        assert s[i] == a[i];
        if i + 1 < |a| {
          assert s[i + 1] == a[i + 1];
        }
      } else {
        var j := i - |a|;
        assert b[j] != pat[0] || (j + 1 < |b| && b[j + 1] != pat[1]);
        assert s[i] == b[j];
        if i + 1 < |s| {
          assert s[i + 1] == b[i + 1 - |a|];
        }
      }
    }
  }

  lemma NoEarlyStartWithout(a: string, pat: string)
    requires |pat| >= 2 && pat[0] !in a
    ensures NoEarlyStart(a, pat)
  {
    forall i | 0 <= i < |a| ensures a[i] != pat[0] {
      assert a[i] in a;
    }
  }

  /** When the pattern does not occur, `replace` leaves the string unchanged. */
  lemma ReplaceAbsent(s: string, pat: string, replacement: string)
    requires forall i :: 0 <= i <= |s| ==> !OccursAt(s, pat, i)
    ensures ReplaceFirst(s, pat, replacement) == s
  {
  }
}
