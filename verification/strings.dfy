/** The JavaScript string primitives the bridge relies on (`trim`, `indexOf`,
    `startsWith`, `endsWith`, `includes`, `split`, `toLowerCase`, `replace`,
    number-to-string), each stated over Dafny's `string`. */
module Strings {

  /** JavaScript's WhiteSpace and LineTerminator characters: what `trim`
      removes and what the regular-expression class `\s` matches. */
  predicate IsSpace(c: char) {
    c in SPACE_CHARS || ('\U{2000}' <= c <= '\U{200A}')
  }

  const SPACE_CHARS: set<char> := {
    ' ', '\t', '\n', '\r', '\U{000B}', '\U{000C}', '\U{00A0}', '\U{1680}',
    '\U{2028}', '\U{2029}', '\U{202F}', '\U{205F}', '\U{3000}', '\U{FEFF}'}

  /** The regular-expression class `\d`. */
  predicate IsDigit(c: char) { '0' <= c <= '9' }

  /** The regular-expression class `[a-zA-Z0-9]`. */
  predicate IsAlnum(c: char) { ('a' <= c <= 'z') || ('A' <= c <= 'Z') || IsDigit(c) }

  /** Every character of `s` is white space (`!s.trim()` in the source). */
  predicate IsBlank(s: string) {
    forall k :: 0 <= k < |s| ==> IsSpace(s[k])
  }

  /** Length of the longest prefix of `s` whose characters all satisfy `p`:
      what a greedy `p+` or `p*` consumes. */
  function Span(s: string, p: char -> bool): (n: nat)
    ensures n <= |s|
    ensures forall k :: 0 <= k < n ==> p(s[k])
    ensures n < |s| ==> !p(s[n])
  {
    if s == [] || !p(s[0]) then 0 else 1 + Span(s[1..], p)
  }

  /** `n` is the span of `p` in `s` when the first `n` characters satisfy
      `p` and the next one, if any, does not. */
  lemma SpanIs(s: string, p: char -> bool, n: nat)
    requires n <= |s|
    requires forall k :: 0 <= k < n ==> p(s[k])
    requires n < |s| ==> !p(s[n])
    ensures Span(s, p) == n
  {
    var m := Span(s, p);
    if m < n { assert false; }
    if m > n { assert false; }
  }

  /** The span over a piece whose characters all satisfy `p`, followed by a
      text that does not start with one, is the piece's length. */
  lemma {:induction false} SpanConcat(a: string, b: string, p: char -> bool)
    requires forall k :: 0 <= k < |a| ==> p(a[k])
    requires b != [] ==> !p(b[0])
    ensures Span(a + b, p) == |a|
    decreases |a|
  {
    if a == [] {
      assert a + b == b;
    } else {
      assert (a + b)[0] == a[0];
      assert (a + b)[1..] == a[1..] + b;
      SpanConcat(a[1..], b, p);
    }
  }

  /** Number of white-space characters at the start of `s`. */
  function LeadingSpaces(s: string): (n: nat)
    ensures n <= |s|
    ensures n < |s| ==> !IsSpace(s[n])
  {
    if s == [] || !IsSpace(s[0]) then 0 else 1 + LeadingSpaces(s[1..])
  }

  /** Everything `LeadingSpaces` counts is white space. */
  lemma {:induction false} LeadingAreSpaces(s: string)
    ensures IsBlank(s[..LeadingSpaces(s)])
  {
    if s != [] && IsSpace(s[0]) {
      LeadingAreSpaces(s[1..]);
      assert s[..LeadingSpaces(s)] == [s[0]] + s[1..][..LeadingSpaces(s[1..])];
    }
  }

  /** Number of white-space characters at the end of `s`. */
  function TrailingSpaces(s: string): (n: nat)
    ensures n <= |s|
    ensures n < |s| ==> !IsSpace(s[|s| - 1 - n])
  {
    if s == [] || !IsSpace(s[|s| - 1]) then 0 else 1 + TrailingSpaces(s[..|s| - 1])
  }

  /** Everything `TrailingSpaces` counts is white space. */
  lemma {:induction false} TrailingAreSpaces(s: string)
    ensures IsBlank(s[|s| - TrailingSpaces(s)..])
  {
    if s != [] && IsSpace(s[|s| - 1]) {
      var t := s[..|s| - 1];
      TrailingAreSpaces(t);
      assert s[|s| - TrailingSpaces(s)..] == t[|t| - TrailingSpaces(t)..] + [s[|s| - 1]];
    }
  }

  /** `n` leading spaces: the first `n` characters are white space and the
      next one, if any, is not. */
  lemma {:induction false} LeadingSpacesIs(s: string, n: nat)
    requires n <= |s| && IsBlank(s[..n])
    requires n < |s| ==> !IsSpace(s[n])
    ensures LeadingSpaces(s) == n
  {
    if n > 0 {
      assert s[..n][0] == s[0];
      assert s[1..][..n - 1] == s[..n][1..];
      LeadingSpacesIs(s[1..], n - 1);
    }
  }

  /** `n` trailing spaces: the last `n` characters are white space and the
      one before them, if any, is not. */
  lemma {:induction false} TrailingSpacesIs(s: string, n: nat)
    requires n <= |s| && IsBlank(s[|s| - n..])
    requires n < |s| ==> !IsSpace(s[|s| - 1 - n])
    ensures TrailingSpaces(s) == n
  {
    if n > 0 {
      var t := s[..|s| - 1];
      assert s[|s| - n..][n - 1] == s[|s| - 1];
      assert t[|t| - (n - 1)..] == s[|s| - n..][..n - 1];
      TrailingSpacesIs(t, n - 1);
    }
  }

  /** `String.prototype.trim`: the infix left once leading and trailing white
      space is removed. */
  function Trim(s: string): (r: string)
    ensures |r| <= |s|
    ensures r == [] <==> LeadingSpaces(s) == |s|
    ensures r != [] ==> !IsSpace(r[0]) && !IsSpace(r[|r| - 1])
  {
    var a := LeadingSpaces(s);
    if a == |s| then []
    else
      var b := |s| - TrailingSpaces(s);
      TrailingAreSpaces(s);
      assert a < b;
      s[a..b]
  }

  /** `trim` leaves nothing exactly when the text is all white space. */
  lemma TrimBlank(s: string)
    ensures Trim(s) == [] <==> IsBlank(s)
  {
    LeadingAreSpaces(s);
    assert s[..|s|] == s;
  }

  /** What `Trim` removes is white space on either side of what it keeps. */
  lemma TrimIsInfix(s: string)
    ensures var r := Trim(s);
      exists a: nat :: a + |r| <= |s| && r == s[a..a + |r|] && IsBlank(s[..a]) && IsBlank(s[a + |r|..])
  {
    var a := LeadingSpaces(s);
    if a == |s| {
      LeadingAreSpaces(s);
      assert s[..|s|] == s[0..];
      BlankAround(s, Trim(s), 0);
    } else {
      var b := TrimCut(s);
      BlankAround(s, Trim(s), a);
    }
  }

  /** The witness of `TrimIsInfix`, stated apart from the text it is
      found in. */
  lemma BlankAround(s: string, r: string, a: nat)
    requires a + |r| <= |s| && r == s[a..a + |r|] && IsBlank(s[..a]) && IsBlank(s[a + |r|..])
    ensures exists a: nat :: a + |r| <= |s| && r == s[a..a + |r|] && IsBlank(s[..a]) && IsBlank(s[a + |r|..])
  {
  }

  /** A text that is not blank is trimmed to the part between its leading
      and its trailing white space. */
  lemma TrimCut(s: string) returns (b: nat)
    requires LeadingSpaces(s) < |s|
    ensures LeadingSpaces(s) < b <= |s| && Trim(s) == s[LeadingSpaces(s)..b]
    ensures IsBlank(s[..LeadingSpaces(s)]) && IsBlank(s[b..])
  {
    b := |s| - TrailingSpaces(s);
    LeadingAreSpaces(s);
    TrailingAreSpaces(s);
  }

  /** The partner of `Trim`: padding a trimmed text with white space on both
      sides and trimming gives the text back. */
  lemma {:induction false} TrimPadded(pre: string, t: string, post: string)
    requires IsBlank(pre) && IsBlank(post)
    requires t != [] ==> !IsSpace(t[0]) && !IsSpace(t[|t| - 1])
    ensures Trim(pre + t + post) == t
  {
    var s := pre + t + post;
    if t == [] {
      assert s == pre + post;
      assert IsBlank(s) by {
        forall k | 0 <= k < |s| ensures IsSpace(s[k]) {
          if k < |pre| { assert s[k] == pre[k]; } else { assert s[k] == post[k - |pre|]; }
        }
      }
    } else {
      // the first non-space character of s is t[0], at |pre|
      assert s[|pre|] == t[0];
      assert s[..|pre|] == pre;
      LeadingSpacesIs(s, |pre|);
      var a := LeadingSpaces(s);
      // the last non-space character of s is the last of t
      var n := TrailingSpaces(s);
      var f := |pre| + |t|;
      assert s[f - 1] == t[|t| - 1];
      assert s[|s| - |post|..] == post;
      TrailingSpacesIs(s, |post|);
      assert s[a..|s| - n] == t;
    }
  }

  /** Trimming twice is trimming once. */
  lemma TrimIdempotent(s: string)
    ensures Trim(Trim(s)) == Trim(s)
  {
    var t := Trim(s);
    TrimPadded("", t, "");
    assert "" + t + "" == t;
  }

  /** `pat` occurs in `s` starting at index `i`. */
  predicate OccursAt(s: string, pat: string, i: nat) {
    i + |pat| <= |s| && s[i..i + |pat|] == pat
  }

  /** `s.indexOf(pat, from)`: the first index at or after `from` where `pat`
      occurs, or -1. */
  function IndexOf(s: string, pat: string, from: nat): (r: int)
    ensures r == -1 || (from <= r && r + |pat| <= |s|)
    decreases |s| - from
  {
    if from + |pat| > |s| then -1
    else if s[from..from + |pat|] == pat then from
    else IndexOf(s, pat, from + 1)
  }

  /** `indexOf` finds an occurrence and skips none: there is none between
      `from` and its result, and none at all after `from` when it returns
      -1. */
  lemma {:induction false} IndexOfFirst(s: string, pat: string, from: nat)
    ensures var r := IndexOf(s, pat, from);
            && (r != -1 ==> OccursAt(s, pat, r))
            && forall i :: from <= i && (r == -1 || i < r) ==> !OccursAt(s, pat, i)
    decreases |s| - from
  {
    if from + |pat| <= |s| && s[from..from + |pat|] != pat {
      IndexOfFirst(s, pat, from + 1);
    }
  }

  /** The first occurrence at or after `from` is what `indexOf` returns. */
  lemma IndexOfIs(s: string, pat: string, from: nat, r: nat)
    requires from <= r && OccursAt(s, pat, r)
    requires forall i :: from <= i < r ==> !OccursAt(s, pat, i)
    ensures IndexOf(s, pat, from) == r
  {
    var e := IndexOf(s, pat, from);
    IndexOfFirst(s, pat, from);
    if e == -1 || e > r { assert false; }
    if e != -1 && e < r { assert false; }
  }

  /** `s.startsWith(p)`. */
  predicate StartsWith(s: string, p: string) {
    |p| <= |s| && s[..|p|] == p
  }

  /** A text built from `p` and `rest` starts with `p`, and what follows
      `p` is `rest`. */
  lemma ConcatParts(p: string, rest: string)
    ensures StartsWith(p + rest, p) && (p + rest)[..|p|] == p && (p + rest)[|p|..] == rest
  {
    assert (p + rest)[..|p|] == p;
    assert (p + rest)[|p|..] == rest;
  }

  /** `s.endsWith(p)`. */
  predicate EndsWith(s: string, p: string) {
    |p| <= |s| && s[|s| - |p|..] == p
  }

  /** `s.includes(p)`. */
  function Includes(s: string, p: string): (b: bool)
    ensures b <==> exists i :: OccursAt(s, p, i)
  {
    IndexOfFirst(s, p, 0);
    IndexOf(s, p, 0) != -1
  }

  /** Index of the first `c` in `s`, or `|s|` when there is none. */
  function FirstIndex(s: string, c: char): (i: nat)
    ensures i <= |s|
    ensures i < |s| ==> s[i] == c
    ensures forall k :: 0 <= k < i ==> s[k] != c
  {
    if s == [] || s[0] == c then 0 else 1 + FirstIndex(s[1..], c)
  }

  /** The pieces joined back with the separator: the inverse of `Split`. */
  function Join(parts: seq<string>, sep: char): string
  {
    if parts == [] then "" else if |parts| == 1 then parts[0]
    else parts[0] + [sep] + Join(parts[1..], sep)
  }

  /** `s.split(sep)` for a one-character separator: the maximal separator-free
      pieces, in order; at least one piece, even for the empty string. */
  function Split(s: string, sep: char): (r: seq<string>)
    ensures |r| >= 1
    ensures forall k :: 0 <= k < |r| ==> sep !in r[k]
    ensures Join(r, sep) == s
    decreases |s|
  {
    var i := FirstIndex(s, sep);
    if i == |s| then [s]
    else
      var rest := Split(s[i + 1..], sep);
      assert s == s[..i] + [sep] + s[i + 1..];
      [s[..i]] + rest
  }

  /** The other half of the round trip: separator-free pieces, joined and
      split again, come back unchanged. */
  lemma {:induction false} SplitJoin(parts: seq<string>, sep: char)
    requires |parts| >= 1
    requires forall k :: 0 <= k < |parts| ==> sep !in parts[k]
    ensures Split(Join(parts, sep), sep) == parts
    decreases |parts|
  {
    var s := Join(parts, sep);
    var p0 := parts[0];
    if |parts| == 1 {
      assert FirstIndex(s, sep) == |s|;
    } else {
      var rest := Join(parts[1..], sep);
      assert s == p0 + [sep] + rest;
      assert s[|p0|] == sep;
      assert forall k :: 0 <= k < |p0| ==> s[k] == p0[k];
      assert FirstIndex(s, sep) == |p0|;
      assert s[..|p0|] == p0;
      assert s[|p0| + 1..] == rest;
      SplitJoin(parts[1..], sep);
      assert [p0] + parts[1..] == parts;
    }
  }

  /** `toLowerCase` on the ASCII letters; other characters are kept. */
  function LowerAscii(s: string): (r: string)
    ensures |r| == |s|
    ensures forall k :: 0 <= k < |r| ==> !('A' <= r[k] <= 'Z')
    ensures forall k :: 0 <= k < |s| && !('A' <= s[k] <= 'Z') ==> r[k] == s[k]
    ensures forall k :: 0 <= k < |s| && 'A' <= s[k] <= 'Z' ==> 'a' <= r[k] <= 'z' && r[k] as int - 32 == s[k] as int
  {
    seq(|s|, k requires 0 <= k < |s| => if 'A' <= s[k] <= 'Z' then (s[k] as int + 32) as char else s[k])
  }

  /** Lowering twice is lowering once. */
  lemma LowerAsciiIdempotent(s: string)
    ensures LowerAscii(LowerAscii(s)) == LowerAscii(s)
  {
  }

  /** `s.replace(/<from>/g, to)` for single characters. */
  function ReplaceChar(s: string, from: char, to: char): (r: string)
    ensures |r| == |s|
    ensures from != to ==> from !in r
    ensures forall k :: 0 <= k < |s| && s[k] != from ==> r[k] == s[k]
    ensures forall k :: 0 <= k < |s| && s[k] == from ==> r[k] == to
  {
    seq(|s|, k requires 0 <= k < |s| => if s[k] == from then to else s[k])
  }

  /** `s.replace(pat, rep)` with a string pattern: only the first
      occurrence is replaced. */
  function ReplaceFirst(s: string, pat: string, rep: string): string
  {
    var i := IndexOf(s, pat, 0);
    if i == -1 then s else s[..i] + rep + s[i + |pat|..]
  }

  /** Removing a prefix the text starts with leaves the rest of the text. */
  lemma ReplacePrefix(s: string, p: string)
    requires StartsWith(s, p)
    ensures ReplaceFirst(s, p, "") == s[|p|..]
  {
    assert OccursAt(s, p, 0);
    IndexOfIs(s, p, 0, 0);
  }

  /** Decimal rendering of a non-negative integer, as template strings print
      a status code. */
  function NatToString(n: nat): (r: string)
    ensures |r| >= 1
    ensures forall k :: 0 <= k < |r| ==> IsDigit(r[k])
    decreases n
  {
    if n < 10 then [(('0' as int) + n) as char]
    else NatToString(n / 10) + [(('0' as int) + n % 10) as char]
  }

  /** The value of a string of decimal digits. */
  function DigitsValue(s: string): nat
    requires forall k :: 0 <= k < |s| ==> IsDigit(s[k])
  {
    if s == [] then 0
    else
      assert IsDigit(s[|s| - 1]);
      10 * DigitsValue(s[..|s| - 1]) + (s[|s| - 1] as int - '0' as int)
  }

  /** Reading back a rendered number gives the number. */
  lemma {:induction false} NatToStringRoundTrip(n: nat)
    ensures DigitsValue(NatToString(n)) == n
    decreases n
  {
    var r := NatToString(n);
    if n >= 10 {
      NatToStringRoundTrip(n / 10);
      assert r[..|r| - 1] == NatToString(n / 10);
    }
  }
}
