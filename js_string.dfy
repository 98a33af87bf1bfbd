/**
 * The JavaScript string built-ins the core relies on (`split`, `trim`, `startsWith`,
 * `slice`, the `\s` class, ASCII `toLowerCase`), stated on Dafny strings.
 *
 * Dafny strings are sequences of Unicode scalar values, while JavaScript strings are
 * sequences of UTF-16 code units; for text in the Basic Multilingual Plane (which includes
 * Arabic) the two agree. `Utf16Length` gives the JavaScript `length` where it matters.
 */
module JsString {
  import opened Wrappers
  import opened Sequences

  /** JavaScript's `\s`: WhiteSpace and LineTerminator code points (also what `trim` strips). */
  predicate IsSpace(c: char) {
    || c == '\t' || c == '\n' || c == '\U{000B}' || c == '\U{000C}' || c == '\r' || c == ' '
    || c == '\U{00A0}' || c == '\U{1680}' || ('\U{2000}' <= c <= '\U{200A}')
    || c == '\U{2028}' || c == '\U{2029}' || c == '\U{202F}' || c == '\U{205F}'
    || c == '\U{3000}' || c == '\U{FEFF}'
  }

  /** `!s.trim()`: the string is empty or holds only white space. */
  predicate Blank(s: string) {
    forall i | 0 <= i < |s| :: IsSpace(s[i])
  }

  /** How many white-space characters `s` starts with. */
  function LeadingSpace(s: string): (n: nat)
    ensures n <= |s|
    ensures forall i | 0 <= i < n :: IsSpace(s[i])
    ensures n < |s| ==> !IsSpace(s[n])
  {
    if s != [] && IsSpace(s[0]) then
      var n := LeadingSpace(s[1..]);
      assert forall i | 0 < i <= n :: s[i] == s[1..][i - 1];
      n + 1
    else 0
  }

  /** How many white-space characters `s` ends with. */
  function TrailingSpace(s: string): (n: nat)
    ensures n <= |s|
    ensures forall i | |s| - n <= i < |s| :: IsSpace(s[i])
    ensures n < |s| ==> !IsSpace(s[|s| - n - 1])
  {
    if s != [] && IsSpace(s[|s| - 1]) then
      var n := TrailingSpace(s[..|s| - 1]);
      assert forall i | |s| - 1 - n <= i < |s| - 1 :: s[i] == s[..|s| - 1][i];
      n + 1
    else 0
  }

  /**
   * `s.trim()`: `s` with its leading and trailing white space removed, that is, the infix
   * `s[a..b]` with only white space before `a` and after `b` that neither starts nor ends
   * with white space.
   */
  function Trim(s: string): (r: string)
    ensures r == "" <==> Blank(s)
    ensures r != [] ==> !IsSpace(r[0]) && !IsSpace(r[|r| - 1])
    ensures exists a, b | 0 <= a <= b <= |s| :: r == s[a..b] && Blank(s[..a]) && Blank(s[b..])
  {
    var a := LeadingSpace(s);
    if a == |s| then
      assert s[..a] == s && s[a..a] == "";
      ""
    else
      var n := TrailingSpace(s);
      var b := |s| - n;
      assert a < b;
      assert Blank(s[..a]) by {
        assert forall i | 0 <= i < a :: s[..a][i] == s[i];
      }
      assert Blank(s[b..]) by {
        assert forall i | 0 <= i < n :: s[b..][i] == s[b + i];
      }
      assert s[a..b][0] == s[a] && s[a..b][b - a - 1] == s[b - 1];
      s[a..b]
  }

  /** The string holds no line feed. */
  predicate OneLine(s: string) {
    forall i | 0 <= i < |s| :: s[i] != '\n'
  }

  lemma OneLineAppend(a: string, b: string)
    ensures OneLine(a + b) <==> OneLine(a) && OneLine(b)
  {
    assert forall i | 0 <= i < |a| :: a[i] == (a + b)[i];
    assert forall i | 0 <= i < |b| :: b[i] == (a + b)[|a| + i];
  }

  predicate StartsWith(s: string, prefix: string) {
    |prefix| <= |s| && s[..|prefix|] == prefix
  }

  /** `s.slice(k)` for `k >= 0`: a start past the end gives the empty string. */
  function Slice(s: string, k: nat): (r: string)
    ensures k <= |s| ==> |r| == |s| - k && forall i | 0 <= i < |r| :: r[i] == s[k + i]
    ensures k <= |s| ==> s[..k] + r == s
    ensures k >= |s| ==> r == ""
  {
    if k <= |s| then s[k..] else ""
  }

  /** The value of `s.length`: code points outside the BMP count two UTF-16 code units. */
  function Utf16Length(s: string): (n: nat)
    ensures |s| <= n <= 2 * |s|
    ensures (forall i | 0 <= i < |s| :: s[i] as int <= 0xFFFF) ==> n == |s|
  {
    if s == [] then 0
    else Utf16Length(s[..|s| - 1]) + (if s[|s| - 1] as int > 0xFFFF then 2 else 1)
  }

  /** `toLowerCase` on ASCII letters; every other character is left as it is. */
  function LowerChar(c: char): char {
    if 'A' <= c <= 'Z' then (c as int + 32) as char else c
  }

  function Lower(s: string): (r: string)
    ensures |r| == |s| && forall i | 0 <= i < |s| :: r[i] == LowerChar(s[i])
    ensures forall i | 0 <= i < |r| :: !('A' <= r[i] <= 'Z')
    ensures forall i | 0 <= i < |s| :: r[i] == s[i] || 'A' <= s[i] <= 'Z'
  {
    seq(|s|, i requires 0 <= i < |s| => LowerChar(s[i]))
  }

  /** Lower-casing twice is lower-casing once. */
  lemma LowerIdempotent(s: string)
    ensures Lower(Lower(s)) == Lower(s)
  {
  }

  /** `parts.join("")`. */
  function Concat(parts: seq<string>): string {
    if parts == [] then "" else Concat(parts[..|parts| - 1]) + parts[|parts| - 1]
  }

  lemma {:induction false} ConcatAppend(a: seq<string>, b: seq<string>)
    ensures Concat(a + b) == Concat(a) + Concat(b)
    decreases |b|
  {
    if b == [] {
      assert a + b == a;
    } else {
      InitOfAppend(a, b);
      ConcatAppend(a, b[..|b| - 1]);
    }
  }

  /** The concatenation around piece `i`: the pieces before it, it, and those after it. */
  lemma ConcatAround(parts: seq<string>, i: nat)
    requires i < |parts|
    ensures Concat(parts) == Concat(parts[..i]) + parts[i] + Concat(parts[i + 1..])
  {
    var upto := parts[..i + 1];
    CutAfter(parts, i);
    ConcatAppend(upto, parts[i + 1..]);
  }

  /** `sep` occurs in `s` starting at index `k`. */
  predicate OccursAt(s: string, sep: string, k: int) {
    0 <= k && k + |sep| <= |s| && s[k..k + |sep|] == sep
  }

  predicate Free(s: string, sep: string) {
    forall k | 0 <= k <= |s| :: !OccursAt(s, sep, k)
  }

  /** `s.indexOf(sep)`, with `None` for -1: an occurrence of `sep`, the first one (`IndexOfFirst`). */
  function IndexOf(s: string, sep: string): (r: Option<nat>)
    requires |sep| > 0
    ensures r.Some? ==> OccursAt(s, sep, r.value)
  {
    IndexFrom(s, sep, 0)
  }

  /** The search of `indexOf` from position `i` on. */
  function IndexFrom(s: string, sep: string, i: nat): (r: Option<nat>)
    requires |sep| > 0
    ensures r.Some? ==> i <= r.value && OccursAt(s, sep, r.value)
    decreases |s| - i
  {
    if i + |sep| > |s| then None
    else if s[i..i + |sep|] == sep then Some(i)
    else IndexFrom(s, sep, i + 1)
  }

  lemma {:induction false} IndexFromFirst(s: string, sep: string, i: nat)
    requires |sep| > 0
    ensures IndexFrom(s, sep, i).Some? ==> forall k | i <= k < IndexFrom(s, sep, i).value :: !OccursAt(s, sep, k)
    ensures IndexFrom(s, sep, i).None? <==> forall k | i <= k <= |s| :: !OccursAt(s, sep, k)
    decreases |s| - i
  {
    if i + |sep| <= |s| && s[i..i + |sep|] != sep {
      IndexFromFirst(s, sep, i + 1);
    }
  }

  /** `indexOf` finds the first occurrence, and -1 means `sep` does not occur at all. */
  lemma IndexOfFirst(s: string, sep: string)
    requires |sep| > 0
    ensures IndexOf(s, sep).Some? ==> forall k | 0 <= k < IndexOf(s, sep).value :: !OccursAt(s, sep, k)
    ensures IndexOf(s, sep).None? <==> Free(s, sep)
  {
    IndexFromFirst(s, sep, 0);
  }

  /** The first occurrence is unique: any index with the properties of `IndexOf` is its result. */
  lemma FirstOccurrence(s: string, sep: string, k: nat)
    requires |sep| > 0
    requires OccursAt(s, sep, k) && forall j | 0 <= j < k :: !OccursAt(s, sep, j)
    ensures IndexOf(s, sep) == Some(k)
  {
    IndexOfFirst(s, sep);
  }

  /** `s.split(sep)` for a non-empty separator: left to right, non-overlapping. */
  function Split(s: string, sep: string): (parts: seq<string>)
    requires |sep| > 0
    ensures |parts| >= 1
    decreases |s|
  {
    match IndexOf(s, sep)
    case None => [s]
    case Some(k) => [s[..k]] + Split(s[k + |sep|..], sep)
  }

  /** Only the last piece of a split can contain the separator (when it overlaps itself it cannot). */
  lemma {:induction false} SplitPiecesFree(s: string, sep: string, i: nat)
    requires |sep| > 0 && i < |Split(s, sep)| - 1
    ensures Free(Split(s, sep)[i], sep)
    decreases |s|
  {
    match IndexOf(s, sep)
    case None =>
    case Some(k) =>
      var t := s[k + |sep|..];
      SplitCut(s, sep, k);
      if i == 0 {
        assert Split(s, sep)[0] == s[..k];
        BeforeFirstFree(s, sep, k);
      } else {
        assert Split(s, sep)[i] == Split(t, sep)[i - 1];
        SplitPiecesFree(t, sep, i - 1);
      }
  }

  /** With the first separator at `k`, the split cuts `s` at `k` and goes on after the separator. */
  lemma SplitCut(s: string, sep: string, k: nat)
    requires |sep| > 0 && IndexOf(s, sep) == Some(k)
    ensures Split(s, sep) == [s[..k]] + Split(s[k + |sep|..], sep)
  {
  }

  /** The text is the piece before the separator, the separator and the text after it. */
  lemma CutAround(s: string, sep: string, k: nat)
    requires OccursAt(s, sep, k)
    ensures s[..k] + sep + s[k + |sep|..] == s
  {
    assert s == s[..k] + s[k..k + |sep|] + s[k + |sep|..];
  }

  /** The text before the first separator holds none. */
  lemma BeforeFirstFree(s: string, sep: string, k: nat)
    requires |sep| > 0 && IndexOf(s, sep) == Some(k)
    ensures Free(s[..k], sep)
  {
    IndexOfFirst(s, sep);
    forall j | 0 <= j <= k ensures !OccursAt(s[..k], sep, j) {
      if j + |sep| <= k {
        assert s[..k] + s[k..] == s;
        OccursAtPrefix(s[..k], s[k..], sep, j);
      }
    }
  }

  /** Whether `sep` occurs at `j` does not depend on text after the occurrence. */
  lemma OccursAtPrefix(s: string, c: string, sep: string, j: int)
    requires 0 <= j && j + |sep| <= |s|
    ensures OccursAt(s + c, sep, j) == OccursAt(s, sep, j)
  {
    assert (s + c)[j..j + |sep|] == s[j..j + |sep|];
  }

  /** `parts.join(sep)`. */
  function Join(parts: seq<string>, sep: string): string
    requires |parts| >= 1
  {
    if |parts| == 1 then parts[0] else parts[0] + sep + Join(parts[1..], sep)
  }

  /** Joining the pieces of a split with the separator gives back the string. */
  lemma {:induction false} JoinSplit(s: string, sep: string)
    requires |sep| > 0
    ensures Join(Split(s, sep), sep) == s
    decreases |s|
  {
    match IndexOf(s, sep)
    case None =>
      SplitNone(s, sep);
    case Some(k) =>
      var t := s[k + |sep|..];
      SplitCut(s, sep, k);
      CutAround(s, sep, k);
      JoinSplit(t, sep);
      JoinCons(s[..k], Split(t, sep), sep);
  }

  lemma JoinCons(x: string, rest: seq<string>, sep: string)
    requires |rest| >= 1
    ensures Join([x] + rest, sep) == x + sep + Join(rest, sep)
  {
    assert ([x] + rest)[1..] == rest;
  }

  /** A separator found inside `s` is still the first one found inside `s + c`. */
  lemma IndexOfExtend(s: string, c: string, sep: string, k: nat)
    requires |sep| > 0 && IndexOf(s, sep) == Some(k)
    ensures IndexOf(s + c, sep) == Some(k)
  {
    IndexOfFirst(s, sep);
    OccursAtPrefix(s, c, sep, k);
    forall j | 0 <= j < k ensures !OccursAt(s + c, sep, j) {
      OccursAtPrefix(s, c, sep, j);
    }
    FirstOccurrence(s + c, sep, k);
  }

  /**
   * Splitting text that arrives in two pieces: the complete pieces of the first
   * part are kept, and its trailing piece is split again together with the second part.
   */
  lemma {:induction false} SplitAppend(s: string, c: string, sep: string)
    requires |sep| > 0
    ensures var p := Split(s, sep);
      Split(s + c, sep) == p[..|p| - 1] + Split(p[|p| - 1] + c, sep)
    decreases |s|
  {
    match IndexOf(s, sep)
    case None =>
      SplitNone(s, sep);
      assert [s][..0] + Split(s + c, sep) == Split(s + c, sep);
    case Some(k) =>
      var t := s[k + |sep|..];
      SplitStep(s, c, sep, k);
      SplitAppend(t, c, sep);
      var q := Split(t, sep);
      ConsButLast(s[..k], q, Split(q[|q| - 1] + c, sep));
  }

  /** With the first separator of `s` at `k`, both `s` and `s + c` cut there. */
  lemma SplitStep(s: string, c: string, sep: string, k: nat)
    requires |sep| > 0 && IndexOf(s, sep) == Some(k)
    ensures Split(s, sep) == [s[..k]] + Split(s[k + |sep|..], sep)
    ensures Split(s + c, sep) == [s[..k]] + Split(s[k + |sep|..] + c, sep)
  {
    IndexOfExtend(s, c, sep, k);
    SplitCut(s, sep, k);
    SplitCut(s + c, sep, k);
    assert (s + c)[k + |sep|..] == s[k + |sep|..] + c;
    assert (s + c)[..k] == s[..k];
  }

  /** Without a separator, `s` is one piece. */
  lemma SplitNone(s: string, sep: string)
    requires |sep| > 0 && IndexOf(s, sep).None?
    ensures Split(s, sep) == [s]
  {
  }

  lemma ConsButLast(x: string, q: seq<string>, y: seq<string>)
    requires |q| >= 1
    ensures var p := [x] + q; p[..|p| - 1] + y == [x] + (q[..|q| - 1] + y) && p[|p| - 1] == q[|q| - 1]
  {
    assert ([x] + q)[..|q|] == [x] + q[..|q| - 1];
  }

  /** The trailing piece of a split contains no separator, so splitting it again gives it back whole. */
  lemma {:induction false} SplitLast(s: string, sep: string)
    requires |sep| > 0
    ensures var p := Split(s, sep); Split(p[|p| - 1], sep) == [p[|p| - 1]]
    decreases |s|
  {
    match IndexOf(s, sep)
    case None =>
      SplitNone(s, sep);
    case Some(k) =>
      var rest := Split(s[k + |sep|..], sep);
      SplitCut(s, sep, k);
      var p := Split(s, sep);
      assert p[|p| - 1] == rest[|rest| - 1];
      SplitLast(s[k + |sep|..], sep);
  }

  /** The character of decimal digit `d`. */
  function Digit(d: nat): char
    requires d < 10
  {
    (48 + d) as char
  }

  /** The number a string of decimal digits denotes. */
  function DigitsValue(s: string): int {
    if s == [] then 0 else DigitsValue(s[..|s| - 1]) * 10 + (s[|s| - 1] as int - 48)
  }

  /** `String(n)` for a natural number: its decimal digits, with no leading zero. */
  function NatToString(n: nat): (r: string)
    ensures r != [] && forall i | 0 <= i < |r| :: '0' <= r[i] <= '9'
    ensures n > 0 ==> r[0] != '0'
  {
    if n < 10 then [Digit(n)] else NatToString(n / 10) + [Digit(n % 10)]
  }

  /** The digits of `n` denote `n`. */
  lemma {:induction false} NatToStringValue(n: nat)
    ensures DigitsValue(NatToString(n)) == n
  {
    if n >= 10 {
      NatToStringValue(n / 10);
      var s := NatToString(n / 10);
      assert (s + [Digit(n % 10)])[..|s|] == s;
    }
  }

}
