/**
 * The bag-of-words embedder (`getEmbedding`): the text is lower-cased, every character other
 * than an ASCII letter, a digit or white space is removed, the rest is cut at runs of white
 * space, and the vector holds, for each distinct word in order of first appearance, how often
 * it occurs.
 */
module Embedding {
  import opened Wrappers
  import opened JsString
  import opened Sequences

  /** The characters the `replace` keeps: `[a-z0-9\s]`, letters in either case (flag `i`). */
  predicate Kept(c: char) {
    ('a' <= c <= 'z') || ('A' <= c <= 'Z') || ('0' <= c <= '9') || IsSpace(c)
  }

  /** `replace(/[^a-z0-9\s]/gi, "")`. */
  function Clean(s: string): (r: string)
    ensures forall i | 0 <= i < |r| :: Kept(r[i])
    ensures |r| <= |s|
    ensures (forall i | 0 <= i < |s| :: Kept(s[i])) ==> r == s
  {
    if s == [] then []
    else Clean(s[..|s| - 1]) + (if Kept(s[|s| - 1]) then [s[|s| - 1]] else [])
  }

  /** The replacement works character by character: it keeps order, and keeps a character exactly when it is kept. */
  lemma {:induction false} CleanAppend(a: string, b: string, c: char)
    ensures Clean(a + b) == Clean(a) + Clean(b)
    ensures Clean([c]) == if Kept(c) then [c] else []
    decreases |b|
  {
    assert [c][..0] == [];
    if b == [] {
      assert a + b == a;
    } else {
      var init, last := b[..|b| - 1], b[|b| - 1];
      var tail := if Kept(last) then [last] else [];
      InitOfAppend(a, b);
      CleanAppend(a, init, c);
      AppendAssoc(Clean(a), Clean(init), tail);
    }
  }

  /** The length of the run of non-space characters `s` starts with. */
  function RunLength(s: string): (n: nat)
    ensures n <= |s|
    ensures forall i | 0 <= i < n :: !IsSpace(s[i])
    ensures n < |s| ==> IsSpace(s[n])
  {
    if s == [] || IsSpace(s[0]) then 0 else 1 + RunLength(s[1..])
  }

  /** A word: non-empty and free of white space. */
  predicate Word(w: string) {
    w != [] && forall i | 0 <= i < |w| :: !IsSpace(w[i])
  }

  /** `split(/\s+/).filter(Boolean)`: the maximal runs of non-space characters, in order. */
  function Words(s: string): (ws: seq<string>)
    ensures forall k | 0 <= k < |ws| :: Word(ws[k])
    decreases |s|
  {
    if s == [] then []
    else if IsSpace(s[0]) then Words(s[1..])
    else
      var n := RunLength(s);
      [s[..n]] + Words(s[n..])
  }

  /** A run of non-space characters ends where a white-space character follows it. */
  lemma {:induction false} RunLengthBefore(a: string, c: char, b: string)
    requires IsSpace(c)
    ensures RunLength(a + [c] + b) == RunLength(a)
    decreases |a|
  {
    if a == [] {
      assert (a + [c] + b)[0] == c;
    } else if !IsSpace(a[0]) {
      assert (a + [c] + b)[1..] == a[1..] + [c] + b;
      RunLengthBefore(a[1..], c, b);
    }
  }

  /** A word on its own is its only word. */
  lemma WordsOfWord(w: string)
    requires Word(w)
    ensures Words(w) == [w]
  {
    var n := RunLength(w);
    assert n == |w|;
    assert w[..n] == w && w[n..] == [];
  }

  /** Words on either side of a white-space character are the words of each side, in order. */
  lemma {:induction false} WordsAppend(a: string, c: char, b: string)
    requires IsSpace(c)
    ensures Words(a + [c] + b) == Words(a) + Words(b)
    decreases |a|
  {
    var s := a + [c] + b;
    if a == [] {
      assert s[1..] == b;
    } else if IsSpace(a[0]) {
      assert s[1..] == a[1..] + [c] + b;
      WordsAppend(a[1..], c, b);
    } else {
      var n := RunLength(a);
      RunLengthBefore(a, c, b);
      assert s[..n] == a[..n];
      assert s[n..] == a[n..] + [c] + b;
      WordsAppend(a[n..], c, b);
      AppendAssoc([a[..n]], Words(a[n..]), Words(b));
    }
  }

  /** The characters of the words all come from `s`. */
  lemma {:induction false} WordsFrom(s: string, k: nat, i: nat)
    requires k < |Words(s)| && i < |Words(s)[k]|
    ensures Words(s)[k][i] in s
    decreases |s|
  {
    if s != [] {
      if IsSpace(s[0]) {
        WordsFrom(s[1..], k, i);
        assert Words(s)[k][i] in s[1..];
      } else {
        var n := RunLength(s);
        if k == 0 {
          assert Words(s)[0] == s[..n];
        } else {
          WordsFrom(s[n..], k - 1, i);
          assert Words(s)[k] == Words(s[n..])[k - 1];
        }
      }
    }
  }

  /** Text of white space alone has no words. */
  lemma {:induction false} BlankHasNoWords(s: string)
    requires Blank(s)
    ensures Words(s) == []
    decreases |s|
  {
    if s != [] {
      BlankHasNoWords(s[1..]);
    }
  }

  /** `tokenize` (lines 15-21). */
  function Tokenize(text: string): seq<string> {
    Words(Clean(Lower(text)))
  }

  predicate LowerAlnum(c: char) {
    ('a' <= c <= 'z') || ('0' <= c <= '9')
  }

  /** Every token is non-empty and made of lower-case ASCII letters and digits. */
  lemma TokensAreAlnum(text: string, k: nat)
    requires k < |Tokenize(text)|
    ensures Tokenize(text)[k] != []
    ensures forall i | 0 <= i < |Tokenize(text)[k]| :: LowerAlnum(Tokenize(text)[k][i])
  {
    var c := Clean(Lower(text));
    var w := Tokenize(text)[k];
    forall i | 0 <= i < |w| ensures LowerAlnum(w[i]) {
      WordsFrom(c, k, i);
      var j :| 0 <= j < |c| && c[j] == w[i];
      assert Kept(c[j]);
      assert !('A' <= w[i] <= 'Z') by {
        CleanFromLower(text, j);
      }
    }
  }

  /** After lower-casing, the cleaned text holds no upper-case ASCII letter. */
  lemma CleanFromLower(text: string, j: nat)
    requires j < |Clean(Lower(text))|
    ensures !('A' <= Clean(Lower(text))[j] <= 'Z')
  {
    CleanKeepsFrom(Lower(text), j);
  }

  /** Every character of the cleaned text is a character of the text. */
  lemma {:induction false} CleanKeepsFrom(s: string, j: nat)
    requires j < |Clean(s)|
    ensures Clean(s)[j] in s
  {
    var init := s[..|s| - 1];
    if j < |Clean(init)| {
      CleanKeepsFrom(init, j);
      assert Clean(s)[j] == Clean(init)[j];
    } else {
      assert Clean(s)[j] == s[|s| - 1];
    }
  }

  /** Text with no ASCII letter or digit, such as Arabic text, has no tokens. */
  lemma NoAsciiNoTokens(text: string)
    requires forall i | 0 <= i < |text| :: !(('a' <= text[i] <= 'z') || ('A' <= text[i] <= 'Z') || ('0' <= text[i] <= '9'))
    ensures Tokenize(text) == []
  {
    var c := Clean(Lower(text));
    forall j | 0 <= j < |c| ensures IsSpace(c[j]) {
      CleanKeepsFrom(Lower(text), j);
      var i :| 0 <= i < |text| && Lower(text)[i] == c[j];
    }
    BlankHasNoWords(c);
  }

  /** Two characters that are equal, or the same ASCII letter in upper and lower case. */
  predicate SameUpToCase(x: char, y: char) {
    || x == y
    || ('A' <= x <= 'Z' && y as int == x as int + 32)
    || ('a' <= x <= 'z' && y as int == x as int - 32)
  }

  /** Texts that differ only in the case of ASCII letters have the same embedding (the `toLowerCase` at line 17). */
  lemma TokensIgnoreCase(a: string, b: string)
    requires |a| == |b| && forall i | 0 <= i < |a| :: SameUpToCase(a[i], b[i])
    ensures Tokenize(a) == Tokenize(b)
    ensures GetEmbedding(a) == GetEmbedding(b)
  {
    assert Lower(a) == Lower(b) by {
      forall i | 0 <= i < |a| ensures Lower(a)[i] == Lower(b)[i] {
        assert LowerChar(a[i]) == LowerChar(b[i]);
      }
    }
  }

  /** `Array.from(new Set(tokens))`: each token once, in order of first appearance. */
  function Distinct(ts: seq<string>): (r: seq<string>)
    ensures forall w :: w in r <==> w in ts
    ensures forall i, j | 0 <= i < j < |r| :: r[i] != r[j]
  {
    if ts == [] then []
    else
      var d := Distinct(ts[..|ts| - 1]);
      assert forall w :: w in ts <==> w in ts[..|ts| - 1] || w == ts[|ts| - 1];
      if ts[|ts| - 1] in d then d else d + [ts[|ts| - 1]]
  }

  /** The position where `w` first occurs. */
  function FirstIndex(ts: seq<string>, w: string): (k: nat)
    requires w in ts
    ensures k < |ts| && ts[k] == w && forall j | 0 <= j < k :: ts[j] != w
  {
    if ts[0] == w then 0 else 1 + FirstIndex(ts[1..], w)
  }

  /** The distinct tokens follow the order of first appearance. */
  lemma {:induction false} DistinctInOrder(ts: seq<string>, i: nat, j: nat)
    requires i < j < |Distinct(ts)|
    ensures FirstIndex(ts, Distinct(ts)[i]) < FirstIndex(ts, Distinct(ts)[j])
  {
    var init := ts[..|ts| - 1];
    var d := Distinct(init);
    var r := Distinct(ts);
    FirstIndexPrefix(init, ts, r[i]);
    if j < |d| {
      DistinctInOrder(init, i, j);
      FirstIndexPrefix(init, ts, r[j]);
    } else {
      assert r[j] == ts[|ts| - 1] && r[j] !in init;
      assert FirstIndex(ts, r[j]) == |ts| - 1;
    }
  }

  lemma FirstIndexPrefix(init: seq<string>, ts: seq<string>, w: string)
    requires init <= ts && w in init
    ensures FirstIndex(ts, w) == FirstIndex(init, w)
  {
    var k := FirstIndex(init, w);
    assert ts[k] == init[k];
    assert forall j | 0 <= j < k :: ts[j] == init[j];
    FirstIndexUnique(ts, w, k);
  }

  lemma {:induction false} FirstIndexUnique(ts: seq<string>, w: string, k: nat)
    requires k < |ts| && ts[k] == w && forall j | 0 <= j < k :: ts[j] != w
    ensures FirstIndex(ts, w) == k
  {
    if k > 0 {
      assert ts[0] != w;
      assert forall j | 0 <= j < k - 1 :: ts[1..][j] == ts[j + 1];
      FirstIndexUnique(ts[1..], w, k - 1);
    }
  }

  /** `countOccurrences` (lines 23-25). */
  function Count(w: string, ts: seq<string>): (n: nat)
    ensures n <= |ts|
    ensures n > 0 <==> w in ts
  {
    if ts == [] then 0
    else
      var init := ts[..|ts| - 1];
      assert ts == init + [ts[|ts| - 1]];
      Count(w, init) + (if ts[|ts| - 1] == w then 1 else 0)
  }

  /** The count of a word is the number of its occurrences among the tokens. */
  lemma {:induction false} CountOccurrences(w: string, ts: seq<string>)
    ensures Count(w, ts) == multiset(ts)[w]
  {
    if ts != [] {
      var init := ts[..|ts| - 1];
      assert ts == init + [ts[|ts| - 1]];
      CountOccurrences(w, init);
    }
  }

  function Sum(v: seq<nat>): nat {
    if v == [] then 0 else Sum(v[..|v| - 1]) + v[|v| - 1]
  }

  /** The map at line 10: the count of each word. */
  function Counts(words: seq<string>, ts: seq<string>): (v: seq<nat>)
    ensures |v| == |words| && forall i | 0 <= i < |words| :: v[i] == Count(words[i], ts)
  {
    seq(|words|, i requires 0 <= i < |words| => Count(words[i], ts))
  }

  /** `getEmbedding` (lines 1-13): the empty string is refused. */
  function GetEmbedding(text: string): (r: Option<seq<nat>>)
    ensures r.None? <==> text == ""
    ensures r.Some? ==>
      var ts := Tokenize(text);
      && |r.value| == |Distinct(ts)|
      && forall i | 0 <= i < |r.value| :: r.value[i] == Count(Distinct(ts)[i], ts) && r.value[i] >= 1
  {
    if text == "" then None
    else
      var ts := Tokenize(text);
      Some(Counts(Distinct(ts), ts))
  }

  /** The counts of `x` over a sequence of distinct words: one if `x` is among them, else zero. */
  lemma {:induction false} SumIndicator(words: seq<string>, x: string)
    requires forall i, j | 0 <= i < j < |words| :: words[i] != words[j]
    ensures Sum(Counts(words, [x])) == if x in words then 1 else 0
  {
    if words != [] {
      var init := words[..|words| - 1];
      SumIndicator(init, x);
      assert Counts(words, [x])[..|init|] == Counts(init, [x]);
      assert [x][..0] == [];
      if words[|words| - 1] == x {
        assert x !in init;
      }
    }
  }

  lemma {:induction false} SumAdd(words: seq<string>, ts: seq<string>, x: string)
    ensures Sum(Counts(words, ts + [x])) == Sum(Counts(words, ts)) + Sum(Counts(words, [x]))
  {
    if words != [] {
      var init := words[..|words| - 1];
      SumAdd(init, ts, x);
      assert Counts(words, ts + [x])[..|init|] == Counts(init, ts + [x]);
      assert Counts(words, ts)[..|init|] == Counts(init, ts);
      assert Counts(words, [x])[..|init|] == Counts(init, [x]);
      assert (ts + [x])[..|ts|] == ts;
      assert [x][..0] == [];
    }
  }

  /** The entries add up to the number of tokens. */
  lemma {:induction false} CountsSum(ts: seq<string>)
    ensures Sum(Counts(Distinct(ts), ts)) == |ts|
  {
    if ts != [] {
      var init, x := ts[..|ts| - 1], ts[|ts| - 1];
      var d := Distinct(init);
      CountsSum(init);
      assert ts == init + [x];
      SumAdd(d, init, x);
      SumIndicator(d, x);
      if x !in d {
        assert Count(x, init) == 0;
        SumSnoc(d, x, ts);
      }
    }
  }

  /** Appending a word to the list adds its count to the sum. */
  lemma SumSnoc(words: seq<string>, x: string, ts: seq<string>)
    ensures Sum(Counts(words + [x], ts)) == Sum(Counts(words, ts)) + Count(x, ts)
  {
    assert Counts(words + [x], ts)[..|words|] == Counts(words, ts);
  }
}
