/**
 * Verse retrieval by cosine similarity (`findSimilarVerses`, in the server action and in its
 * client-side copy, which compute the same thing): every index record is scored against the
 * query embedding, the scored records are sorted by descending similarity with a stable sort,
 * and the first five are returned.
 *
 * Arithmetic is on `real`; `Math.sqrt` is the parameter `sqrt`, about which nothing is assumed.
 */
module Retrieval {
  import opened Sequences

  /** One entry of `bible_index.json`. */
  datatype IndexRecord = IndexRecord(book: string, chapter: int, verse: int, text: string, embedding: seq<real>)

  /** A record of the result: the verse's fields and its similarity to the query. */
  datatype Scored = Scored(book: string, chapter: int, verse: int, text: string, similarity: real)

  /** The `reduce` computing the dot product of two vectors of the same length. */
  function Dot(a: seq<real>, b: seq<real>): real
    requires |a| == |b|
  {
    if a == [] then 0.0 else Dot(a[..|a| - 1], b[..|b| - 1]) + a[|a| - 1] * b[|b| - 1]
  }

  /** The `reduce` computing the sum of squares, which is never negative. */
  function SumSquares(a: seq<real>): (r: real)
    ensures r >= 0.0
  {
    if a == [] then 0.0 else SumSquares(a[..|a| - 1]) + a[|a| - 1] * a[|a| - 1]
  }

  /** `cosineSimilarity`: zero when either magnitude is zero, otherwise the dot product over both magnitudes. */
  function Cosine(a: seq<real>, b: seq<real>, sqrt: real -> real): (r: real)
    requires |a| == |b|
    ensures sqrt(SumSquares(a)) == 0.0 || sqrt(SumSquares(b)) == 0.0 ==> r == 0.0
    ensures sqrt(SumSquares(a)) != 0.0 && sqrt(SumSquares(b)) != 0.0 ==>
      r * (sqrt(SumSquares(a)) * sqrt(SumSquares(b))) == Dot(a, b)
  {
    var magA := sqrt(SumSquares(a));
    var magB := sqrt(SumSquares(b));
    if magA == 0.0 || magB == 0.0 then 0.0
    else
      ProductNonZero(magA, magB);
      Dot(a, b) / (magA * magB)
  }

  lemma ProductNonZero(x: real, y: real)
    requires x != 0.0 && y != 0.0
    ensures x * y != 0.0
  {
  }

  lemma {:induction false} DotSymmetric(a: seq<real>, b: seq<real>)
    requires |a| == |b|
    ensures Dot(a, b) == Dot(b, a)
  {
    if a != [] {
      DotSymmetric(a[..|a| - 1], b[..|b| - 1]);
    }
  }

  /** Cosine similarity does not depend on the order of its arguments. */
  lemma CosineSymmetric(a: seq<real>, b: seq<real>, sqrt: real -> real)
    requires |a| == |b|
    ensures Cosine(a, b, sqrt) == Cosine(b, a, sqrt)
  {
    DotSymmetric(a, b);
  }

  /** The `map` at lines 20-23: the record's fields and its similarity to the query. */
  function Score(query: seq<real>, r: IndexRecord, sqrt: real -> real): Scored
    requires |r.embedding| == |query|
  {
    Scored(r.book, r.chapter, r.verse, r.text, Cosine(query, r.embedding, sqrt))
  }

  predicate Comparable(query: seq<real>, data: seq<IndexRecord>) {
    forall i | 0 <= i < |data| :: |data[i].embedding| == |query|
  }

  function ScoreAll(query: seq<real>, data: seq<IndexRecord>, sqrt: real -> real): (r: seq<Scored>)
    requires Comparable(query, data)
    ensures |r| == |data|
    ensures forall i | 0 <= i < |data| :: r[i] == Score(query, data[i], sqrt)
  {
    seq(|data|, i requires 0 <= i < |data| => Score(query, data[i], sqrt))
  }

  /** Non-increasing similarity. */
  predicate Descending(s: seq<Scored>) {
    forall i, j | 0 <= i < j < |s| :: s[i].similarity >= s[j].similarity
  }

  /** The records with similarity `v`, in order. */
  function WithScore(s: seq<Scored>, v: real): seq<Scored> {
    if s == [] then []
    else WithScore(s[..|s| - 1], v) + (if s[|s| - 1].similarity == v then [s[|s| - 1]] else [])
  }

  /**
   * Inserting into a descending sequence: `x` goes after every record scoring at least as
   * much, so it follows the records of equal score already there.
   */
  function Insert(x: Scored, ys: seq<Scored>): (r: seq<Scored>)
    ensures |r| == |ys| + 1
  {
    if ys == [] then [x]
    else if ys[0].similarity >= x.similarity then [ys[0]] + Insert(x, ys[1..])
    else [x] + ys
  }

  /** Insertion adds `x` and loses nothing. */
  lemma {:induction false} InsertMultiset(x: Scored, ys: seq<Scored>)
    ensures multiset(Insert(x, ys)) == multiset(ys) + multiset{x}
  {
    if ys != [] {
      assert ys == [ys[0]] + ys[1..];
      if ys[0].similarity >= x.similarity {
        InsertMultiset(x, ys[1..]);
      }
    }
  }

  /** Every record of the result is `x` or a record of `ys`. */
  lemma {:induction false} InsertFrom(x: Scored, ys: seq<Scored>, k: nat)
    requires k < |Insert(x, ys)|
    ensures Insert(x, ys)[k] == x || Insert(x, ys)[k] in ys
  {
    if ys != [] && ys[0].similarity >= x.similarity && k > 0 {
      InsertFrom(x, ys[1..], k - 1);
      assert Insert(x, ys)[k] == Insert(x, ys[1..])[k - 1];
    }
  }

  /** A record scoring at least as much as every record of a descending sequence can go in front. */
  lemma DescendingCons(y: Scored, rest: seq<Scored>)
    requires Descending(rest)
    requires forall k | 0 <= k < |rest| :: rest[k].similarity <= y.similarity
    ensures Descending([y] + rest)
  {
    var r := [y] + rest;
    forall i, j | 0 <= i < j < |r| ensures r[i].similarity >= r[j].similarity {
      assert r[j] == rest[j - 1];
      if i > 0 {
        assert r[i] == rest[i - 1];
      }
    }
  }

  /** Insertion keeps a sequence descending. */
  lemma {:induction false} InsertDescending(x: Scored, ys: seq<Scored>)
    requires Descending(ys)
    ensures Descending(Insert(x, ys))
  {
    if ys != [] {
      if ys[0].similarity >= x.similarity {
        var rest := Insert(x, ys[1..]);
        DescendingTail(ys);
        InsertDescending(x, ys[1..]);
        forall k | 0 <= k < |rest| ensures rest[k].similarity <= ys[0].similarity {
          InsertFrom(x, ys[1..], k);
        }
        DescendingCons(ys[0], rest);
      } else {
        assert forall k | 0 <= k < |ys| :: ys[k].similarity <= ys[0].similarity;
        DescendingCons(x, ys);
      }
    }
  }

  lemma {:induction false} WithScoreAppend(a: seq<Scored>, b: seq<Scored>, v: real)
    ensures WithScore(a + b, v) == WithScore(a, v) + WithScore(b, v)
    decreases |b|
  {
    if b == [] {
      assert a + b == a;
    } else {
      InitOfAppend(a, b);
      WithScoreAppend(a, b[..|b| - 1], v);
    }
  }

  lemma WithScoreOne(x: Scored, v: real)
    ensures WithScore([x], v) == if x.similarity == v then [x] else []
  {
    assert [x][..0] == [];
  }

  /** No record with score `v` is passed over by `Insert`'s stop when `x` scores `v`. */
  lemma {:induction false} WithScoreNone(ys: seq<Scored>, v: real)
    requires forall k | 0 <= k < |ys| :: ys[k].similarity < v
    ensures WithScore(ys, v) == []
  {
    if ys != [] {
      WithScoreNone(ys[..|ys| - 1], v);
    }
  }

  lemma DescendingTail(ys: seq<Scored>)
    requires ys != [] && Descending(ys)
    ensures Descending(ys[1..])
  {
    forall i, j | 0 <= i < j < |ys| - 1 ensures ys[1..][i].similarity >= ys[1..][j].similarity {
      assert ys[1..][i] == ys[i + 1] && ys[1..][j] == ys[j + 1];
    }
  }

  /** In a descending sequence no record scores above the first. */
  lemma DescendingBelowHead(ys: seq<Scored>, v: real)
    requires ys != [] && Descending(ys) && ys[0].similarity < v
    ensures WithScore(ys, v) == []
  {
    assert forall k | 0 <= k < |ys| :: ys[k].similarity <= ys[0].similarity;
    WithScoreNone(ys, v);
  }

  /** Insertion keeps the records of each score in their order, `x` last among its score. */
  lemma {:induction false} InsertStable(x: Scored, ys: seq<Scored>, v: real)
    requires Descending(ys)
    ensures WithScore(Insert(x, ys), v) == WithScore(ys, v) + WithScore([x], v)
    decreases |ys|
  {
    if ys == [] {
      assert WithScore([], v) == [];
    } else if ys[0].similarity >= x.similarity {
      var head, tail := WithScore([ys[0]], v), ys[1..];
      var rest := Insert(x, tail);
      assert WithScore(Insert(x, ys), v) == head + WithScore(rest, v) by {
        assert Insert(x, ys) == [ys[0]] + rest;
        WithScoreAppend([ys[0]], rest, v);
      }
      assert WithScore(rest, v) == WithScore(tail, v) + WithScore([x], v) by {
        DescendingTail(ys);
        InsertStable(x, tail, v);
      }
      assert WithScore(ys, v) == head + WithScore(tail, v) by {
        assert [ys[0]] + tail == ys;
        WithScoreAppend([ys[0]], tail, v);
      }
      AppendAssoc(head, WithScore(tail, v), WithScore([x], v));
    } else {
      assert WithScore(Insert(x, ys), v) == WithScore([x], v) + WithScore(ys, v) by {
        assert Insert(x, ys) == [x] + ys;
        WithScoreAppend([x], ys, v);
      }
      if x.similarity == v {
        assert WithScore(ys, v) == [] by {
          DescendingBelowHead(ys, v);
        }
      } else {
        WithScoreOne(x, v);
      }
    }
  }

  /** Array.prototype.sort with the comparator `b.similarity - a.similarity` (line 28), which is stable. */
  function SortDescending(s: seq<Scored>): (r: seq<Scored>)
    ensures |r| == |s|
  {
    if s == [] then [] else Insert(s[|s| - 1], SortDescending(s[..|s| - 1]))
  }

  /** The sort orders its input by descending similarity. */
  lemma {:induction false} SortDescends(s: seq<Scored>)
    ensures Descending(SortDescending(s))
  {
    if s != [] {
      var init := s[..|s| - 1];
      SortDescends(init);
      InsertDescending(s[|s| - 1], SortDescending(init));
    }
  }

  /** The sort is a permutation of its input. */
  lemma {:induction false} SortPermutes(s: seq<Scored>)
    ensures multiset(SortDescending(s)) == multiset(s)
  {
    if s != [] {
      var init, last := s[..|s| - 1], s[|s| - 1];
      SortPermutes(init);
      InsertMultiset(last, SortDescending(init));
      assert s == init + [last];
    }
  }

  /** The sort is stable: the records of every score keep their order. */
  lemma {:induction false} SortStable(s: seq<Scored>, v: real)
    ensures WithScore(SortDescending(s), v) == WithScore(s, v)
  {
    if s != [] {
      var init := s[..|s| - 1];
      SortStable(init, v);
      SortDescends(init);
      InsertStable(s[|s| - 1], SortDescending(init), v);
      assert s == init + [s[|s| - 1]];
      WithScoreAppend(init, [s[|s| - 1]], v);
    }
  }

  /** How many records are returned: `slice(0, 5)`. */
  const TopCount := 5

  function Min(a: int, b: int): int {
    if a <= b then a else b
  }

  /** `findSimilarVerses` on the index `data` (lines 20-29): as many records as the index has, up to five. */
  function FindSimilarVerses(query: seq<real>, data: seq<IndexRecord>, sqrt: real -> real): (r: seq<Scored>)
    requires Comparable(query, data)
    ensures |r| == Min(|data|, TopCount)
  {
    var sorted := SortDescending(ScoreAll(query, data, sqrt));
    sorted[..Min(|sorted|, TopCount)]
  }

  /**
   * The records returned are in descending similarity, each a distinct scored index record,
   * and no record left out scores above the last one returned.
   */
  lemma TopRanked(query: seq<real>, data: seq<IndexRecord>, sqrt: real -> real)
    requires Comparable(query, data)
    ensures var r := FindSimilarVerses(query, data, sqrt);
      && Descending(r)
      && multiset(r) <= multiset(ScoreAll(query, data, sqrt))
      && (r != [] ==>
        forall x | x in multiset(ScoreAll(query, data, sqrt)) - multiset(r) :: x.similarity <= r[|r| - 1].similarity)
  {
    var all := ScoreAll(query, data, sqrt);
    var sorted := SortDescending(all);
    SortDescends(all);
    SortPermutes(all);
    var k := Min(|sorted|, TopCount);
    var r := sorted[..k];
    assert r == FindSimilarVerses(query, data, sqrt);
    assert sorted == r + sorted[k..];
    PrefixDescending(sorted, k);
    if r != [] {
      OmittedBelow(sorted, k);
    }
  }

  lemma PrefixDescending(s: seq<Scored>, k: nat)
    requires k <= |s| && Descending(s)
    ensures Descending(s[..k])
  {
    forall i, j | 0 <= i < j < k ensures s[..k][i].similarity >= s[..k][j].similarity {
      assert s[..k][i] == s[i] && s[..k][j] == s[j];
    }
  }

  /** Cutting a descending sequence after `k` records leaves out none scoring above the `k`-th. */
  lemma OmittedBelow(s: seq<Scored>, k: nat)
    requires 0 < k <= |s| && Descending(s)
    ensures forall x | x in multiset(s) - multiset(s[..k]) :: x.similarity <= s[k - 1].similarity
  {
    assert s == s[..k] + s[k..];
    assert multiset(s) == multiset(s[..k]) + multiset(s[k..]);
    forall x | x in multiset(s) - multiset(s[..k]) ensures x.similarity <= s[k - 1].similarity {
      assert x in s[k..];
      var j :| 0 <= j < |s[k..]| && s[k..][j] == x;
      assert s[k + j] == x;
    }
  }

  /**
   * Records of equal similarity are returned in index order: those of each score form a prefix
   * of that score's records in the index.
   */
  lemma FindSimilarVersesStable(query: seq<real>, data: seq<IndexRecord>, sqrt: real -> real, v: real)
    requires Comparable(query, data)
    ensures WithScore(FindSimilarVerses(query, data, sqrt), v) <= WithScore(ScoreAll(query, data, sqrt), v)
  {
    var sorted := SortDescending(ScoreAll(query, data, sqrt));
    var k := Min(|sorted|, TopCount);
    assert sorted == sorted[..k] + sorted[k..];
    WithScoreAppend(sorted[..k], sorted[k..], v);
    SortStable(ScoreAll(query, data, sqrt), v);
  }
}
