/**
 * The verse store (`VersesProvider` and `useParseVerses`): the verses currently shown, the
 * verses found in each assistant message, the merged list of every verse found, and the last
 * steps of `parseVersesFromText`, which drop verses of repeated text and store the rest.
 *
 * The four extraction patterns and the indicator patterns are regular expressions; their
 * matches are inputs here.
 */
module VersesContext {
  import opened Wrappers
  import opened JsString
  import opened Sequences

  datatype Verse = Verse(reference: string, text: string, chapter: Option<string>, verse: Option<string>)

  /** The verses stored for one message, with the time they were stored. */
  datatype MessageVerses = MessageVerses(messageId: int, verses: seq<Verse>, timestamp: int)

  // ---------------------------------------------------------------- the per-message table

  /** `prev.filter(mv => mv.messageId !== messageId)` (line 50). */
  function Without(ms: seq<MessageVerses>, id: int): (r: seq<MessageVerses>)
    ensures |r| <= |ms|
    ensures forall k | 0 <= k < |r| :: r[k].messageId != id
    ensures forall m :: m in r <==> m in ms && m.messageId != id
  {
    if ms == [] then []
    else
      var init := ms[..|ms| - 1];
      assert ms == init + [ms[|ms| - 1]];
      Without(init, id) + (if ms[|ms| - 1].messageId != id then [ms[|ms| - 1]] else [])
  }

  /** The filter works entry by entry: it keeps order, and keeps one entry exactly when its id differs. */
  lemma {:induction false} WithoutAppend(a: seq<MessageVerses>, b: seq<MessageVerses>, m: MessageVerses, id: int)
    ensures Without(a + b, id) == Without(a, id) + Without(b, id)
    ensures Without([m], id) == if m.messageId != id then [m] else []
    decreases |b|
  {
    assert [m][..0] == [];
    if b == [] {
      assert a + b == a;
    } else {
      var init, last := b[..|b| - 1], b[|b| - 1];
      var tail: seq<MessageVerses> := if last.messageId != id then [last] else [];
      InitOfAppend(a, b);
      assert Without(a + b, id) == Without(a + init, id) + tail;
      assert Without(b, id) == Without(init, id) + tail;
      WithoutAppend(a, init, m, id);
      AppendAssoc(Without(a, id), Without(init, id), tail);
    }
  }

  /** The table after `setMessageVerses(id, vs)` at time `now` (lines 48-56). */
  function Stored(ms: seq<MessageVerses>, id: int, vs: seq<Verse>, now: int): seq<MessageVerses> {
    Without(ms, id) + (if |vs| > 0 then [MessageVerses(id, vs, now)] else [])
  }

  /** `messageVerses.find(mv => mv.messageId === messageId)` (line 65). */
  function Find(ms: seq<MessageVerses>, id: int): (r: Option<MessageVerses>)
    ensures r.Some? ==> r.value in ms && r.value.messageId == id
    ensures r.None? ==> forall k | 0 <= k < |ms| :: ms[k].messageId != id
    ensures forall k | FirstOfId(ms, id, k) :: r == Some(ms[k])
  {
    if ms == [] then None
    else if ms[0].messageId == id then Some(ms[0])
    else
      assert forall k | FirstOfId(ms, id, k) :: FirstOfId(ms[1..], id, k - 1) && ms[k] == ms[1..][k - 1];
      Find(ms[1..], id)
  }

  /** Entry `k` is the first entry of the table with id `id`. */
  predicate FirstOfId(ms: seq<MessageVerses>, id: int, k: int) {
    0 <= k < |ms| && ms[k].messageId == id && forall j | 0 <= j < k :: ms[j].messageId != id
  }

  /** `getMessageVerses` (lines 64-67). */
  function Lookup(ms: seq<MessageVerses>, id: int): seq<Verse> {
    match Find(ms, id)
    case Some(mv) => mv.verses
    case None => []
  }

  /** How many entries the table holds for `id`. */
  function Entries(ms: seq<MessageVerses>, id: int): nat {
    if ms == [] then 0
    else Entries(ms[..|ms| - 1], id) + (if ms[|ms| - 1].messageId == id then 1 else 0)
  }

  lemma {:induction false} EntriesAppend(a: seq<MessageVerses>, b: seq<MessageVerses>, id: int)
    ensures Entries(a + b, id) == Entries(a, id) + Entries(b, id)
    decreases |b|
  {
    if b == [] {
      assert a + b == a;
    } else {
      InitOfAppend(a, b);
      EntriesAppend(a, b[..|b| - 1], id);
    }
  }

  lemma {:induction false} EntriesNone(ms: seq<MessageVerses>, id: int)
    requires forall k | 0 <= k < |ms| :: ms[k].messageId != id
    ensures Entries(ms, id) == 0
  {
    if ms != [] {
      EntriesNone(ms[..|ms| - 1], id);
    }
  }

  /**
   * After `setMessageVerses(id, vs)` the table holds one entry for `id` when `vs` is not empty
   * and none when it is, and looking `id` up gives `vs` either way.
   */
  lemma StoredLookup(ms: seq<MessageVerses>, id: int, vs: seq<Verse>, now: int)
    ensures Entries(Stored(ms, id, vs, now), id) == if |vs| > 0 then 1 else 0
    ensures Lookup(Stored(ms, id, vs, now), id) == vs
  {
    var w := Without(ms, id);
    var tail: seq<MessageVerses> := if |vs| > 0 then [MessageVerses(id, vs, now)] else [];
    EntriesAppend(w, tail, id);
    EntriesNone(w, id);
    assert tail == [] || tail[..0] == [];
    FindAppendMissing(w, tail, id);
  }

  /** Looking up an id that the first part lacks looks in the second part. */
  lemma {:induction false} FindAppendMissing(a: seq<MessageVerses>, b: seq<MessageVerses>, id: int)
    requires forall k | 0 <= k < |a| :: a[k].messageId != id
    ensures Find(a + b, id) == Find(b, id)
  {
    if a != [] {
      assert (a + b)[1..] == a[1..] + b;
      assert forall k | 0 <= k < |a| - 1 :: a[1..][k] == a[k + 1];
      FindAppendMissing(a[1..], b, id);
    } else {
      assert a + b == b;
    }
  }

  lemma {:induction false} FindWithout(ms: seq<MessageVerses>, id: int, other: int)
    requires other != id
    ensures Find(Without(ms, id), other) == Find(ms, other)
  {
    if ms != [] {
      var init, last := ms[..|ms| - 1], ms[|ms| - 1];
      var w := Without(init, id);
      assert ms == init + [last];
      FindWithout(init, id, other);
      FindSnoc(init, last, other);
      if last.messageId == id {
        assert Without(ms, id) == w + [];
        assert w + [] == w;
      } else {
        assert Without(ms, id) == w + [last];
        FindSnoc(w, last, other);
      }
    }
  }

  lemma {:induction false} FindSnoc(ms: seq<MessageVerses>, m: MessageVerses, id: int)
    ensures Find(ms + [m], id) == if Find(ms, id).Some? then Find(ms, id) else if m.messageId == id then Some(m) else None
  {
    if ms != [] {
      assert (ms + [m])[1..] == ms[1..] + [m];
      FindSnoc(ms[1..], m, id);
    }
  }

  /**
   * The entries for other ids are kept in their order, and a new entry comes last: the table
   * without `id` is the old table without it, and other ids look up what they did.
   */
  lemma StoredKeepsOthers(ms: seq<MessageVerses>, id: int, vs: seq<Verse>, now: int, other: int)
    requires other != id
    ensures Without(Stored(ms, id, vs, now), id) == Without(ms, id)
    ensures Lookup(Stored(ms, id, vs, now), other) == Lookup(ms, other)
    ensures |vs| > 0 ==> Stored(ms, id, vs, now)[|Stored(ms, id, vs, now)| - 1] == MessageVerses(id, vs, now)
  {
    var w, st := Without(ms, id), Stored(ms, id, vs, now);
    var m := MessageVerses(id, vs, now);
    assert Without(st, id) == w by {
      WithoutTwice(ms, id);
      if |vs| > 0 {
        WithoutAppend(w, [m], m, id);
        assert w + [] == w;
      } else {
        assert st == w by { assert w + [] == w; }
      }
    }
    assert Find(st, other) == Find(ms, other) by {
      FindWithout(ms, id, other);
      if |vs| > 0 {
        FindSnoc(w, m, other);
      } else {
        assert st == w by { assert w + [] == w; }
      }
    }
  }

  lemma {:induction false} WithoutTwice(ms: seq<MessageVerses>, id: int)
    ensures Without(Without(ms, id), id) == Without(ms, id)
  {
    if ms != [] {
      var init, last := ms[..|ms| - 1], ms[|ms| - 1];
      WithoutTwice(init, id);
      var w := Without(init, id);
      if last.messageId != id {
        assert (w + [last])[..|w|] == w;
      } else {
        assert w + [] == w;
      }
    }
  }

  // ---------------------------------------------------------------- first of each key

  /** The keys of the verses. */
  function Keys(vs: seq<Verse>, key: Verse -> string): set<string> {
    set k | 0 <= k < |vs| :: key(vs[k])
  }

  /** The verses with the first verse of each key kept, in order: the reference the merges follow. */
  function FirstOfEach(vs: seq<Verse>, key: Verse -> string): (r: seq<Verse>)
    ensures Keys(r, key) == Keys(vs, key)
    ensures forall i, j | 0 <= i < j < |r| :: key(r[i]) != key(r[j])
    ensures forall k | 0 <= k < |r| :: r[k] in vs
  {
    if vs == [] then []
    else
      var init, v := vs[..|vs| - 1], vs[|vs| - 1];
      var d := FirstOfEach(init, key);
      assert forall k | 0 <= k < |init| :: init[k] == vs[k];
      assert Keys(vs, key) == Keys(init, key) + {key(v)};
      if key(v) in Keys(d, key) then d
      else
        KeysSnoc(d, v, key);
        d + [v]
  }

  lemma KeysSnoc(vs: seq<Verse>, v: Verse, key: Verse -> string)
    ensures Keys(vs + [v], key) == Keys(vs, key) + {key(v)}
  {
    var w := vs + [v];
    forall x | x in Keys(w, key) ensures x in Keys(vs, key) + {key(v)} {
      var k :| 0 <= k < |w| && key(w[k]) == x;
      if k < |vs| {
        assert w[k] == vs[k];
      }
    }
    forall x | x in Keys(vs, key) + {key(v)} ensures x in Keys(w, key) {
      if x in Keys(vs, key) {
        var k :| 0 <= k < |vs| && key(vs[k]) == x;
        assert w[k] == vs[k];
      } else {
        assert w[|vs|] == v;
      }
    }
  }

  /** Adding a verse at the end keeps it exactly when its key is new. */
  lemma FirstOfEachSnoc(vs: seq<Verse>, v: Verse, key: Verse -> string)
    ensures FirstOfEach(vs + [v], key) ==
      if key(v) in Keys(vs, key) then FirstOfEach(vs, key) else FirstOfEach(vs, key) + [v]
  {
    assert (vs + [v])[..|vs|] == vs;
  }

  /** The position of the first verse with key `x`. */
  function FirstWith(vs: seq<Verse>, key: Verse -> string, x: string): (k: nat)
    requires x in Keys(vs, key)
    ensures k < |vs| && key(vs[k]) == x && forall j | 0 <= j < k :: key(vs[j]) != x
  {
    if key(vs[0]) == x then 0
    else
      assert x in Keys(vs[1..], key) by {
        var k :| 0 <= k < |vs| && key(vs[k]) == x;
        assert vs[1..][k - 1] == vs[k];
      }
      1 + FirstWith(vs[1..], key, x)
  }

  lemma {:induction false} FirstWithUnique(vs: seq<Verse>, key: Verse -> string, x: string, k: nat)
    requires k < |vs| && key(vs[k]) == x && forall j | 0 <= j < k :: key(vs[j]) != x
    ensures x in Keys(vs, key) && FirstWith(vs, key, x) == k
  {
    if k > 0 {
      assert forall j | 0 <= j < k - 1 :: vs[1..][j] == vs[j + 1];
      FirstWithUnique(vs[1..], key, x, k - 1);
    }
  }

  /** Every verse kept is the first verse of its key. */
  lemma {:induction false} FirstOfEachFirst(vs: seq<Verse>, key: Verse -> string, i: nat)
    requires i < |FirstOfEach(vs, key)|
    ensures FirstOfEach(vs, key)[i] == vs[FirstWith(vs, key, key(FirstOfEach(vs, key)[i]))]
  {
    var init, v := vs[..|vs| - 1], vs[|vs| - 1];
    var d, r := FirstOfEach(init, key), FirstOfEach(vs, key);
    var x := key(r[i]);
    assert vs == init + [v];
    assert r == if key(v) in Keys(init, key) then d else d + [v] by {
      FirstOfEachSnoc(init, v, key);
    }
    if i < |d| {
      assert r[i] == d[i];
      assert x in Keys(init, key) by {
        assert x in Keys(d, key);
      }
      assert d[i] == init[FirstWith(init, key, x)] by {
        FirstOfEachFirst(init, key, i);
      }
      FirstWithSnoc(init, v, key, x);
    } else {
      assert r[i] == v && key(v) !in Keys(init, key);
      FirstWithLast(init, v, key);
    }
  }

  /** The merged list keeps input order: its verses come in the order of their keys' first occurrences. */
  lemma {:induction false} FirstOfEachOrdered(vs: seq<Verse>, key: Verse -> string, i: nat, j: nat)
    requires i < j < |FirstOfEach(vs, key)|
    ensures key(FirstOfEach(vs, key)[i]) in Keys(vs, key) && key(FirstOfEach(vs, key)[j]) in Keys(vs, key)
    ensures FirstWith(vs, key, key(FirstOfEach(vs, key)[i])) < FirstWith(vs, key, key(FirstOfEach(vs, key)[j]))
  {
    var init, v := vs[..|vs| - 1], vs[|vs| - 1];
    var d, r := FirstOfEach(init, key), FirstOfEach(vs, key);
    var xi, xj := key(r[i]), key(r[j]);
    assert xi in Keys(r, key) && xj in Keys(r, key);
    assert vs == init + [v];
    assert r == if key(v) in Keys(init, key) then d else d + [v] by {
      FirstOfEachSnoc(init, v, key);
    }
    assert r[i] == d[i];
    assert xi in Keys(init, key) by {
      assert xi in Keys(d, key);
    }
    FirstWithSnoc(init, v, key, xi);
    if j < |d| {
      assert r[j] == d[j];
      assert xj in Keys(init, key) by {
        assert xj in Keys(d, key);
      }
      FirstOfEachOrdered(init, key, i, j);
      FirstWithSnoc(init, v, key, xj);
    } else {
      assert r[j] == v && key(v) !in Keys(init, key);
      FirstWithLast(init, v, key);
    }
  }

  /** Appending a verse does not move the first verse of a key already present. */
  lemma FirstWithSnoc(vs: seq<Verse>, v: Verse, key: Verse -> string, x: string)
    requires x in Keys(vs, key)
    ensures x in Keys(vs + [v], key) && FirstWith(vs + [v], key, x) == FirstWith(vs, key, x)
  {
    var k := FirstWith(vs, key, x);
    assert forall j | 0 <= j <= k :: (vs + [v])[j] == vs[j];
    FirstWithUnique(vs + [v], key, x, k);
  }

  /** A verse with a new key is the first verse of that key. */
  lemma FirstWithLast(vs: seq<Verse>, v: Verse, key: Verse -> string)
    requires key(v) !in Keys(vs, key)
    ensures key(v) in Keys(vs + [v], key) && FirstWith(vs + [v], key, key(v)) == |vs|
  {
    assert forall j | 0 <= j < |vs| :: (vs + [v])[j] == vs[j] && key(vs[j]) in Keys(vs, key);
    FirstWithUnique(vs + [v], key, key(v), |vs|);
  }

  // ---------------------------------------------------------------- the merged list

  /** The verses of every entry, in table order. */
  function Flatten(ms: seq<MessageVerses>): seq<Verse> {
    if ms == [] then [] else Flatten(ms[..|ms| - 1]) + ms[|ms| - 1].verses
  }

  function Reference(v: Verse): string {
    v.reference
  }

  /**
   * `getAllVerses` (lines 74-89): each reference once, at its first occurrence in message-then-
   * verse order.
   */
  method GetAllVerses(ms: seq<MessageVerses>) returns (all: seq<Verse>)
    ensures all == FirstOfEach(Flatten(ms), Reference)
  {
    all := [];
    var seen: set<string> := {};
    for i := 0 to |ms|
      invariant all == FirstOfEach(Flatten(ms[..i]), Reference)
      invariant seen == Keys(all, Reference)
    {
      ghost var before := Flatten(ms[..i]);
      var vs := ms[i].verses;
      FlattenPrefix(ms, i);
      assert before + vs[..0] == before;
      for j := 0 to |vs|
        invariant all == FirstOfEach(before + vs[..j], Reference)
        invariant seen == Keys(all, Reference)
      {
        AppendPrefixSnoc(before, vs, j);
        MergeStep(before + vs[..j], vs[j], all, seen);
        if vs[j].reference !in seen {
          seen := seen + {vs[j].reference};
          all := all + [vs[j]];
        }
      }
      assert vs[..|vs|] == vs;
    }
    assert ms[..|ms|] == ms;
  }

  /** One step of the merge: a verse is appended, and its reference seen, exactly when its reference is new. */
  lemma MergeStep(prefix: seq<Verse>, v: Verse, all: seq<Verse>, seen: set<string>)
    requires all == FirstOfEach(prefix, Reference) && seen == Keys(all, Reference)
    ensures v.reference in seen ==> all == FirstOfEach(prefix + [v], Reference)
    ensures v.reference !in seen ==>
      all + [v] == FirstOfEach(prefix + [v], Reference) && seen + {v.reference} == Keys(all + [v], Reference)
  {
    FirstOfEachSnoc(prefix, v, Reference);
    KeysSnoc(all, v, Reference);
  }

  lemma FlattenPrefix(ms: seq<MessageVerses>, i: nat)
    requires i < |ms|
    ensures Flatten(ms[..i + 1]) == Flatten(ms[..i]) + ms[i].verses
  {
    assert ms[..i + 1][..i] == ms[..i];
  }

  lemma AppendPrefixSnoc(a: seq<Verse>, b: seq<Verse>, j: nat)
    requires j < |b|
    ensures a + b[..j + 1] == (a + b[..j]) + [b[j]]
  {
    assert b[..j + 1] == b[..j] + [b[j]];
  }

  // ---------------------------------------------------------------- parsing verses from a message

  /** `self.findIndex(v => v.text === t)`, with `None` for -1. */
  function FindText(vs: seq<Verse>, t: string): (r: Option<nat>)
    ensures r.Some? ==> r.value < |vs| && vs[r.value].text == t && forall j | 0 <= j < r.value :: vs[j].text != t
    ensures r.None? ==> forall j | 0 <= j < |vs| :: vs[j].text != t
  {
    if vs == [] then None
    else if vs[0].text == t then Some(0)
    else match FindText(vs[1..], t)
      case None => None
      case Some(k) => Some(k + 1)
  }

  /** The `filter` at lines 160-162 from index `i` on: a verse stays when it is the first with its text. */
  function UniqueFrom(vs: seq<Verse>, i: nat): seq<Verse>
    requires i <= |vs|
    decreases |vs| - i
  {
    if i == |vs| then []
    else (if FindText(vs, vs[i].text) == Some(i) then [vs[i]] else []) + UniqueFrom(vs, i + 1)
  }

  function Text(v: Verse): string {
    v.text
  }

  /** The text dedup keeps exactly the first verse of each text, in order. */
  lemma UniqueIsFirstOfEach(vs: seq<Verse>)
    ensures UniqueFrom(vs, 0) == FirstOfEach(vs, Text)
  {
    UniqueSplit(vs, |vs|);
    assert vs[..|vs|] == vs;
  }

  /** The dedup of the first `n` verses, followed by the verses after them that are first of their text in the whole. */
  lemma {:induction false} UniqueSplit(vs: seq<Verse>, n: nat)
    requires n <= |vs|
    ensures UniqueFrom(vs, 0) == FirstOfEach(vs[..n], Text) + UniqueFrom(vs, n)
  {
    if n > 0 {
      UniqueSplit(vs, n - 1);
      var init, v := vs[..n - 1], vs[n - 1];
      var first := FindText(vs, v.text) == Some(n - 1);
      assert vs[..n] == init + [v];
      FirstOfEachSnoc(init, v, Text);
      FirstTextIffNew(vs, n - 1);
      JoinStep(UniqueFrom(vs, 0), FirstOfEach(init, Text), UniqueFrom(vs, n - 1), UniqueFrom(vs, n),
        FirstOfEach(vs[..n], Text), v, first);
    } else {
      assert vs[..0] == [];
      assert [] + UniqueFrom(vs, 0) == UniqueFrom(vs, 0);
    }
  }

  /** The sequence algebra of one step of `UniqueSplit`. */
  lemma JoinStep(all: seq<Verse>, d: seq<Verse>, rest: seq<Verse>, u: seq<Verse>, f: seq<Verse>, v: Verse, keep: bool)
    requires all == d + rest
    requires rest == (if keep then [v] else []) + u
    requires f == if keep then d + [v] else d
    ensures all == f + u
  {
    if keep {
      assert d + ([v] + u) == (d + [v]) + u;
    } else {
      assert [] + u == u;
    }
  }

  /** A verse is the first with its text exactly when no earlier verse has that text. */
  lemma FirstTextIffNew(vs: seq<Verse>, i: nat)
    requires i < |vs|
    ensures FindText(vs, vs[i].text) == Some(i) <==> vs[i].text !in Keys(vs[..i], Text)
  {
    var f := FindText(vs, vs[i].text);
    if vs[i].text in Keys(vs[..i], Text) {
      var k :| 0 <= k < i && Text(vs[..i][k]) == vs[i].text;
      assert vs[k].text == vs[i].text;
    } else {
      forall j | 0 <= j < i ensures vs[j].text != vs[i].text {
        assert Text(vs[..i][j]) in Keys(vs[..i], Text);
      }
    }
  }

  /** What one regular-expression match contributes (lines 141-155). */
  datatype Match =
    | Referenced(reference: string, quote: string)   // patterns 0-2: a reference and a quoted text
    | Standalone(quote: string, indicated: bool)      // pattern 3: a long quote; whether an indicator pattern matches it

  /** The reference given to a standalone quote: "quoted verse". */
  const QuotedVerse := "آية مقتبسة"

  /** The length gate of `isLikelyVerse` (line 185), after the indicator patterns. */
  function IsLikelyVerse(text: string, indicated: bool): (r: bool)
    ensures r ==> Utf16Length(text) > 15
    ensures Utf16Length(text) > 15 ==> r == indicated
  {
    indicated && Utf16Length(text) > 15
  }

  /** The verse a match pushes, if any. */
  function Candidate(m: Match): Option<Verse> {
    match m
    case Referenced(r, q) => Some(Verse(Trim(r), Trim(q), None, None))
    case Standalone(q, ind) => if IsLikelyVerse(q, ind) then Some(Verse(QuotedVerse, Trim(q), None, None)) else None
  }

  /** The verses the matches push, in match order. */
  function Found(matches: seq<Match>): seq<Verse> {
    if matches == [] then []
    else
      var c := Candidate(matches[|matches| - 1]);
      Found(matches[..|matches| - 1]) + (if c.Some? then [c.value] else [])
  }

  /** The `regex.exec` loops (lines 137-157) over the matches of all four patterns, in order. */
  method CollectVerses(matches: seq<Match>) returns (found: seq<Verse>)
    ensures found == Found(matches)
  {
    found := [];
    for i := 0 to |matches|
      invariant found == Found(matches[..i])
    {
      assert matches[..i + 1][..i] == matches[..i];
      var m := matches[i];
      match m
      case Referenced(r, q) =>
        found := found + [Verse(Trim(r), Trim(q), None, None)];
      case Standalone(q, ind) =>
        if IsLikelyVerse(q, ind) {
          found := found + [Verse(QuotedVerse, Trim(q), None, None)];
        }
    }
    assert matches[..|matches|] == matches;
  }

  /** A standalone quote of at most fifteen code units is never taken for a verse. */
  lemma ShortQuoteDropped(q: string, indicated: bool)
    requires Utf16Length(q) <= 15
    ensures Candidate(Standalone(q, indicated)).None?
  {
  }

  // ---------------------------------------------------------------- the store

  class VerseStore {
    /** The verses currently shown. */
    var verses: seq<Verse>
    /** The verses found in each message, in the order they were stored. */
    var messageVerses: seq<MessageVerses>

    constructor ()
      ensures verses == [] && messageVerses == []
    {
      verses := [];
      messageVerses := [];
    }

    /** `setMessageVerses` (lines 47-62): replaces the message's entry and shows a non-empty list. */
    method SetMessageVerses(messageId: int, vs: seq<Verse>, now: int)
      modifies this
      ensures messageVerses == Stored(old(messageVerses), messageId, vs, now)
      ensures verses == if |vs| > 0 then vs else old(verses)
    {
      messageVerses := Stored(messageVerses, messageId, vs, now);
      if |vs| > 0 {
        verses := vs;
      }
    }

    /** `getMessageVerses` (lines 64-67). */
    function GetMessageVerses(messageId: int): seq<Verse>
      reads this
    {
      Lookup(messageVerses, messageId)
    }

    /** `clearMessageVerses` (lines 69-72). */
    method ClearMessageVerses()
      modifies this
      ensures messageVerses == [] && verses == []
    {
      messageVerses := [];
      verses := [];
    }

    /**
     * The dedup and store steps of `parseVersesFromText` (lines 159-171) for the verses the
     * matches found: nothing is stored when none are left, and the message's entry is written
     * only for a truthy id.
     */
    method StoreParsed(found: seq<Verse>, messageId: Option<int>, now: int) returns (unique: seq<Verse>)
      modifies this
      ensures unique == FirstOfEach(found, Text)
      ensures |unique| == 0 ==> verses == old(verses) && messageVerses == old(messageVerses)
      ensures |unique| > 0 ==> verses == unique
      ensures |unique| > 0 && messageId.Some? && messageId.value != 0 ==>
        messageVerses == Stored(old(messageVerses), messageId.value, unique, now)
      ensures !(messageId.Some? && messageId.value != 0) ==> messageVerses == old(messageVerses)
    {
      unique := UniqueFrom(found, 0);
      UniqueIsFirstOfEach(found);
      if |unique| > 0 {
        verses := unique;
        if messageId.Some? && messageId.value != 0 {
          SetMessageVerses(messageId.value, unique, now);
        }
      }
    }
  }
}
