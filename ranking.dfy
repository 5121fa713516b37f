/**
 * The ranking half of EmbeddingService.getRelevantDocuments: keep the scored
 * documents whose score is at least SIMILARITY_THRESHOLD, sort them by score,
 * highest first, with a stable sort (equal scores keep their corpus order), and
 * keep the first TOP_K.
 *
 * The functions are generic in the scored item so that the ranking can be
 * stated and proved apart from the document objects it is applied to.
 */
module Ranking {
  import opened Similarity

  const SIMILARITY_THRESHOLD: real := 0.5
  const TOP_K: nat := 10

  /** An item together with the score it was given for the current query. */
  datatype Scored<T> = Scored(item: T, score: Score)

  /** Double.compare(a, b) >= 0: NaN ranks above every value and equals itself. */
  predicate AtLeast(a: Score, b: Score) {
    a.NaN? || (b.Value? && a.value >= b.value)
  }

  /** score >= SIMILARITY_THRESHOLD as Java evaluates it: false for NaN. */
  predicate Passes(s: Score) {
    s.Value? && s.value >= SIMILARITY_THRESHOLD
  }

  /** Scores never increase along the sequence (in the order of Double.compare). */
  predicate Descending<T>(s: seq<Scored<T>>) {
    forall i, j :: 0 <= i < j < |s| ==> AtLeast(s[i].score, s[j].score)
  }

  /** The elements of `xs` with exactly the score `k`, in their order in `xs`. */
  function WithScore<T>(xs: seq<Scored<T>>, k: Score): seq<Scored<T>> {
    if xs == [] then []
    else WithScore(xs[..|xs| - 1], k) + (if xs[|xs| - 1].score == k then [xs[|xs| - 1]] else [])
  }

  /** The items of a scored sequence, in order. */
  function Items<T>(xs: seq<Scored<T>>): (r: seq<T>)
    ensures |r| == |xs|
  {
    if xs == [] then [] else Items(xs[..|xs| - 1]) + [xs[|xs| - 1].item]
  }

  /** The stream's `filter` step: the elements whose score passes the threshold, in order. */
  function Filter<T>(xs: seq<Scored<T>>): (r: seq<Scored<T>>)
    ensures forall i :: 0 <= i < |r| ==> r[i] in xs && Passes(r[i].score)
    ensures forall i :: 0 <= i < |xs| && Passes(xs[i].score) ==> xs[i] in r
    ensures multiset(r) <= multiset(xs)
    ensures forall i :: 0 <= i < |xs| && Passes(xs[i].score) ==> multiset(r)[xs[i]] == multiset(xs)[xs[i]]
  {
    if xs == [] then []
    else
      var init, last := xs[..|xs| - 1], xs[|xs| - 1];
      assert xs == init + [last];
      Filter(init) + (if Passes(last.score) then [last] else [])
  }

  /**
   * One step of a stable insertion sort: `x`, which came after every element
   * of `s` in the input, goes after every element that ranks at least as high.
   */
  function Insert<T>(s: seq<Scored<T>>, x: Scored<T>): (r: seq<Scored<T>>)
    ensures multiset(r) == multiset(s) + multiset{x}
  {
    if s == [] || AtLeast(s[|s| - 1].score, x.score) then s + [x]
    else
      assert s == s[..|s| - 1] + [s[|s| - 1]];
      Insert(s[..|s| - 1], x) + [s[|s| - 1]]
  }

  /** The stream's `sorted` step with comparator Double.compare(d2, d1): stable, highest first. */
  function SortDescending<T>(xs: seq<Scored<T>>): (r: seq<Scored<T>>)
    ensures multiset(r) == multiset(xs)
  {
    if xs == [] then []
    else
      assert xs == xs[..|xs| - 1] + [xs[|xs| - 1]];
      Insert(SortDescending(xs[..|xs| - 1]), xs[|xs| - 1])
  }

  /** The stream's `limit` step: the first `maxSize` elements, or all of them when there are fewer. */
  function Limit<T>(xs: seq<T>, maxSize: nat): (r: seq<T>)
    ensures |r| == if |xs| <= maxSize then |xs| else maxSize
    ensures r <= xs
  {
    if |xs| <= maxSize then xs else xs[..maxSize]
  }

  /** filter, then sorted, then limit(TOP_K). */
  function Rank<T>(xs: seq<Scored<T>>): seq<Scored<T>> {
    Limit(SortDescending(Filter(xs)), TOP_K)
  }

  lemma AtLeastTransitive(a: Score, b: Score, c: Score)
    requires AtLeast(a, b) && AtLeast(b, c)
    ensures AtLeast(a, c)
  {
  }

  lemma AtLeastTotal(a: Score, b: Score)
    ensures AtLeast(a, b) || AtLeast(b, a)
  {
  }

  /** Inserting into a descending sequence keeps it descending. */
  lemma {:induction false} InsertDescending<T>(s: seq<Scored<T>>, x: Scored<T>)
    requires Descending(s)
    ensures Descending(Insert(s, x))
  {
    var r := Insert(s, x);
    if s == [] || AtLeast(s[|s| - 1].score, x.score) {
      forall i, j | 0 <= i < j < |r|
        ensures AtLeast(r[i].score, r[j].score)
      {
        if j == |s| && i < |s| - 1 {
          AtLeastTransitive(s[i].score, s[|s| - 1].score, x.score);
        }
      }
    } else {
      var init, last := s[..|s| - 1], s[|s| - 1];
      InsertDescending(init, x);
      var t := Insert(init, x);
      AtLeastTotal(x.score, last.score);
      forall i, j | 0 <= i < j < |r|
        ensures AtLeast(r[i].score, r[j].score)
      {
        if j == |t| {
          assert t[i] in multiset(init) + multiset{x};
          if t[i] != x {
            assert t[i] in init;
            var k :| 0 <= k < |init| && init[k] == t[i];
            assert s[k] == t[i];
          }
        }
      }
    }
  }

  /** The insertion sort yields a descending sequence. */
  lemma {:induction false} SortIsDescending<T>(xs: seq<Scored<T>>)
    ensures Descending(SortDescending(xs))
  {
    if xs != [] {
      SortIsDescending(xs[..|xs| - 1]);
      InsertDescending(SortDescending(xs[..|xs| - 1]), xs[|xs| - 1]);
    }
  }

  lemma {:induction false} WithScoreAppend<T>(a: seq<Scored<T>>, b: seq<Scored<T>>, k: Score)
    ensures WithScore(a + b, k) == WithScore(a, k) + WithScore(b, k)
  {
    if b != [] {
      var init, last := b[..|b| - 1], b[|b| - 1];
      assert (a + b)[..|a + b| - 1] == a + init;
      WithScoreAppend(a, init, k);
    } else {
      assert a + b == a;
    }
  }

  lemma WithScoreSnoc<T>(xs: seq<Scored<T>>, x: Scored<T>, k: Score)
    ensures WithScore(xs + [x], k) == WithScore(xs, k) + (if x.score == k then [x] else [])
  {
    assert (xs + [x])[..|xs|] == xs;
  }

  lemma AppendEitherEmpty<U>(w: seq<U>, a: seq<U>, b: seq<U>)
    requires a == [] || b == []
    ensures w + a + b == w + b + a
  {
    if a == [] {
      assert w + a == w;
    } else {
      assert w + b == w;
    }
  }

  /** Insertion puts `x` after every element with the same score. */
  lemma {:induction false} InsertStable<T>(s: seq<Scored<T>>, x: Scored<T>, k: Score)
    ensures WithScore(Insert(s, x), k) == WithScore(s, k) + (if x.score == k then [x] else [])
  {
    if s == [] || AtLeast(s[|s| - 1].score, x.score) {
      WithScoreAppend(s, [x], k);
      assert [x][..0] == [];
    } else {
      var init, last := s[..|s| - 1], s[|s| - 1];
      var t := Insert(init, x);
      InsertUnfold(s, x);
      InsertStable(init, x, k);
      WithScoreSnoc(t, last, k);
      var xs, ls := (if x.score == k then [x] else []), (if last.score == k then [last] else []);
      assert xs == [] || ls == [];
      AppendEitherEmpty(WithScore(init, k), xs, ls);
    }
  }

  /** The sort is stable: the elements of any one score keep their input order. */
  lemma {:induction false} SortStable<T>(xs: seq<Scored<T>>, k: Score)
    ensures WithScore(SortDescending(xs), k) == WithScore(xs, k)
  {
    if xs != [] {
      SortStable(xs[..|xs| - 1], k);
      InsertStable(SortDescending(xs[..|xs| - 1]), xs[|xs| - 1], k);
    }
  }

  /** Filtering keeps every element of a passing score, in order, and none of a failing one. */
  lemma {:induction false} FilterWithScore<T>(xs: seq<Scored<T>>, k: Score)
    ensures WithScore(Filter(xs), k) == if Passes(k) then WithScore(xs, k) else []
  {
    if xs != [] {
      var init, last := xs[..|xs| - 1], xs[|xs| - 1];
      var tail := if Passes(last.score) then [last] else [];
      assert Filter(xs) == Filter(init) + tail;
      FilterWithScore(init, k);
      WithScoreAppend(Filter(init), tail, k);
      assert WithScore(tail, k) == if Passes(k) && last.score == k then [last] else [] by {
        if tail != [] {
          assert tail[..0] == [];
        }
      }
    }
  }

  lemma {:induction false} InsertItems<T>(s: seq<Scored<T>>, x: Scored<T>)
    ensures multiset(Items(Insert(s, x))) == multiset(Items(s)) + multiset{x.item}
  {
    if s == [] || AtLeast(s[|s| - 1].score, x.score) {
      ItemsSnoc(s, x);
    } else {
      var init, last := s[..|s| - 1], s[|s| - 1];
      assert s == init + [last];
      ItemsSnoc(init, last);
      var t := Insert(init, x);
      InsertUnfold(s, x);
      InsertItems(init, x);
      ItemsSnoc(t, last);
      var m := multiset(Items(init));
      assert multiset(Items(Insert(s, x))) == m + multiset{x.item} + multiset{last.item};
      assert multiset(Items(s)) == m + multiset{last.item};
    }
  }

  /** Insertion past a last element that ranks below `x`. */
  lemma InsertUnfold<T>(s: seq<Scored<T>>, x: Scored<T>)
    requires s != [] && !AtLeast(s[|s| - 1].score, x.score)
    ensures Insert(s, x) == Insert(s[..|s| - 1], x) + [s[|s| - 1]]
  {
  }

  lemma ItemsSnoc<T>(xs: seq<Scored<T>>, x: Scored<T>)
    ensures Items(xs + [x]) == Items(xs) + [x.item]
  {
    assert (xs + [x])[..|xs|] == xs;
  }

  lemma {:induction false} SortItems<T>(xs: seq<Scored<T>>)
    ensures multiset(Items(SortDescending(xs))) == multiset(Items(xs))
  {
    if xs != [] {
      var init, last := xs[..|xs| - 1], xs[|xs| - 1];
      SortItems(init);
      InsertItems(SortDescending(init), last);
    }
  }

  lemma {:induction false} FilterItems<T>(xs: seq<Scored<T>>)
    ensures multiset(Items(Filter(xs))) <= multiset(Items(xs))
  {
    if xs != [] {
      var init, last := xs[..|xs| - 1], xs[|xs| - 1];
      var tail := if Passes(last.score) then [last] else [];
      assert Filter(xs) == Filter(init) + tail;
      FilterItems(init);
      ItemsAppend(Filter(init), tail);
      assert multiset(Items(tail)) <= multiset([last.item]);
      AppendSubMultiset(Items(Filter(init)), Items(tail), Items(init), [last.item]);
    }
  }

  lemma {:induction false} ItemsAppend<T>(a: seq<Scored<T>>, b: seq<Scored<T>>)
    ensures Items(a + b) == Items(a) + Items(b)
  {
    if b == [] {
      assert a + b == a;
    } else {
      assert (a + b)[..|a + b| - 1] == a + b[..|b| - 1];
      ItemsAppend(a, b[..|b| - 1]);
    }
  }

  lemma {:induction false} ItemsIndex<T>(xs: seq<Scored<T>>)
    ensures forall i :: 0 <= i < |xs| ==> Items(xs)[i] == xs[i].item
  {
    if xs != [] {
      ItemsIndex(xs[..|xs| - 1]);
    }
  }

  lemma AppendSubMultiset<U>(a: seq<U>, b: seq<U>, c: seq<U>, d: seq<U>)
    requires multiset(a) <= multiset(c) && multiset(b) <= multiset(d)
    ensures multiset(a + b) <= multiset(c + d)
  {
  }

  lemma PrefixItems<T>(xs: seq<Scored<T>>, m: nat)
    requires m <= |xs|
    ensures multiset(Items(xs[..m])) <= multiset(Items(xs))
  {
    assert xs == xs[..m] + xs[m..];
    ItemsAppend(xs[..m], xs[m..]);
  }

  /**
   * The result holds at most TOP_K elements: exactly the first min(TOP_K, n)
   * of the sorted passing ones, where n is how many pass; an empty input
   * gives an empty result.
   */
  lemma RankLength<T>(xs: seq<Scored<T>>)
    ensures var r := Rank(xs);
      && |r| <= TOP_K
      && |r| == (if |Filter(xs)| <= TOP_K then |Filter(xs)| else TOP_K)
      && r <= SortDescending(Filter(xs))
      && (xs == [] ==> r == [])
  {
  }

  /** Every returned element is an input element, with no more copies than the input has. */
  lemma RankSubMultiset<T>(xs: seq<Scored<T>>)
    ensures multiset(Rank(xs)) <= multiset(xs)
  {
    var s := SortDescending(Filter(xs));
    var r := Rank(xs);
    assert s == r + s[|r|..];
  }

  /** A property of every input element holds of every returned element. */
  lemma RankPreserves<T>(xs: seq<Scored<T>>, p: Scored<T> -> bool)
    requires forall i :: 0 <= i < |xs| ==> p(xs[i])
    ensures forall i :: 0 <= i < |Rank(xs)| ==> p(Rank(xs)[i])
  {
    var r := Rank(xs);
    RankSubMultiset(xs);
    forall i | 0 <= i < |r|
      ensures p(r[i])
    {
      assert r[i] in multiset(xs);
      var k :| 0 <= k < |xs| && xs[k] == r[i];
    }
  }

  /** Every returned element passes the threshold: its score is a number of at least 0.5. */
  lemma RankPasses<T>(xs: seq<Scored<T>>)
    ensures forall i :: 0 <= i < |Rank(xs)| ==> Passes(Rank(xs)[i].score)
  {
    var f := Filter(xs);
    var s := SortDescending(f);
    var r := Rank(xs);
    forall i | 0 <= i < |r|
      ensures Passes(r[i].score)
    {
      assert r[i] == s[i];
      assert s[i] in multiset(f);
    }
  }

  /** Scores in the result never increase. */
  lemma RankDescending<T>(xs: seq<Scored<T>>)
    ensures Descending(Rank(xs))
  {
    SortIsDescending(Filter(xs));
  }

  /**
   * Top-K: a passing element that was left out ranks no higher than any element
   * returned, and is left out only because TOP_K elements were returned.
   */
  lemma RankKeepsHighest<T>(xs: seq<Scored<T>>, e: Scored<T>)
    requires e in xs && Passes(e.score) && e !in Rank(xs)
    ensures |Rank(xs)| == TOP_K
    ensures forall i :: 0 <= i < |Rank(xs)| ==> AtLeast(Rank(xs)[i].score, e.score)
  {
    var s := SortDescending(Filter(xs));
    SortIsDescending(Filter(xs));
    assert e in multiset(s);
    var j :| 0 <= j < |s| && s[j] == e;
    assert TOP_K <= j;
  }

  /** Equal-score elements of the result appear in the order they had in the input. */
  lemma RankStable<T>(xs: seq<Scored<T>>, k: Score)
    ensures WithScore(Rank(xs), k) <= WithScore(xs, k)
  {
    var f := Filter(xs);
    var s := SortDescending(f);
    var r := Rank(xs);
    assert s == r + s[|r|..];
    WithScoreAppend(r, s[|r|..], k);
    SortStable(f, k);
    FilterWithScore(xs, k);
  }

  /** Every returned item is an input item, with no more copies than the input has. */
  lemma RankItems<T>(xs: seq<Scored<T>>)
    ensures multiset(Items(Rank(xs))) <= multiset(Items(xs))
  {
    var f := Filter(xs);
    var s := SortDescending(f);
    FilterItems(xs);
    SortItems(f);
    PrefixItems(s, |Rank(xs)|);
    assert Rank(xs) == s[..|Rank(xs)|];
    assert multiset(Items(s[..|Rank(xs)|])) <= multiset(Items(xs));
  }

  /** Two passing entries in descending order followed by a failing one rank as the first two. */
  lemma RankOfThree<T>(x: Scored<T>, y: Scored<T>, z: Scored<T>)
    requires Passes(x.score) && Passes(y.score) && !Passes(z.score) && AtLeast(x.score, y.score)
    ensures Rank([x, y, z]) == [x, y]
  {
    FilterOfThree(x, y, z);
    SortOfPair(x, y);
  }

  lemma SortOfPair<T>(x: Scored<T>, y: Scored<T>)
    requires AtLeast(x.score, y.score)
    ensures SortDescending([x, y]) == [x, y]
  {
    assert SortDescending([x]) == [x] by {
      assert [x][..0] == [];
      assert Insert([], x) == [x];
    }
    assert [x, y][..1] == [x];
    assert Insert([x], y) == [x, y];
  }

  lemma FilterOfThree<T>(x: Scored<T>, y: Scored<T>, z: Scored<T>)
    requires Passes(x.score) && Passes(y.score) && !Passes(z.score)
    ensures Filter([x, y, z]) == [x, y]
  {
    assert Filter([x]) == [x] by {
      assert [] + [x] == [x];
      FilterSnoc([], x);
    }
    assert Filter([x, y]) == [x, y] by {
      assert [x] + [y] == [x, y];
      FilterSnoc([x], y);
    }
    assert [x, y] + [z] == [x, y, z];
    FilterSnoc([x, y], z);
  }

  /** Filtering one more entry appends it exactly when it passes. */
  lemma FilterSnoc<T>(xs: seq<Scored<T>>, x: Scored<T>)
    ensures Filter(xs + [x]) == Filter(xs) + (if Passes(x.score) then [x] else [])
  {
    assert (xs + [x])[..|xs|] == xs;
  }

  lemma ItemsOfPair<T>(x: Scored<T>, y: Scored<T>)
    ensures Items([x, y]) == [x.item, y.item]
  {
    assert [x, y][..1] == [x] && [x][..0] == [];
  }
}
