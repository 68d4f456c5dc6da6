/** The retrieval metrics of the release gate, for any positive and strictly falling discount. */
module Evaluation {
  import opened Basics

  /** What a hit at a rank is worth; the evaluator uses the reciprocal of the binary logarithm of rank + 1. */
  ghost predicate IsDiscount(weight: nat -> real) {
    && (forall r: nat :: r >= 1 ==> weight(r) > 0.0)
    && forall r: nat, s: nat :: 1 <= r < s ==> weight(r) > weight(s)
  }

  /** The distinct materials of a result list, in the order of their first hit. */
  function UniqueMaterials(items: seq<int>): seq<int> {
    if items == [] then []
    else
      var before := UniqueMaterials(items[..|items| - 1]);
      if items[|items| - 1] in before then before else before + [items[|items| - 1]]
  }

  /** The expected materials among some results. */
  function Found(expected: set<int>, results: seq<int>): set<int> {
    set x | x in expected && x in results
  }

  function Recall(ranking: seq<int>, expected: set<int>, k: nat): real
    requires expected != {}
  {
    |Found(expected, Top(ranking, k))| as real / |expected| as real
  }

  /** The sum of the weights of the hits among the first n positions. */
  function Dcg(weight: nat -> real, ranking: seq<int>, expected: set<int>, n: nat): real
    requires n <= |ranking|
  {
    if n == 0 then 0.0
    else Dcg(weight, ranking, expected, n - 1) + (if ranking[n - 1] in expected then weight(n) else 0.0)
  }

  /** The best sum that m hits can reach. */
  function Ideal(weight: nat -> real, m: nat): real {
    if m == 0 then 0.0 else Ideal(weight, m - 1) + weight(m)
  }

  function Ndcg(weight: nat -> real, ranking: seq<int>, expected: set<int>, k: nat): real {
    var ideal := Ideal(weight, Min(k, |expected|));
    if ideal == 0.0 then 0.0 else Dcg(weight, ranking, expected, Min(k, |ranking|)) / ideal
  }

  // ---------------------------------------------------------------- hits

  function Hits(ranking: seq<int>, expected: set<int>, n: nat): nat
    requires n <= |ranking|
  {
    if n == 0 then 0 else Hits(ranking, expected, n - 1) + (if ranking[n - 1] in expected then 1 else 0)
  }

  ghost predicate AllHits(ranking: seq<int>, expected: set<int>, m: nat) {
    m <= |ranking| && forall i :: 0 <= i < m ==> ranking[i] in expected
  }

  lemma {:induction false} UniqueMaterialsInOrder(items: seq<int>)
    ensures InFirstOrder(UniqueMaterials(items), items)
  {
    hide InFirstOrder;
    if items == [] {
      NothingInOrder<int>();
    } else {
      var init, last := items[..|items| - 1], items[|items| - 1];
      UniqueMaterialsInOrder(init);
      assert items == init + [last];
      FirstOrderSnoc(UniqueMaterials(init), init, last);
    }
  }

  /** The metrics see each material once, at the place of its first hit, and lose none. */
  lemma UniqueMaterialsAreDistinct(items: seq<int>)
    ensures NoDuplicates(UniqueMaterials(items))
    ensures forall x :: x in UniqueMaterials(items) <==> x in items
    ensures InFirstOrder(UniqueMaterials(items), items)
  {
    UniqueMaterialsInOrder(items);
  }

  lemma OneMoreElement(s: seq<int>, x: int, expected: set<int>)
    requires x !in s
    ensures |Found(expected, s + [x])| == |Found(expected, s)| + (if x in expected then 1 else 0)
  {
    var before := Found(expected, s);
    if x in expected {
      assert Found(expected, s + [x]) == before + {x};
    } else {
      assert Found(expected, s + [x]) == before;
    }
  }

  lemma NewElement(ranking: seq<int>, i: nat)
    requires NoDuplicates(ranking) && i < |ranking|
    ensures ranking[i] !in ranking[..i]
  {
  }

  lemma PrefixSnoc(ranking: seq<int>, i: nat)
    requires i < |ranking|
    ensures ranking[..i + 1] == ranking[..i] + [ranking[i]]
  {
  }

  lemma {:induction false} HitsAreElements(ranking: seq<int>, expected: set<int>, n: nat)
    requires n <= |ranking| && NoDuplicates(ranking)
    ensures Hits(ranking, expected, n) == |Found(expected, ranking[..n])|
  {
    if n == 0 {
      assert Found(expected, ranking[..0]) == {};
    } else {
      HitsAreElements(ranking, expected, n - 1);
      NewElement(ranking, n - 1);
      OneMoreElement(ranking[..n - 1], ranking[n - 1], expected);
      PrefixSnoc(ranking, n - 1);
    }
  }

  lemma SubsetCount(a: set<int>, b: set<int>)
    requires a <= b
    ensures |a| <= |b|
  {
    assert b == a + (b - a);
  }

  lemma HitsAtMost(ranking: seq<int>, expected: set<int>, n: nat)
    requires n <= |ranking| && NoDuplicates(ranking)
    ensures Hits(ranking, expected, n) <= Min(n, |expected|)
  {
    HitsAreElements(ranking, expected, n);
    SubsetCount(Found(expected, ranking[..n]), expected);
    HitsAtMostPositions(ranking, expected, n);
  }

  lemma {:induction false} HitsAtMostPositions(ranking: seq<int>, expected: set<int>, n: nat)
    requires n <= |ranking|
    ensures Hits(ranking, expected, n) <= n
    ensures AllHits(ranking, expected, n) <==> Hits(ranking, expected, n) == n
  {
    if n > 0 {
      HitsAtMostPositions(ranking, expected, n - 1);
    }
  }

  lemma {:induction false} HitsGrow(ranking: seq<int>, expected: set<int>, m: nat, n: nat)
    requires m <= n <= |ranking|
    ensures Hits(ranking, expected, m) <= Hits(ranking, expected, n)
    decreases n
  {
    if m < n {
      HitsGrow(ranking, expected, m, n - 1);
    }
  }

  // ---------------------------------------------------------------- recall

  lemma RecallIsHits(ranking: seq<int>, expected: set<int>, k: nat)
    requires NoDuplicates(ranking) && expected != {}
    ensures Recall(ranking, expected, k) ==
            Hits(ranking, expected, Min(k, |ranking|)) as real / |expected| as real
  {
    HitsAreElements(ranking, expected, Min(k, |ranking|));
    assert Top(ranking, k) == ranking[..Min(k, |ranking|)];
  }

  lemma Quotients(a: nat, b: nat, n: nat)
    requires a <= b && n > 0
    ensures a as real / n as real <= b as real / n as real
  {
    var p, q := a as real / n as real, b as real / n as real;
    assert p * n as real == a as real && q * n as real == b as real;
    assert (q - p) * n as real >= 0.0;
  }

  lemma Fractions(a: nat, b: nat, n: nat)
    requires a <= b <= n && n > 0
    ensures 0.0 <= a as real / n as real <= b as real / n as real <= 1.0
  {
    Quotients(0, a, n);
    Quotients(a, b, n);
    Quotients(b, n, n);
  }

  /** Recall lies between zero and one and grows with k. */
  lemma RecallIsMonotone(ranking: seq<int>, expected: set<int>, k: nat, l: nat)
    requires NoDuplicates(ranking) && expected != {} && k <= l
    ensures 0.0 <= Recall(ranking, expected, k) <= Recall(ranking, expected, l) <= 1.0
  {
    var m, n := Min(k, |ranking|), Min(l, |ranking|);
    RecallIsHits(ranking, expected, k);
    RecallIsHits(ranking, expected, l);
    HitsGrow(ranking, expected, m, n);
    HitsAtMost(ranking, expected, n);
    Fractions(Hits(ranking, expected, m), Hits(ranking, expected, n), |expected|);
  }

  // ---------------------------------------------------------------- discounted gain

  lemma {:induction false} IdealGrows(weight: nat -> real, m: nat, n: nat)
    requires IsDiscount(weight) && m <= n
    ensures Ideal(weight, m) <= Ideal(weight, n)
    ensures m < n ==> Ideal(weight, m) < Ideal(weight, n)
    decreases n
  {
    if m < n {
      IdealGrows(weight, m, n - 1);
      assert weight(n) > 0.0;
    }
  }

  /** The gain of h hits is at most that of h hits in front, and equal only if they are in front. */
  lemma {:induction false} GainAtMostIdeal(weight: nat -> real, ranking: seq<int>, expected: set<int>, n: nat)
    requires IsDiscount(weight) && n <= |ranking|
    ensures Hits(ranking, expected, n) <= n
    ensures Dcg(weight, ranking, expected, n) <= Ideal(weight, Hits(ranking, expected, n))
    ensures Dcg(weight, ranking, expected, n) == Ideal(weight, Hits(ranking, expected, n)) <==>
            AllHits(ranking, expected, Hits(ranking, expected, n))
  {
    if n > 0 {
      GainAtMostIdeal(weight, ranking, expected, n - 1);
      var h := Hits(ranking, expected, n - 1);
      if ranking[n - 1] in expected {
        HitsAtMostPositions(ranking, expected, n - 1);
        if h < n - 1 {
          assert weight(h + 1) > weight(n);
          MissBefore(ranking, expected, n - 1);
        }
      }
    }
  }

  /** With fewer hits than positions, the hits and one position more are not all hits. */
  lemma MissBefore(ranking: seq<int>, expected: set<int>, n: nat)
    requires n <= |ranking| && Hits(ranking, expected, n) < n
    ensures !AllHits(ranking, expected, Hits(ranking, expected, n) + 1)
  {
    var h := Hits(ranking, expected, n);
    if AllHits(ranking, expected, h + 1) {
      HitsAtMostPositions(ranking, expected, h + 1);
      HitsGrow(ranking, expected, h + 1, n);
      assert false;
    }
  }

  /** nDCG never exceeds one, and is one exactly when the first positions are all hits. */
  lemma NdcgAtMostOne(weight: nat -> real, ranking: seq<int>, expected: set<int>, k: nat)
    requires IsDiscount(weight) && NoDuplicates(ranking) && expected != {} && k >= 1
    ensures 0.0 <= Ndcg(weight, ranking, expected, k) <= 1.0
    ensures Ndcg(weight, ranking, expected, k) == 1.0 <==> AllHits(ranking, expected, Min(k, |expected|))
  {
    var n, m := Min(k, |ranking|), Min(k, |expected|);
    var h := Hits(ranking, expected, n);
    var gain, ideal := Dcg(weight, ranking, expected, n), Ideal(weight, m);
    HitsAtMost(ranking, expected, n);
    GainAtMostIdeal(weight, ranking, expected, n);
    GainNonNegative(weight, ranking, expected, n);
    IdealGrows(weight, 0, m);
    IdealGrows(weight, h, m);
    Share(gain, ideal);
    if AllHits(ranking, expected, m) {
      HitsAtMostPositions(ranking, expected, m);
      HitsGrow(ranking, expected, m, n);
    }
  }

  lemma Share(gain: real, ideal: real)
    requires 0.0 <= gain <= ideal && ideal > 0.0
    ensures 0.0 <= gain / ideal <= 1.0
    ensures gain / ideal == 1.0 <==> gain == ideal
  {
    var q := gain / ideal;
    assert q * ideal == gain;
    assert (1.0 - q) * ideal >= 0.0;
  }

  lemma {:induction false} GainNonNegative(weight: nat -> real, ranking: seq<int>, expected: set<int>, n: nat)
    requires IsDiscount(weight) && n <= |ranking|
    ensures Dcg(weight, ranking, expected, n) >= 0.0
  {
    if n > 0 {
      GainNonNegative(weight, ranking, expected, n - 1);
      assert weight(n) > 0.0;
    }
  }
}
