/** Stable sorting by descending score, as sort.SliceStable in Go and sorted in Python do it. */
module Ranking {
  import opened Basics

  datatype Scored<T> = Scored(item: T, score: real)

  ghost predicate Descending<T>(s: seq<Scored<T>>) {
    forall i, j :: 0 <= i < j < |s| ==> s[i].score >= s[j].score
  }

  /** The elements with one score, in their order. */
  function Having<T>(s: seq<Scored<T>>, score: real): seq<Scored<T>> {
    if s == [] then []
    else
      var init := Having(s[..|s| - 1], score);
      if s[|s| - 1].score == score then init + [s[|s| - 1]] else init
  }

  function Insert<T>(x: Scored<T>, s: seq<Scored<T>>): seq<Scored<T>> {
    if s == [] || s[|s| - 1].score >= x.score then s + [x]
    else Insert(x, s[..|s| - 1]) + [s[|s| - 1]]
  }

  function SortDesc<T>(s: seq<Scored<T>>): seq<Scored<T>> {
    if s == [] then [] else Insert(s[|s| - 1], SortDesc(s[..|s| - 1]))
  }

  lemma HavingSnoc<T>(s: seq<Scored<T>>, x: Scored<T>, score: real)
    ensures Having(s + [x], score) == if x.score == score then Having(s, score) + [x] else Having(s, score)
  {
    assert (s + [x])[..|s|] == s;
  }

  lemma {:induction false} InsertPermutes<T>(x: Scored<T>, s: seq<Scored<T>>)
    ensures multiset(Insert(x, s)) == multiset(s) + multiset{x}
    ensures |Insert(x, s)| == |s| + 1
  {
    if !(s == [] || s[|s| - 1].score >= x.score) {
      InsertPermutes(x, s[..|s| - 1]);
      assert s == s[..|s| - 1] + [s[|s| - 1]];
    }
  }

  lemma {:induction false} InsertDescends<T>(x: Scored<T>, s: seq<Scored<T>>)
    requires Descending(s)
    ensures Descending(Insert(x, s))
    ensures forall y :: y in Insert(x, s) ==> y == x || y in s
  {
    if !(s == [] || s[|s| - 1].score >= x.score) {
      var init, last := s[..|s| - 1], s[|s| - 1];
      InsertDescends(x, init);
      forall y | y in Insert(x, init) ensures y.score >= last.score {
        assert y == x || y in init;
      }
    }
  }

  lemma {:induction false} InsertHaving<T>(x: Scored<T>, s: seq<Scored<T>>, score: real)
    ensures Having(Insert(x, s), score) == if x.score == score then Having(s, score) + [x] else Having(s, score)
  {
    if s == [] || s[|s| - 1].score >= x.score {
      HavingSnoc(s, x, score);
    } else {
      var init, last := s[..|s| - 1], s[|s| - 1];
      InsertHaving(x, init, score);
      HavingSnoc(Insert(x, init), last, score);
    }
  }

  /** A stable sort: descending, and elements with equal scores keep their order; nothing is lost or added. */
  ghost predicate IsStableSort<T(!new)>(before: seq<Scored<T>>, after: seq<Scored<T>>) {
    Descending(after) && forall score: real :: Having(after, score) == Having(before, score)
  }

  lemma {:induction false} SortDescSound<T(!new)>(s: seq<Scored<T>>)
    ensures IsStableSort(s, SortDesc(s))
    ensures multiset(SortDesc(s)) == multiset(s) && |SortDesc(s)| == |s|
  {
    if s != [] {
      var init, last := s[..|s| - 1], s[|s| - 1];
      SortDescSound(init);
      InsertDescends(last, SortDesc(init));
      InsertPermutes(last, SortDesc(init));
      assert s == init + [last];
      forall score: real ensures Having(SortDesc(s), score) == Having(s, score) {
        InsertHaving(last, SortDesc(init), score);
        HavingSnoc(init, last, score);
      }
    }
  }

  lemma {:induction false} SortDescIdentity<T>(s: seq<Scored<T>>)
    requires Descending(s)
    ensures SortDesc(s) == s
  {
    if s != [] {
      var init, last := s[..|s| - 1], s[|s| - 1];
      assert s == init + [last];
      SortDescIdentity(init);
    }
  }

  lemma HavingLast<T>(s: seq<Scored<T>>)
    requires s != []
    ensures var same := Having(s, s[|s| - 1].score);
            same != [] && same[|same| - 1] == s[|s| - 1]
  {
  }

  lemma {:induction false} HavingIsMember<T>(s: seq<Scored<T>>, score: real)
    requires Having(s, score) != []
    ensures exists i :: 0 <= i < |s| && s[i].score == score
  {
    if s[|s| - 1].score != score {
      HavingIsMember(s[..|s| - 1], score);
      var i :| 0 <= i < |s| - 1 && s[..|s| - 1][i].score == score;
      assert s[i].score == score;
    }
  }

  /** The last element of a occurs in b with its score, and so ends b at that score or a lower one. */
  lemma LastScoreBounds<T(!new)>(a: seq<Scored<T>>, b: seq<Scored<T>>)
    requires Descending(b) && a != []
    requires Having(a, a[|a| - 1].score) == Having(b, a[|a| - 1].score)
    ensures b != [] && a[|a| - 1].score >= b[|b| - 1].score
  {
    HavingLast(a);
    HavingIsMember(b, a[|a| - 1].score);
  }

  lemma LastScore<T(!new)>(a: seq<Scored<T>>, b: seq<Scored<T>>)
    requires Descending(a) && Descending(b) && a != []
    requires forall score: real :: Having(a, score) == Having(b, score)
    ensures b != [] && a[|a| - 1] == b[|b| - 1]
  {
    LastScoreBounds(a, b);
    LastScoreBounds(b, a);
    HavingLast(a);
    HavingLast(b);
  }

  lemma SnocInjective<T>(a: seq<T>, b: seq<T>, x: T)
    ensures a + [x] == b + [x] ==> a == b
  {
    assert a + [x] == b + [x] ==> (a + [x])[..|a + [x]| - 1] == (b + [x])[..|b + [x]| - 1];
  }

  /** Being a stable sort determines the result, so that it does not matter how a library sorts. */
  lemma {:induction false} StableSortIsUnique<T(!new)>(a: seq<Scored<T>>, b: seq<Scored<T>>)
    requires Descending(a) && Descending(b)
    requires forall score: real :: Having(a, score) == Having(b, score)
    ensures a == b
  {
    if a == [] {
      assert b == [] by {
        if b != [] {
          HavingLast(b);
        }
      }
    } else {
      LastScore(a, b);
      var x := a[|a| - 1];
      var c, d := a[..|a| - 1], b[..|b| - 1];
      assert a == c + [x] && b == d + [x];
      forall score: real ensures Having(c, score) == Having(d, score) {
        HavingSnoc(c, x, score);
        HavingSnoc(d, x, score);
        assert Having(a, score) == Having(b, score);
        SnocInjective(Having(c, score), Having(d, score), x);
      }
      StableSortIsUnique(c, d);
    }
  }

  // ---------------------------------------------------------------- members

  lemma SnocNoDuplicates<T>(s: seq<T>, x: T)
    requires NoDuplicates(s) && x !in s
    ensures NoDuplicates(s + [x]) && forall y :: y in s + [x] <==> y == x || y in s
  {
    forall i | 0 <= i < |s| ensures s[i] != x {
      assert s[i] in s;
    }
  }

  lemma {:induction false} InsertNoDuplicates<T>(x: Scored<T>, s: seq<Scored<T>>)
    requires NoDuplicates(s) && x !in s
    ensures NoDuplicates(Insert(x, s))
    ensures forall y :: y in Insert(x, s) <==> y == x || y in s
  {
    if s == [] || s[|s| - 1].score >= x.score {
      SnocNoDuplicates(s, x);
    } else {
      var init, last := s[..|s| - 1], s[|s| - 1];
      assert s == init + [last];
      InsertNoDuplicates(x, init);
      SnocNoDuplicates(Insert(x, init), last);
    }
  }

  lemma {:induction false} SortDescMembers<T>(s: seq<Scored<T>>)
    requires NoDuplicates(s)
    ensures NoDuplicates(SortDesc(s))
    ensures forall y :: y in SortDesc(s) <==> y in s
  {
    if s != [] {
      var init, last := s[..|s| - 1], s[|s| - 1];
      assert s == init + [last];
      SortDescMembers(init);
      InsertNoDuplicates(last, SortDesc(init));
    }
  }
}
