/** Small facts about numbers and sequences shared by several modules. */
module Basics {
  function Min(a: int, b: int): int { if a <= b then a else b }

  function Max(a: int, b: int): int { if a <= b then b else a }

  lemma Reciprocals(a: real, b: real)
    requires 0.0 < a <= b
    ensures 1.0 / b <= 1.0 / a
  {
    var p, q := 1.0 / a, 1.0 / b;
    assert p * a == 1.0 && q * b == 1.0;
    assert p * b >= p * a;
    assert (q - p) * b <= 0.0;
  }

  ghost predicate NoDuplicates<T>(s: seq<T>) {
    forall i, j :: 0 <= i < j < |s| ==> s[i] != s[j]
  }

  /** The first n elements, or all when there are fewer. */
  function Top<T>(s: seq<T>, n: nat): seq<T> {
    if |s| > n then s[..n] else s
  }

  /** Some x stands before every y. */
  ghost predicate StandsBefore<T(!new)>(items: seq<T>, x: T, y: T) {
    exists k :: 0 <= k < |items| && items[k] == x && y !in items[..k]
  }

  /** The elements of items, each once, in the order in which they first occur. */
  ghost predicate InFirstOrder<T(!new)>(unique: seq<T>, items: seq<T>) {
    && NoDuplicates(unique) && (forall x :: x in unique <==> x in items)
    && forall i, j :: 0 <= i < j < |unique| ==> StandsBefore(items, unique[i], unique[j])
  }

  lemma NothingInOrder<T(!new)>()
    ensures InFirstOrder<T>([], [])
  {
    hide StandsBefore;
  }

  lemma StandsBeforeMore<T(!new)>(items: seq<T>, last: T, x: T, y: T)
    requires StandsBefore(items, x, y)
    ensures StandsBefore(items + [last], x, y)
  {
    var k :| 0 <= k < |items| && items[k] == x && y !in items[..k];
    assert (items + [last])[..k] == items[..k] && (items + [last])[k] == x;
  }

  lemma StandsBeforeNew<T(!new)>(items: seq<T>, last: T, x: T)
    requires x in items && last !in items
    ensures StandsBefore(items + [last], x, last)
  {
    var k :| 0 <= k < |items| && items[k] == x;
    assert (items + [last])[..k] == items[..k] && (items + [last])[k] == x;
  }

  /** One more element: it is new at the end, or was there before. */
  lemma FirstOrderSnoc<T(!new)>(unique: seq<T>, items: seq<T>, x: T)
    requires InFirstOrder(unique, items)
    ensures InFirstOrder(if x in unique then unique else unique + [x], items + [x])
  {
    hide StandsBefore;
    var next, more := if x in unique then unique else unique + [x], items + [x];
    forall i, j | 0 <= i < j < |next| ensures StandsBefore(more, next[i], next[j]) {
      if j < |unique| {
        StandsBeforeMore(items, x, unique[i], unique[j]);
      } else {
        assert unique[i] in unique;
        StandsBeforeNew(items, x, unique[i]);
      }
    }
  }

  lemma AppendAssociative<T>(a: seq<T>, b: seq<T>, c: seq<T>)
    ensures (a + b) + c == a + (b + c)
  {
  }
}
