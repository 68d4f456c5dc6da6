/** Reciprocal-rank fusion of the two searches, through a map whose iteration order is arbitrary. */
module Fusion {
  import opened Basics
  import opened Options
  import opened Ranking

  const RRF_CONSTANT: real := 60.0
  const SEARCH_TOP_K: nat := 30
  const DEFAULT_TOP_K: nat := 20
  const MAX_TOP_K: nat := 50

  /** A result row of one search: chunk id and that search's own score. */
  datatype Row = Row(id: int, score: real)

  /** A fused candidate without its fused score. */
  datatype Entry = Entry(id: int, vectorScore: Option<real>, lexicalScore: Option<real>)

  ghost predicate DistinctRows(rows: seq<Row>) {
    forall i, j :: 0 <= i < j < |rows| ==> rows[i].id != rows[j].id
  }

  function Ids(rows: seq<Row>): set<int> {
    set r | r in rows :: r.id
  }

  /** Position of an id in a search result; the length when it is not found. */
  function Position(rows: seq<Row>, id: int): (p: nat)
    ensures p <= |rows|
    ensures p < |rows| ==> rows[p].id == id
    ensures p == |rows| <==> id !in Ids(rows)
    decreases |rows|
  {
    if rows == [] then 0
    else
      var n := |rows| - 1;
      assert rows == rows[..n] + [rows[n]];
      var p := Position(rows[..n], id);
      if p < n then p else if rows[n].id == id then n else n + 1
  }

  /** The reciprocal-rank share of one search; ranks count from 1. */
  function Share(rows: seq<Row>, id: int): real {
    var p := Position(rows, id);
    if p < |rows| then 1.0 / (RRF_CONSTANT + (p + 1) as real) else 0.0
  }

  function ScoreIn(rows: seq<Row>, id: int): Option<real> {
    var p := Position(rows, id);
    if p < |rows| then Some(rows[p].score) else None
  }

  function Fused(vector: seq<Row>, lexical: seq<Row>, id: int): Scored<Entry> {
    Scored(Entry(id, ScoreIn(vector, id), ScoreIn(lexical, id)), Share(vector, id) + Share(lexical, id))
  }

  /** The fused score of a chunk: 1 / (60 + rank) from each search that found it, and each search's own score. */
  lemma FusedIs(vector: seq<Row>, lexical: seq<Row>, id: int, v: nat, l: nat)
    requires v <= |vector| && l <= |lexical|
    requires (v < |vector| ==> vector[v].id == id) && forall k :: 0 <= k < v ==> vector[k].id != id
    requires (l < |lexical| ==> lexical[l].id == id) && forall k :: 0 <= k < l ==> lexical[k].id != id
    requires DistinctRows(vector) && DistinctRows(lexical)
    ensures var x := Fused(vector, lexical, id);
            && x.item.id == id
            && x.item.vectorScore == (if v < |vector| then Some(vector[v].score) else None)
            && x.item.lexicalScore == (if l < |lexical| then Some(lexical[l].score) else None)
            && x.score == (if v < |vector| then 1.0 / (60.0 + (v + 1) as real) else 0.0) +
                          (if l < |lexical| then 1.0 / (60.0 + (l + 1) as real) else 0.0)
  {
    PositionIs(vector, id, v);
    PositionIs(lexical, id, l);
  }

  lemma PositionIs(rows: seq<Row>, id: int, p: nat)
    requires p <= |rows| && DistinctRows(rows)
    requires (p < |rows| ==> rows[p].id == id) && forall k :: 0 <= k < p ==> rows[k].id != id
    ensures Position(rows, id) == p
  {
    var q := Position(rows, id);
    if p < |rows| {
      assert rows[p] in rows;
    }
  }

  /** As many as asked for, from one to fifty; twenty when nothing sensible is asked for. */
  function Limit(limit: int): (n: nat)
    ensures if 1 <= limit <= 50 then n == limit else n == if limit < 1 then 20 else 50
  {
    if limit <= 0 then DEFAULT_TOP_K else if limit > MAX_TOP_K then MAX_TOP_K else limit
  }

  function FusedAll(vector: seq<Row>, lexical: seq<Row>, order: seq<int>): seq<Scored<Entry>> {
    seq(|order|, i requires 0 <= i < |order| => Fused(vector, lexical, order[i]))
  }

  /** The result when the map is iterated in the given order. */
  function FuseInOrder(vector: seq<Row>, lexical: seq<Row>, limit: nat, order: seq<int>): seq<Scored<Entry>> {
    Top(SortDesc(FusedAll(vector, lexical, order)), limit)
  }

  /** An order in which the map of all found ids may be iterated. */
  ghost predicate IsOrder(vector: seq<Row>, lexical: seq<Row>, order: seq<int>) {
    NoDuplicates(order) && forall id :: id in order <==> id in Ids(vector) + Ids(lexical)
  }

  // ---------------------------------------------------------------- what a ranking is

  function IdsOf(r: seq<Scored<Entry>>): seq<int> {
    seq(|r|, i requires 0 <= i < |r| => r[i].item.id)
  }

  /**
   * A ranking, said without maps or sorting: no id twice, every entry with its exact score, in descending
   * order, as many as the limit allows, and nothing left out that scores above something kept.
   */
  ghost predicate IsRanking(vector: seq<Row>, lexical: seq<Row>, limit: nat, r: seq<Scored<Entry>>) {
    var found := Ids(vector) + Ids(lexical);
    && NoDuplicates(IdsOf(r))
    && (forall i :: 0 <= i < |r| ==> r[i].item.id in found && r[i] == Fused(vector, lexical, r[i].item.id))
    && Descending(r)
    && |r| == (if |found| < limit then |found| else limit)
    && (forall id, i :: id in found && id !in IdsOf(r) && 0 <= i < |r| ==>
          Fused(vector, lexical, id).score <= r[i].score)
  }

  lemma {:induction false} DistinctCount(order: seq<int>, ids: set<int>)
    requires NoDuplicates(order) && forall id :: id in order <==> id in ids
    ensures |order| == |ids|
  {
    if order == [] {
      assert forall id :: id in ids ==> id in order;
      assert ids == {};
    } else {
      var init, last := order[..|order| - 1], order[|order| - 1];
      assert order == init + [last];
      DistinctCount(init, ids - {last});
    }
  }

  lemma FusedMembers(vector: seq<Row>, lexical: seq<Row>, order: seq<int>)
    requires NoDuplicates(order)
    ensures NoDuplicates(FusedAll(vector, lexical, order))
    ensures forall x: Scored<Entry> :: x in FusedAll(vector, lexical, order) <==>
                        x.item.id in order && x == Fused(vector, lexical, x.item.id)
  {
    var all := FusedAll(vector, lexical, order);
    forall i, j | 0 <= i < j < |all| ensures all[i] != all[j] {
      assert all[i].item.id == order[i] && all[j].item.id == order[j];
    }
    forall x: Scored<Entry> | x.item.id in order && x == Fused(vector, lexical, x.item.id) ensures x in all {
      var i :| 0 <= i < |order| && order[i] == x.item.id;
      assert all[i] == x;
    }
  }

  /** What sorting all found ids yields. */
  ghost predicate FullRanking(vector: seq<Row>, lexical: seq<Row>, s: seq<Scored<Entry>>) {
    && Descending(s) && NoDuplicates(s)
    && |s| == |Ids(vector) + Ids(lexical)|
    && (forall i :: 0 <= i < |s| ==>
          s[i].item.id in Ids(vector) + Ids(lexical) && s[i] == Fused(vector, lexical, s[i].item.id))
    && (forall id :: id in Ids(vector) + Ids(lexical) ==> Fused(vector, lexical, id) in s)
  }

  lemma SortedIsFull(vector: seq<Row>, lexical: seq<Row>, order: seq<int>)
    requires IsOrder(vector, lexical, order)
    ensures FullRanking(vector, lexical, SortDesc(FusedAll(vector, lexical, order)))
  {
    var all := FusedAll(vector, lexical, order);
    FusedMembers(vector, lexical, order);
    SortDescMembers(all);
    SortDescSound(all);
    DistinctCount(order, Ids(vector) + Ids(lexical));
    forall i | 0 <= i < |SortDesc(all)| ensures SortDesc(all)[i] in all {
      assert SortDesc(all)[i] in SortDesc(all);
    }
  }

  lemma FullIdsDistinct(vector: seq<Row>, lexical: seq<Row>, s: seq<Scored<Entry>>, n: nat)
    requires FullRanking(vector, lexical, s) && n <= |s|
    ensures NoDuplicates(IdsOf(s[..n]))
  {
    forall i, j | 0 <= i < j < n ensures s[i].item.id != s[j].item.id {
      assert s[i] != s[j];
    }
  }

  /** What a cut leaves out scores at most what it keeps. */
  lemma CutOffBelow(vector: seq<Row>, lexical: seq<Row>, s: seq<Scored<Entry>>, n: nat, id: int, i: nat)
    requires FullRanking(vector, lexical, s) && i < n <= |s|
    requires id in Ids(vector) + Ids(lexical) && id !in IdsOf(s[..n])
    ensures Fused(vector, lexical, id).score <= s[i].score
  {
    var kept := IdsOf(s[..n]);
    assert forall p :: 0 <= p < n ==> kept[p] == s[p].item.id && kept[p] in kept;
    var p :| 0 <= p < |s| && s[p] == Fused(vector, lexical, id);
  }

  lemma TopIsRanking(vector: seq<Row>, lexical: seq<Row>, limit: nat, s: seq<Scored<Entry>>)
    requires FullRanking(vector, lexical, s)
    ensures IsRanking(vector, lexical, limit, Top(s, limit))
  {
    var n := if |s| > limit then limit else |s|;
    assert Top(s, limit) == s[..n];
    FullIdsDistinct(vector, lexical, s, n);
    forall id, i | id in Ids(vector) + Ids(lexical) && id !in IdsOf(s[..n]) && 0 <= i < n
      ensures Fused(vector, lexical, id).score <= s[i].score
    {
      CutOffBelow(vector, lexical, s, n, id, i);
    }
  }

  /** Whatever the iteration order, fusion yields a ranking. */
  lemma FusionYieldsARanking(vector: seq<Row>, lexical: seq<Row>, limit: nat, order: seq<int>)
    requires IsOrder(vector, lexical, order)
    ensures IsRanking(vector, lexical, limit, FuseInOrder(vector, lexical, limit, order))
  {
    SortedIsFull(vector, lexical, order);
    TopIsRanking(vector, lexical, limit, SortDesc(FusedAll(vector, lexical, order)));
  }

  lemma {:induction false} Enumerate(ids: set<int>) returns (order: seq<int>)
    ensures NoDuplicates(order) && forall id :: id in order <==> id in ids
    decreases |ids|
  {
    if id :| id in ids {
      var rest := Enumerate(ids - {id});
      order := rest + [id];
    } else {
      order := [];
    }
  }

  /** What is left out of a ranking. */
  ghost predicate IsRest(vector: seq<Row>, lexical: seq<Row>, r: seq<Scored<Entry>>, rest: seq<int>) {
    NoDuplicates(rest) && forall id :: id in rest <==> id in Ids(vector) + Ids(lexical) && id !in IdsOf(r)
  }

  lemma RankingThenRestIsOrder(vector: seq<Row>, lexical: seq<Row>, limit: nat, r: seq<Scored<Entry>>, rest: seq<int>)
    requires IsRanking(vector, lexical, limit, r) && IsRest(vector, lexical, r, rest)
    ensures IsOrder(vector, lexical, IdsOf(r) + rest)
  {
    forall i | 0 <= i < |r| ensures IdsOf(r)[i] in Ids(vector) + Ids(lexical) {
      assert r[i].item.id == IdsOf(r)[i];
    }
  }

  lemma RankingThenRestDescends(vector: seq<Row>, lexical: seq<Row>, limit: nat, r: seq<Scored<Entry>>, rest: seq<int>)
    requires IsRanking(vector, lexical, limit, r) && IsRest(vector, lexical, r, rest)
    requires Descending(FusedAll(vector, lexical, rest))
    ensures Descending(r + FusedAll(vector, lexical, rest))
  {
    forall i, j | 0 <= i < |r| && 0 <= j < |rest|
      ensures r[i].score >= FusedAll(vector, lexical, rest)[j].score
    {
      assert rest[j] in rest;
    }
  }

  lemma FusedThenRest(vector: seq<Row>, lexical: seq<Row>, limit: nat, r: seq<Scored<Entry>>, rest: seq<int>)
    requires IsRanking(vector, lexical, limit, r)
    ensures FusedAll(vector, lexical, IdsOf(r) + rest) == r + FusedAll(vector, lexical, rest)
  {
  }

  lemma TopOfPrefix<T>(r: seq<T>, rest: seq<T>, limit: nat)
    requires |r| == if |r + rest| < limit then |r + rest| else limit
    ensures Top(r + rest, limit) == r
  {
  }

  lemma RankingThenRest(vector: seq<Row>, lexical: seq<Row>, limit: nat, r: seq<Scored<Entry>>, rest: seq<int>)
    requires IsRanking(vector, lexical, limit, r) && IsRest(vector, lexical, r, rest)
    requires Descending(FusedAll(vector, lexical, rest))
    ensures IsOrder(vector, lexical, IdsOf(r) + rest)
    ensures FuseInOrder(vector, lexical, limit, IdsOf(r) + rest) == r
  {
    var order := IdsOf(r) + rest;
    var all := r + FusedAll(vector, lexical, rest);
    RankingThenRestIsOrder(vector, lexical, limit, r, rest);
    RankingThenRestDescends(vector, lexical, limit, r, rest);
    FusedThenRest(vector, lexical, limit, r, rest);
    SortDescIdentity(all);
    DistinctCount(order, Ids(vector) + Ids(lexical));
    TopOfPrefix(r, FusedAll(vector, lexical, rest), limit);
  }

  lemma SortedIds(vector: seq<Row>, lexical: seq<Row>, ids: set<int>) returns (order: seq<int>)
    ensures NoDuplicates(order) && Descending(FusedAll(vector, lexical, order))
    ensures forall id :: id in order <==> id in ids
  {
    var some := Enumerate(ids);
    var all := FusedAll(vector, lexical, some);
    var sorted := SortDesc(all);
    FusedMembers(vector, lexical, some);
    SortDescMembers(all);
    SortDescSound(all);
    order := IdsOf(sorted);
    forall i | 0 <= i < |sorted| ensures sorted[i] == Fused(vector, lexical, order[i]) && order[i] in ids {
      assert sorted[i] in sorted;
    }
    assert FusedAll(vector, lexical, order) == sorted;
    forall i, j | 0 <= i < j < |order| ensures order[i] != order[j] {
      assert sorted[i] != sorted[j];
    }
    forall id | id in ids ensures id in order {
      assert Fused(vector, lexical, id) in sorted;
      var p :| 0 <= p < |sorted| && sorted[p] == Fused(vector, lexical, id);
      assert order[p] == id;
    }
  }

  /** Every ranking is what some iteration order yields: the rankings are exactly the possible results. */
  lemma EveryRankingIsPossible(vector: seq<Row>, lexical: seq<Row>, limit: nat, r: seq<Scored<Entry>>)
    ensures IsRanking(vector, lexical, limit, r) <==>
            exists order :: IsOrder(vector, lexical, order) && FuseInOrder(vector, lexical, limit, order) == r
  {
    if IsRanking(vector, lexical, limit, r) {
      var omitted := set id | id in Ids(vector) + Ids(lexical) && id !in IdsOf(r);
      var rest := SortedIds(vector, lexical, omitted);
      RankingThenRest(vector, lexical, limit, r, rest);
    }
    forall order | IsOrder(vector, lexical, order) && FuseInOrder(vector, lexical, limit, order) == r
      ensures IsRanking(vector, lexical, limit, r)
    {
      FusionYieldsARanking(vector, lexical, limit, order);
    }
  }

  // ---------------------------------------------------------------- both searches beat one

  /** The last rank up to which two finds certainly outweigh one; the searches return thirty rows. */
  const LAST_CERTAIN_RANK: nat := 61

  lemma ShareBounds(rows: seq<Row>, id: int)
    requires |rows| <= LAST_CERTAIN_RANK
    ensures Share(rows, id) <= 1.0 / 61.0
    ensures if id in Ids(rows) then Share(rows, id) >= 1.0 / 121.0 else Share(rows, id) == 0.0
  {
    var p := Position(rows, id);
    if p < |rows| {
      Reciprocals(61.0, 60.0 + (p + 1) as real);
      Reciprocals(60.0 + (p + 1) as real, 121.0);
    }
  }

  /** A chunk found by both searches outranks every chunk found by one of them only. */
  lemma BothBeatOne(vector: seq<Row>, lexical: seq<Row>, both: int, one: int)
    requires |vector| <= LAST_CERTAIN_RANK && |lexical| <= LAST_CERTAIN_RANK
    requires both in Ids(vector) && both in Ids(lexical)
    requires one !in Ids(vector) || one !in Ids(lexical)
    ensures Fused(vector, lexical, both).score > Fused(vector, lexical, one).score
  {
    hide Share;
    ShareBounds(vector, both);
    ShareBounds(lexical, both);
    ShareBounds(vector, one);
    ShareBounds(lexical, one);
  }

  /** In every ranking the chunks found by both searches come first. */
  lemma BothComeFirst(vector: seq<Row>, lexical: seq<Row>, limit: nat, r: seq<Scored<Entry>>, i: nat, both: int)
    requires |vector| <= SEARCH_TOP_K && |lexical| <= SEARCH_TOP_K
    requires IsRanking(vector, lexical, limit, r) && i < |r|
    requires both in Ids(vector) && both in Ids(lexical)
    requires r[i].item.id !in Ids(vector) || r[i].item.id !in Ids(lexical)
    ensures exists j :: 0 <= j < i && r[j].item.id == both
  {
    BothBeatOne(vector, lexical, both, r[i].item.id);
    assert both in IdsOf(r);
    var j :| 0 <= j < |r| && IdsOf(r)[j] == both;
    assert r[j].item.id == both;
  }

  /** Whether two finds outweigh one whatever two searches of up to n rows return. */
  ghost predicate BothAlwaysBeatOne(n: nat) {
    forall vector, lexical, both, one ::
      |vector| <= n && |lexical| <= n && DistinctRows(vector) && DistinctRows(lexical) &&
      both in Ids(vector) && both in Ids(lexical) && (one !in Ids(vector) || one !in Ids(lexical)) ==>
        Fused(vector, lexical, both).score > Fused(vector, lexical, one).score
  }

  lemma PositionOf(rows: seq<Row>, i: nat)
    requires i < |rows| && DistinctRows(rows)
    ensures Position(rows, rows[i].id) == i && rows[i].id in Ids(rows)
  {
    assert rows[i] in rows;
  }

  /** Sixty-two rows whose ids count up from the given one, except that the last is 61. */
  function Column(first: int): seq<Row> {
    seq(62, i => Row(if i == 61 then 61 else first + i, 0.0))
  }

  lemma ShareAt(rows: seq<Row>, i: nat)
    requires i < |rows| && DistinctRows(rows)
    ensures Share(rows, rows[i].id) == 1.0 / (RRF_CONSTANT + (i + 1) as real) && rows[i].id in Ids(rows)
  {
    PositionOf(rows, i);
  }

  lemma ShareOfOther(rows: seq<Row>, id: int)
    requires id !in Ids(rows)
    ensures Share(rows, id) == 0.0
  {
  }

  lemma ColumnRows(first: int)
    requires first == 0 || first > 61
    ensures DistinctRows(Column(first)) && Column(first)[61].id == 61 && Column(first)[0].id == first
  {
  }

  /** Last in both searches and first in one: the scores are equal. */
  lemma {:induction false} TieAtRank62()
    ensures DistinctRows(Column(0)) && DistinctRows(Column(100))
    ensures 61 in Ids(Column(0)) && 61 in Ids(Column(100)) && 0 !in Ids(Column(100))
    ensures Fused(Column(0), Column(100), 61).score == Fused(Column(0), Column(100), 0).score
  {
    assert 0 !in Ids(Column(100));
    hide Share, Column, Ids, ScoreIn, DistinctRows;
    ColumnRows(0);
    ColumnRows(100);
    ShareAt(Column(0), 61);
    ShareAt(Column(0), 0);
    ShareAt(Column(100), 61);
    ShareOfOther(Column(100), 0);
  }

  /** With the constant 60, two finds outweigh one in searches of up to 61 rows and no more. */
  lemma BothBeatOneIff(n: nat)
    ensures BothAlwaysBeatOne(n) <==> n <= LAST_CERTAIN_RANK
  {
    if n <= LAST_CERTAIN_RANK {
      forall vector, lexical, both, one |
        |vector| <= n && |lexical| <= n && DistinctRows(vector) && DistinctRows(lexical) &&
        both in Ids(vector) && both in Ids(lexical) && (one !in Ids(vector) || one !in Ids(lexical))
        ensures Fused(vector, lexical, both).score > Fused(vector, lexical, one).score
      {
        BothBeatOne(vector, lexical, both, one);
      }
    } else {
      TieAtRank62();
    }
  }

  // ---------------------------------------------------------------- the two implementations

  /** One more row gives its id a share and a score, and leaves every other id alone. */
  lemma RowAdds(rows: seq<Row>, i: nat, id: int)
    requires i < |rows| && DistinctRows(rows)
    ensures Ids(rows[..i + 1]) == Ids(rows[..i]) + {rows[i].id}
    ensures id == rows[i].id ==>
              && id !in Ids(rows[..i])
              && Share(rows[..i + 1], id) == 1.0 / (RRF_CONSTANT + (i + 1) as real)
              && ScoreIn(rows[..i + 1], id) == Some(rows[i].score)
    ensures id != rows[i].id ==>
              Share(rows[..i + 1], id) == Share(rows[..i], id) && ScoreIn(rows[..i + 1], id) == ScoreIn(rows[..i], id)
  {
    assert rows[..i + 1][..i] == rows[..i];
    assert rows[..i + 1] == rows[..i] + [rows[i]];
    forall r | r in rows[..i] ensures r.id != rows[i].id {
    }
  }

  /** The map after the vector rows and some of the lexical rows. */
  ghost predicate Collected(byId: map<int, Scored<Entry>>, vector: seq<Row>, lexical: seq<Row>) {
    && byId.Keys == Ids(vector) + Ids(lexical)
    && forall id :: id in byId ==> byId[id] == Fused(vector, lexical, id)
  }

  lemma VectorRowCollected(byId: map<int, Scored<Entry>>, vector: seq<Row>, i: nat)
    requires i < |vector| && DistinctRows(vector) && Collected(byId, vector[..i], [])
    ensures Collected(byId[vector[i].id := Scored(Entry(vector[i].id, Some(vector[i].score), None),
                                                  1.0 / (RRF_CONSTANT + (i + 1) as real))],
                      vector[..i + 1], [])
  {
    forall id ensures Fused(vector[..i + 1], [], id) ==
                      if id == vector[i].id
                      then Scored(Entry(id, Some(vector[i].score), None), 1.0 / (RRF_CONSTANT + (i + 1) as real))
                      else Fused(vector[..i], [], id)
    {
      RowAdds(vector, i, id);
    }
    RowAdds(vector, i, vector[i].id);
  }

  /** A lexical row adds its share to an id that the vector search found too, or starts a new one. */
  function WithLexical(byId: map<int, Scored<Entry>>, row: Row, share: real): map<int, Scored<Entry>> {
    if row.id in byId
    then
      var existing := byId[row.id];
      byId[row.id := Scored(existing.item.(lexicalScore := Some(row.score)), existing.score + share)]
    else byId[row.id := Scored(Entry(row.id, None, Some(row.score)), share)]
  }

  lemma LexicalRowCollected(byId: map<int, Scored<Entry>>, vector: seq<Row>, lexical: seq<Row>, i: nat)
    requires i < |lexical| && DistinctRows(lexical) && Collected(byId, vector, lexical[..i])
    ensures Collected(WithLexical(byId, lexical[i], 1.0 / (RRF_CONSTANT + (i + 1) as real)),
                      vector, lexical[..i + 1])
  {
    var row := lexical[i];
    var after := WithLexical(byId, row, 1.0 / (RRF_CONSTANT + (i + 1) as real));
    RowAdds(lexical, i, row.id);
    forall id | id in after ensures after[id] == Fused(vector, lexical[..i + 1], id) {
      RowAdds(lexical, i, id);
    }
  }

  method CollectVector(vector: seq<Row>) returns (byId: map<int, Scored<Entry>>)
    requires DistinctRows(vector)
    ensures Collected(byId, vector, [])
  {
    byId := map[];
    for rank := 0 to |vector|
      invariant Collected(byId, vector[..rank], [])
    {
      var row := vector[rank];
      VectorRowCollected(byId, vector, rank);
      byId := byId[row.id := Scored(Entry(row.id, Some(row.score), None),
                                    1.0 / (RRF_CONSTANT + (rank + 1) as real))];
    }
    assert vector[..|vector|] == vector;
  }

  method AddLexical(found: map<int, Scored<Entry>>, ghost vector: seq<Row>, lexical: seq<Row>)
    returns (byId: map<int, Scored<Entry>>)
    requires DistinctRows(lexical) && Collected(found, vector, [])
    ensures Collected(byId, vector, lexical)
  {
    byId := found;
    for rank := 0 to |lexical|
      invariant Collected(byId, vector, lexical[..rank])
    {
      var row := lexical[rank];
      var share := 1.0 / (RRF_CONSTANT + (rank + 1) as real);
      LexicalRowCollected(byId, vector, lexical, rank);
      byId := WithLexical(byId, row, share);
    }
    assert lexical[..|lexical|] == lexical;
  }

  lemma OrderSnoc(vector: seq<Row>, lexical: seq<Row>, order: seq<int>, id: int)
    requires NoDuplicates(order) && id !in order
    ensures NoDuplicates(order + [id]) && forall other :: other in order + [id] <==> other in order || other == id
    ensures FusedAll(vector, lexical, order + [id]) ==
            FusedAll(vector, lexical, order) + [Fused(vector, lexical, id)]
  {
  }

  /** Copies the map's values in the order in which it happens to be iterated. */
  method CopyValues(byId: map<int, Scored<Entry>>, ghost vector: seq<Row>, ghost lexical: seq<Row>)
    returns (merged: seq<Scored<Entry>>, ghost order: seq<int>)
    requires Collected(byId, vector, lexical)
    ensures IsOrder(vector, lexical, order) && merged == FusedAll(vector, lexical, order)
  {
    var todo := byId.Keys;
    merged, order := [], [];
    while todo != {}
      invariant todo <= byId.Keys
      invariant NoDuplicates(order) && forall id :: id in order <==> id in byId && id !in todo
      invariant merged == FusedAll(vector, lexical, order)
      decreases |todo|
    {
      var id :| id in todo;
      OrderSnoc(vector, lexical, order, id);
      merged := merged + [byId[id]];
      order := order + [id];
      todo := todo - {id};
    }
  }

  /** The Backend's fusion: fill the map from both searches, copy its values, sort and cut. */
  method Fuse(vector: seq<Row>, lexical: seq<Row>, limit: int) returns (merged: seq<Scored<Entry>>)
    requires DistinctRows(vector) && DistinctRows(lexical)
    ensures IsRanking(vector, lexical, Limit(limit), merged)
  {
    var byId := CollectVector(vector);
    byId := AddLexical(byId, vector, lexical);
    ghost var order;
    merged, order := CopyValues(byId, vector, lexical);
    FusionYieldsARanking(vector, lexical, Limit(limit), order);
    merged := SortDesc(merged);
    var n := if limit <= 0 then DEFAULT_TOP_K else limit;
    if n > MAX_TOP_K {
      n := MAX_TOP_K;
    }
    if |merged| > n {
      merged := merged[..n];
    }
  }

  method ValuesInOrder(byId: map<int, Scored<Entry>>, ghost vector: seq<Row>, ghost lexical: seq<Row>, keys: seq<int>)
    returns (values: seq<Scored<Entry>>)
    requires Collected(byId, vector, lexical) && forall id :: id in keys ==> id in byId
    ensures values == FusedAll(vector, lexical, keys)
  {
    values := [];
    for i := 0 to |keys|
      invariant |values| == i && forall j :: 0 <= j < i ==> values[j] == Fused(vector, lexical, keys[j])
    {
      assert keys[i] in keys;
      values := values + [byId[keys[i]]];
    }
  }

  /** The evaluator's fusion: a dictionary keeps the order in which ids were first found. */
  method EvaluatorFuse(vector: seq<Row>, lexical: seq<Row>) returns (merged: seq<Scored<Entry>>)
    requires DistinctRows(vector) && DistinctRows(lexical)
    ensures IsRanking(vector, lexical, DEFAULT_TOP_K, merged)
  {
    var byId := CollectVector(vector);
    byId := AddLexical(byId, vector, lexical);
    var keys := FirstFound(vector, lexical);
    merged := ValuesInOrder(byId, vector, lexical, keys);
    FusionYieldsARanking(vector, lexical, DEFAULT_TOP_K, keys);
    merged := SortDesc(merged);
    if |merged| > DEFAULT_TOP_K {
      merged := merged[..DEFAULT_TOP_K];
    }
  }

  /** The keys of the dictionary in insertion order. */
  method FirstFound(vector: seq<Row>, lexical: seq<Row>) returns (keys: seq<int>)
    requires DistinctRows(vector) && DistinctRows(lexical)
    ensures IsOrder(vector, lexical, keys)
  {
    keys := [];
    for i := 0 to |vector|
      invariant NoDuplicates(keys) && forall id :: id in keys <==> id in Ids(vector[..i])
    {
      RowAdds(vector, i, vector[i].id);
      keys := keys + [vector[i].id];
    }
    assert vector[..|vector|] == vector;
    for i := 0 to |lexical|
      invariant NoDuplicates(keys) && forall id :: id in keys <==> id in Ids(vector) + Ids(lexical[..i])
    {
      RowAdds(lexical, i, lexical[i].id);
      if lexical[i].id !in keys {
        keys := keys + [lexical[i].id];
      }
    }
    assert lexical[..|lexical|] == lexical;
  }
}
