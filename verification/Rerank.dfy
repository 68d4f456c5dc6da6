/** Reranking: what is sent, which answers are accepted and cached, and how the Backend merges them. */
module Rerank {
  import opened Basics
  import opened Options
  import opened Ranking
  import opened Text

  // ---------------------------------------------------------------- truncation

  /** Whether the first n characters of a document may be sent. */
  predicate Sendable(limit: nat, text: string, n: nat) {
    n <= |text| && n <= limit * 4 && EstimateTokens(text[..n]) <= limit
  }

  ghost predicate IsLongestSendable(limit: nat, text: string, n: nat) {
    Sendable(limit, text, n) && forall m :: n < m <= |text| ==> !Sendable(limit, text, m)
  }

  lemma ShorterIsSendable(limit: nat, text: string, n: nat, m: nat)
    requires Sendable(limit, text, n) && m <= n
    ensures Sendable(limit, text, m)
  {
    EstimatePrefixMonotone(text, m, n);
  }

  /** Binary search for the longest prefix within the token and the character limit. */
  method TruncateDocument(setting: int, text: string) returns (sent: string)
    ensures var limit := if setting < 1 then 1 else setting;
            sent <= text && IsLongestSendable(limit, text, |sent|)
    ensures var limit := if setting < 1 then 1 else setting;
            && |sent| <= 4 * limit && EstimateTokens(sent) <= limit
            && (|sent| < |text| ==> |sent| == 4 * limit || EstimateTokens(text[..|sent| + 1]) > limit)
  {
    var limit := if setting < 1 then 1 else setting;
    var maxChars := limit * 4;
    if |text| <= maxChars && EstimateTokens(text) <= limit {
      assert text[..|text|] == text;
      return text;
    }
    var low, high := 0, if |text| < maxChars then |text| else maxChars;
    assert text[..0] == "";
    while low < high
      invariant low <= high <= |text| && high <= maxChars
      invariant Sendable(limit, text, low)
      invariant forall m :: high < m <= |text| ==> !Sendable(limit, text, m)
    {
      var middle := (low + high + 1) / 2;
      if EstimateTokens(text[..middle]) <= limit {
        low := middle;
      } else {
        forall m | middle <= m <= |text| ensures !Sendable(limit, text, m) {
          if Sendable(limit, text, m) {
            ShorterIsSendable(limit, text, m, middle);
          }
        }
        high := middle - 1;
      }
    }
    sent := text[..low];
    assert low < |text| ==> !Sendable(limit, text, low + 1);
  }

  // ---------------------------------------------------------------- requests and answers

  datatype Candidate = Candidate(id: int, content: string)

  datatype Request = Request(candidates: seq<Candidate>, topN: nat)

  /** A float as the answer may carry it. */
  datatype Number = Finite(value: real) | NotFinite

  datatype Item = Item(id: int, score: Number)

  datatype Response = Response(items: seq<Item>, model: string, degraded: bool)

  /** What a field of the remote answer may hold. */
  datatype Json = Absent | Bool | Int(n: int) | Float(x: Number) | Other

  datatype RawItem = NotAnObject | Object(index: Json, relevance: Json, score: Json)

  function Expected(req: Request): nat {
    Min(req.topN, |req.candidates|)
  }

  function LocalItems(req: Request): seq<Item> {
    seq(Expected(req), i requires 0 <= i < Expected(req) => Item(req.candidates[i].id, Finite(1.0 / (i + 1) as real)))
  }

  const FALLBACK_MODEL: string := "rrf-order-fallback"

  function LocalRerank(req: Request): Response {
    Response(LocalItems(req), FALLBACK_MODEL, true)
  }

  /** The score field: relevance_score when present, else score. */
  function ScoreField(raw: RawItem): Json
    requires raw.Object?
  {
    if raw.relevance.Absent? then raw.score else raw.relevance
  }

  function PowerOfTwo(n: nat): (p: nat)
    ensures p >= 1
  {
    if n == 0 then 1 else 2 * PowerOfTwo(n - 1)
  }

  /** The least integer that rounds beyond the greatest double (section 4 of IEEE 754); converting it raises. */
  const FLOAT_LIMIT: int := (PowerOfTwo(54) - 1) * PowerOfTwo(970)

  /** A finite float, or an integer that float() takes; anything else refuses the answer or raises. */
  predicate IsScore(j: Json) {
    (j.Int? && -FLOAT_LIMIT < j.n < FLOAT_LIMIT) || (j.Float? && j.x.Finite?)
  }

  function ScoreValue(j: Json): Number {
    match j
    case Int(n) => Finite(n as real)
    case Float(x) => x
    case _ => NotFinite
  }

  /** An entry names a candidate by its position and carries a finite score. */
  predicate Names(req: Request, raw: RawItem) {
    raw.Object? && raw.index.Int? && 0 <= raw.index.n < |req.candidates| && IsScore(ScoreField(raw))
  }

  function ItemOf(req: Request, raw: RawItem): Item
    requires Names(req, raw)
  {
    Item(req.candidates[raw.index.n].id, ScoreValue(ScoreField(raw)))
  }

  /** What an entry must hold, and what is made of it: relevance_score counts before score, even when it is bad. */
  lemma NamedEntries(req: Request, raw: RawItem)
    ensures Names(req, raw) <==>
            && raw.Object? && raw.index.Int? && 0 <= raw.index.n < |req.candidates|
            && var field := if raw.relevance == Absent then raw.score else raw.relevance;
               (field.Float? && field.x.Finite?) || (field.Int? && -FLOAT_LIMIT < field.n < FLOAT_LIMIT)
    ensures Names(req, raw) ==>
              var field := if raw.relevance == Absent then raw.score else raw.relevance;
              && ItemOf(req, raw).id == req.candidates[raw.index.n].id
              && ItemOf(req, raw).score == if field.Float? then field.x else Finite(field.n as real)
  {
  }

  /** The entries that are used all name candidates, no two the same one. */
  ghost predicate Acceptable(req: Request, raws: seq<RawItem>) {
    && Expected(req) <= |raws|
    && (forall k :: 0 <= k < Expected(req) ==> Names(req, raws[k]))
    && forall j, k :: 0 <= j < k < Expected(req) ==> raws[j].index != raws[k].index
  }

  method RemoteItems(req: Request, answer: Option<seq<RawItem>>) returns (items: Option<seq<Item>>)
    ensures items.Some? <==> answer.Some? && Acceptable(req, answer.value)
    ensures items.Some? ==>
              && |items.value| == Expected(req)
              && forall k :: 0 <= k < Expected(req) ==> items.value[k] == ItemOf(req, answer.value[k])
  {
    if answer.None? || |answer.value| < Expected(req) {
      return None;
    }
    var raws := answer.value;
    var seen: set<int> := {};
    var found: seq<Item> := [];
    for i := 0 to Expected(req)
      invariant |found| == i
      invariant forall k :: 0 <= k < i ==> Names(req, raws[k]) && found[k] == ItemOf(req, raws[k])
      invariant forall n :: n in seen <==> exists k :: 0 <= k < i && raws[k].index == Int(n)
      invariant forall j, k :: 0 <= j < k < i ==> raws[j].index != raws[k].index
    {
      var raw := raws[i];
      if !Names(req, raw) || raw.index.n in seen {
        return None;
      }
      seen := seen + {raw.index.n};
      found := found + [ItemOf(req, raw)];
    }
    items := Some(found);
  }

  // ---------------------------------------------------------------- the cache

  ghost predicate DistinctIds(items: seq<Item>) {
    forall i, j :: 0 <= i < j < |items| ==> items[i].id != items[j].id
  }

  ghost predicate DistinctCandidates(req: Request) {
    forall i, j :: 0 <= i < j < |req.candidates| ==> req.candidates[i].id != req.candidates[j].id
  }

  function CandidateIds(req: Request): set<int> {
    set c | c in req.candidates :: c.id
  }

  function ItemIds(items: seq<Item>): set<int> {
    set i | i in items :: i.id
  }

  /** Whether a cached response may be used for a request. */
  predicate ValidCached(req: Request, model: string, response: Response) {
    && !response.degraded && response.model == model
    && |response.items| == Expected(req) && |ItemIds(response.items)| == Expected(req)
    && ItemIds(response.items) <= CandidateIds(req)
    && forall i :: i in response.items ==> i.score.Finite?
  }

  lemma DistinctIdsSnoc(items: seq<Item>, last: Item)
    ensures ItemIds(items + [last]) == ItemIds(items) + {last.id}
    ensures DistinctIds(items + [last]) <==> DistinctIds(items) && last.id !in ItemIds(items)
  {
    var more := items + [last];
    assert forall i :: 0 <= i < |items| ==> more[i] == items[i] && items[i] in items;
    if last.id in ItemIds(items) {
      var i :| 0 <= i < |items| && items[i].id == last.id;
      assert more[i].id == more[|items|].id;
    }
  }

  lemma {:induction false} DistinctIdsCount(items: seq<Item>)
    ensures |ItemIds(items)| <= |items|
    ensures |ItemIds(items)| == |items| <==> DistinctIds(items)
  {
    if items != [] {
      var init, last := items[..|items| - 1], items[|items| - 1];
      assert items == init + [last];
      DistinctIdsCount(init);
      DistinctIdsSnoc(init, last);
    }
  }

  /** The cache check in full: this model's own answer, complete, for distinct candidates of this request. */
  lemma ValidCachedIff(req: Request, model: string, response: Response)
    ensures ValidCached(req, model, response) <==>
            && !response.degraded && response.model == model
            && |response.items| == (if req.topN < |req.candidates| then req.topN else |req.candidates|)
            && DistinctIds(response.items)
            && forall i :: 0 <= i < |response.items| ==>
                 && response.items[i].score.Finite?
                 && exists k :: 0 <= k < |req.candidates| && req.candidates[k].id == response.items[i].id
  {
    DistinctIdsCount(response.items);
    if ValidCached(req, model, response) {
      forall i | 0 <= i < |response.items|
        ensures exists k :: 0 <= k < |req.candidates| && req.candidates[k].id == response.items[i].id
      {
        assert response.items[i] in response.items && response.items[i].id in ItemIds(response.items);
        assert response.items[i].id in CandidateIds(req);
      }
    } else if forall i :: 0 <= i < |response.items| ==>
                exists k :: 0 <= k < |req.candidates| && req.candidates[k].id == response.items[i].id {
      forall id | id in ItemIds(response.items) ensures id in CandidateIds(req) {
        var i :| 0 <= i < |response.items| && response.items[i].id == id;
        var k :| 0 <= k < |req.candidates| && req.candidates[k].id == id;
        assert req.candidates[k] in req.candidates;
      }
    }
  }

  /** An accepted answer would be accepted from the cache exactly when its items have distinct ids. */
  lemma AcceptedIsCacheable(req: Request, model: string, raws: seq<RawItem>, items: seq<Item>)
    requires Acceptable(req, raws) && |items| == Expected(req)
    requires forall k :: 0 <= k < Expected(req) ==> items[k] == ItemOf(req, raws[k])
    ensures ValidCached(req, model, Response(items, model, false)) <==> DistinctIds(items)
    ensures DistinctCandidates(req) ==> DistinctIds(items)
  {
    DistinctIdsCount(items);
    forall id | id in ItemIds(items) ensures id in CandidateIds(req) {
      var k :| 0 <= k < |items| && items[k].id == id;
      assert req.candidates[raws[k].index.n] in req.candidates;
    }
    forall i | i in items ensures i.score.Finite? {
      var k :| 0 <= k < |items| && items[k] == i;
      assert Names(req, raws[k]);
    }
  }

  /**
   * One call: the configured endpoint, the cached response if any, and the answer of the remote model; none
   * when the call fails. The second result is what is written to the cache.
   */
  method Rerank(req: Request, model: string, configured: bool, cached: Option<Response>,
                answer: Option<Option<seq<RawItem>>>)
    returns (response: Response, stored: Option<Response>)
    ensures req.candidates == [] ==> response == Response([], model, false) && stored == None
    ensures req.candidates != [] && configured && cached.Some? && ValidCached(req, model, cached.value) ==>
              response == cached.value && stored == None
    ensures req.candidates != [] && configured && !(cached.Some? && ValidCached(req, model, cached.value)) &&
            answer.Some? && answer.value.Some? && Acceptable(req, answer.value.value) ==>
              && !response.degraded && response.model == model && |response.items| == Expected(req)
              && (forall k :: 0 <= k < Expected(req) ==> response.items[k] == ItemOf(req, answer.value.value[k]))
              && stored == Some(response)
    ensures response.degraded <==>
            req.candidates != [] &&
            (!configured ||
             (!(cached.Some? && ValidCached(req, model, cached.value)) &&
              !(answer.Some? && answer.value.Some? && Acceptable(req, answer.value.value))))
    ensures response.degraded ==> response == LocalRerank(req) && stored == None
    ensures stored.Some? ==> !stored.value.degraded && response == stored.value
    ensures stored.Some? ==> (ValidCached(req, model, stored.value) <==> DistinctIds(stored.value.items))
    ensures stored.Some? && DistinctCandidates(req) ==> ValidCached(req, model, stored.value)
    ensures !response.degraded && DistinctCandidates(req) && req.candidates != [] ==>
              ValidCached(req, model, response)
  {
    stored := None;
    if |req.candidates| == 0 {
      return Response([], model, false), None;
    }
    if !configured {
      return LocalRerank(req), None;
    }
    if cached.Some? && ValidCached(req, model, cached.value) {
      return cached.value, None;
    }
    if answer.None? {
      return LocalRerank(req), None;
    }
    var items := RemoteItems(req, answer.value);
    if items.None? {
      return LocalRerank(req), None;
    }
    AcceptedIsCacheable(req, model, answer.value.value, items.value);
    response := Response(items.value, model, false);
    stored := Some(response);
  }

  // ---------------------------------------------------------------- the Backend's merge

  /** The score of each chunk id; a later item replaces an earlier one. */
  function ScoreMap(items: seq<(int, real)>): map<int, real> {
    if items == [] then map[] else ScoreMap(items[..|items| - 1])[items[|items| - 1].0 := items[|items| - 1].1]
  }

  function Rescored(retrieved: seq<Scored<Candidate>>, scores: map<int, real>): seq<Scored<Candidate>> {
    if retrieved == [] then []
    else
      var before := Rescored(retrieved[..|retrieved| - 1], scores);
      var last := retrieved[|retrieved| - 1].item;
      if last.id in scores then before + [Scored(last, scores[last.id])] else before
  }

  function Merged(retrieved: seq<Scored<Candidate>>, items: seq<(int, real)>): seq<Scored<Candidate>> {
    var filtered := SortDesc(Rescored(retrieved, ScoreMap(items)));
    if |filtered| > 0 then filtered else retrieved
  }

  method MergeRerank(retrieved: seq<Scored<Candidate>>, items: seq<(int, real)>) returns (merged: seq<Scored<Candidate>>)
    ensures merged == Merged(retrieved, items)
  {
    var scores: map<int, real> := map[];
    for i := 0 to |items|
      invariant scores == ScoreMap(items[..i])
    {
      assert items[..i + 1][..i] == items[..i];
      scores := scores[items[i].0 := items[i].1];
    }
    assert items[..|items|] == items;
    var filtered: seq<Scored<Candidate>> := [];
    for i := 0 to |retrieved|
      invariant filtered == Rescored(retrieved[..i], scores)
    {
      assert retrieved[..i + 1][..i] == retrieved[..i];
      if retrieved[i].item.id in scores {
        filtered := filtered + [Scored(retrieved[i].item, scores[retrieved[i].item.id])];
      }
    }
    assert retrieved[..|retrieved|] == retrieved;
    filtered := SortDesc(filtered);
    merged := if |filtered| > 0 then filtered else retrieved;
  }

  ghost predicate DistinctScores(items: seq<(int, real)>) {
    forall i, j :: 0 <= i < j < |items| ==> items[i].0 != items[j].0
  }

  lemma {:induction false} ScoreMapHolds(items: seq<(int, real)>)
    requires DistinctScores(items)
    ensures forall id, score :: (id, score) in items <==> id in ScoreMap(items) && ScoreMap(items)[id] == score
  {
    if items != [] {
      var init, last := items[..|items| - 1], items[|items| - 1];
      assert items == init + [last];
      ScoreMapHolds(init);
      forall score ensures (last.0, score) !in init {
      }
    }
  }

  lemma {:induction false} RescoredHolds(retrieved: seq<Scored<Candidate>>, scores: map<int, real>)
    requires DistinctRetrieved(retrieved)
    ensures NoDuplicates(Rescored(retrieved, scores))
    ensures forall x: Scored<Candidate> :: x in Rescored(retrieved, scores) <==>
              x.item.id in scores && scores[x.item.id] == x.score &&
              exists r :: r in retrieved && r.item == x.item
  {
    if retrieved != [] {
      var init, last := retrieved[..|retrieved| - 1], retrieved[|retrieved| - 1];
      assert retrieved == init + [last];
      RescoredHolds(init, scores);
      forall r | r in init ensures r.item.id != last.item.id {
      }
    }
  }

  lemma SomeoneIsNamed(retrieved: seq<Scored<Candidate>>, items: seq<(int, real)>)
    requires DistinctRetrieved(retrieved) && DistinctScores(items)
    requires exists r, i :: r in retrieved && i in items && r.item.id == i.0
    ensures Rescored(retrieved, ScoreMap(items)) != []
  {
    ScoreMapHolds(items);
    RescoredHolds(retrieved, ScoreMap(items));
    var r, i :| r in retrieved && i in items && r.item.id == i.0;
    assert (i.0, i.1) in items;
    assert Scored(r.item, i.1) in Rescored(retrieved, ScoreMap(items));
  }

  /**
   * The merge of an accepted answer: exactly the candidates it names, each with its score, best first, and
   * equal scores in fused order.
   */
  lemma {:induction false} MergeSortsTheNamed(retrieved: seq<Scored<Candidate>>, items: seq<(int, real)>)
    requires DistinctRetrieved(retrieved) && DistinctScores(items)
    requires exists r, i :: r in retrieved && i in items && r.item.id == i.0
    ensures IsStableSort(Rescored(retrieved, ScoreMap(items)), Merged(retrieved, items))
    ensures forall x: Scored<Candidate> :: x in Merged(retrieved, items) <==>
              (x.item.id, x.score) in items && exists r :: r in retrieved && r.item == x.item
  {
    hide ScoreMap, Rescored, SortDesc, IsStableSort, NoDuplicates, DistinctRetrieved, DistinctScores;
    var scores := ScoreMap(items);
    var filtered := Rescored(retrieved, scores);
    SomeoneIsNamed(retrieved, items);
    RescoredHolds(retrieved, scores);
    SortDescSound(filtered);
    SortDescMembers(filtered);
    assert filtered[0] in SortDesc(filtered);
    ScoreMapHolds(items);
  }

  const TOP_N: nat := 8

  ghost predicate DistinctRetrieved(retrieved: seq<Scored<Candidate>>) {
    forall i, j :: 0 <= i < j < |retrieved| ==> retrieved[i].item.id != retrieved[j].item.id
  }

  function RequestFor(retrieved: seq<Scored<Candidate>>): Request {
    Request(seq(|retrieved|, i requires 0 <= i < |retrieved| => retrieved[i].item), TOP_N)
  }

  /** The first n items of the local fallback as id and score. */
  function Fallback(retrieved: seq<Scored<Candidate>>, n: nat): seq<(int, real)>
    requires n <= |retrieved|
  {
    seq(n, i requires 0 <= i < n => (retrieved[i].item.id, 1.0 / (i + 1) as real))
  }

  /** The first n retrieved candidates under the fallback's scores. */
  function InFusedOrder(retrieved: seq<Scored<Candidate>>, n: nat): seq<Scored<Candidate>>
    requires n <= |retrieved|
  {
    seq(n, i requires 0 <= i < n => Scored(retrieved[i].item, 1.0 / (i + 1) as real))
  }

  lemma {:induction false} FallbackScores(retrieved: seq<Scored<Candidate>>, n: nat)
    requires DistinctRetrieved(retrieved) && n <= |retrieved|
    ensures var scores := ScoreMap(Fallback(retrieved, n));
            forall i :: 0 <= i < |retrieved| ==>
              if i < n then retrieved[i].item.id in scores && scores[retrieved[i].item.id] == 1.0 / (i + 1) as real
              else retrieved[i].item.id !in scores
  {
    if n > 0 {
      FallbackScores(retrieved, n - 1);
      assert Fallback(retrieved, n)[..n - 1] == Fallback(retrieved, n - 1);
    }
  }

  lemma {:induction false} RescoredFallback(retrieved: seq<Scored<Candidate>>, n: nat, scores: map<int, real>, k: nat)
    requires n <= |retrieved| && k <= |retrieved|
    requires forall i :: 0 <= i < |retrieved| ==>
               if i < n then retrieved[i].item.id in scores && scores[retrieved[i].item.id] == 1.0 / (i + 1) as real
               else retrieved[i].item.id !in scores
    ensures Rescored(retrieved[..k], scores) == InFusedOrder(retrieved, if k < n then k else n)
  {
    if k > 0 {
      RescoredFallback(retrieved, n, scores, k - 1);
      assert retrieved[..k][..k - 1] == retrieved[..k - 1];
    }
  }

  lemma FallbackDescends(retrieved: seq<Scored<Candidate>>, n: nat)
    requires n <= |retrieved|
    ensures Descending(InFusedOrder(retrieved, n))
  {
    var order := InFusedOrder(retrieved, n);
    forall i, j | 0 <= i < j < n ensures order[i].score >= order[j].score {
      Reciprocals((i + 1) as real, (j + 1) as real);
    }
  }

  /** When reranking degrades, the merge yields exactly the first eight fused candidates in their order. */
  lemma FallbackKeepsTheFusedOrder(retrieved: seq<Scored<Candidate>>)
    requires DistinctRetrieved(retrieved)
    ensures var n := Expected(RequestFor(retrieved));
            && n == (if |retrieved| < 8 then |retrieved| else 8)
            && (forall i :: 0 <= i < n ==>
                  LocalRerank(RequestFor(retrieved)).items[i] ==
                  Item(Fallback(retrieved, n)[i].0, Finite(Fallback(retrieved, n)[i].1)))
            && Merged(retrieved, Fallback(retrieved, n)) == InFusedOrder(retrieved, n)
  {
    var n := Expected(RequestFor(retrieved));
    var scores := ScoreMap(Fallback(retrieved, n));
    FallbackScores(retrieved, n);
    RescoredFallback(retrieved, n, scores, |retrieved|);
    assert retrieved[..|retrieved|] == retrieved;
    FallbackDescends(retrieved, n);
    SortDescIdentity(InFusedOrder(retrieved, n));
  }
}
