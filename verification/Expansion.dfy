/** Parent expansion: the ranked hits choose materials, and their body chunks fill two budgets greedily. */
module Expansion {
  import opened Basics
  import opened Options
  import opened Chunking

  /** A row of the chunk table as retrieval returns it. */
  datatype Retrieved = Retrieved(material: int, kind: Kind, index: int, heading: string, content: string,
                                 page: Option<int>, tokens: nat, asset: Option<int>, score: real)

  datatype Budget = Budget(materials: nat, chunks: nat, tokens: nat)

  // ---------------------------------------------------------------- which materials

  function MaterialsOf(ranked: seq<Retrieved>): seq<int> {
    if ranked == [] then []
    else
      var before := MaterialsOf(ranked[..|ranked| - 1]);
      var material := ranked[|ranked| - 1].material;
      if material in before then before else before + [material]
  }

  /** A budget of zero materials means no limit: the cut is made only when the count is reached. */
  function Chosen(ranked: seq<Retrieved>, limit: nat): seq<int> {
    var all := MaterialsOf(ranked);
    if limit > 0 then Top(all, limit) else all
  }

  /** The first, and so best ranked, hit of a material. */
  function BestHit(ranked: seq<Retrieved>, material: int): (hit: Retrieved)
    requires material in MaterialsOf(ranked)
    ensures hit in ranked && hit.material == material
    decreases |ranked|
  {
    var init := ranked[..|ranked| - 1];
    if material in MaterialsOf(init) then BestHit(init, material) else ranked[|ranked| - 1]
  }

  lemma {:induction false} MaterialsAreDistinct(ranked: seq<Retrieved>)
    ensures NoDuplicates(MaterialsOf(ranked))
    ensures forall m :: m in MaterialsOf(ranked) <==> exists i :: 0 <= i < |ranked| && ranked[i].material == m
  {
    if ranked != [] {
      var n := |ranked| - 1;
      MaterialsAreDistinct(ranked[..n]);
      forall m ensures m in MaterialsOf(ranked) <==> m in MaterialsOf(ranked[..n]) || ranked[n].material == m {
      }
      forall m | exists i :: 0 <= i < |ranked| && ranked[i].material == m ensures m in MaterialsOf(ranked) {
        var i :| 0 <= i < |ranked| && ranked[i].material == m;
        assert i < n ==> ranked[..n][i].material == m;
      }
      forall m | m in MaterialsOf(ranked) ensures exists i :: 0 <= i < |ranked| && ranked[i].material == m {
        if m in MaterialsOf(ranked[..n]) {
          var i :| 0 <= i < n && ranked[..n][i].material == m;
          assert ranked[i].material == m;
        }
      }
    }
  }

  // ---------------------------------------------------------------- which chunks, at which cost

  function BodiesOf(rows: seq<Retrieved>, material: int): seq<Retrieved> {
    if rows == [] then []
    else
      var before := BodiesOf(rows[..|rows| - 1], material);
      if rows[|rows| - 1].material == material then before + [rows[|rows| - 1]] else before
  }

  /** Of n chunks of a material: all after a semantic hit, else those under the heading or next to the hit. */
  predicate Eligible(hit: Retrieved, chunk: Retrieved, n: nat) {
    || n <= 1 || hit.kind != Body
    || (hit.heading != "" && chunk.heading == hit.heading)
    || hit.index - 1 <= chunk.index <= hit.index + 1
  }

  predicate TakesImage(hit: Retrieved, chunk: Retrieved) {
    && hit.kind == Image && hit.asset.Some?
    && (hit.page.None? || chunk.page.None? || hit.page == chunk.page)
  }

  const CAPTION: string := "\n\n[图片说明]\n"

  function WithImage(hit: Retrieved, chunk: Retrieved): Retrieved {
    chunk.(content := chunk.content + CAPTION + hit.content, asset := hit.asset,
           page := if chunk.page.None? then hit.page else chunk.page, tokens := chunk.tokens + hit.tokens)
  }

  /** One chunk put to the test: as it was tried, whether it carried the image, and whether it was taken. */
  datatype Trial = Trial(body: Retrieved, chunk: Retrieved, attached: bool, taken: bool)

  function Selected(trials: seq<Trial>): seq<Retrieved> {
    if trials == [] then []
    else
      var init, last := Selected(trials[..|trials| - 1]), trials[|trials| - 1];
      if last.taken then init + [last.chunk] else init
  }

  function SumTokens(chunks: seq<Retrieved>): nat {
    if chunks == [] then 0 else SumTokens(chunks[..|chunks| - 1]) + chunks[|chunks| - 1].tokens
  }

  /** Whether a taken chunk of the material carries the image already. */
  predicate Carries(trials: seq<Trial>, material: int) {
    exists k :: 0 <= k < |trials| && trials[k].taken && trials[k].attached && trials[k].body.material == material
  }

  predicate Fits(budget: Budget, trials: seq<Trial>, chunk: Retrieved) {
    |Selected(trials)| < budget.chunks && SumTokens(Selected(trials)) + chunk.tokens <= budget.tokens
  }

  /** A chunk is tried with the image of its hit as long as no chunk of its material carries it. */
  function NextTrial(budget: Budget, trials: seq<Trial>, hit: Retrieved, body: Retrieved): Trial {
    var attach := TakesImage(hit, body) && !Carries(trials, body.material);
    var chunk := (if attach then WithImage(hit, body) else body).(score := hit.score);
    Trial(body, chunk, attach, Fits(budget, trials, chunk))
  }

  /** The chunks of one material that are put to the test, in their order. */
  function Offered(hit: Retrieved, chunks: seq<Retrieved>, n: nat): seq<Retrieved>
    requires n <= |chunks|
  {
    if n == 0 then []
    else
      var before := Offered(hit, chunks, n - 1);
      if Eligible(hit, chunks[n - 1], |chunks|) then before + [chunks[n - 1]] else before
  }

  function Offers(ranked: seq<Retrieved>, rows: seq<Retrieved>, ids: seq<int>): seq<Retrieved>
    requires forall id :: id in ids ==> id in MaterialsOf(ranked)
  {
    if ids == [] then []
    else
      var id := ids[|ids| - 1];
      var chunks := BodiesOf(rows, id);
      Offers(ranked, rows, ids[..|ids| - 1]) + Offered(BestHit(ranked, id), chunks, |chunks|)
  }

  predicate Hit(ranked: seq<Retrieved>, offers: seq<Retrieved>) {
    forall k :: 0 <= k < |offers| ==> offers[k].material in MaterialsOf(ranked)
  }

  function Trials(budget: Budget, ranked: seq<Retrieved>, offers: seq<Retrieved>): (trials: seq<Trial>)
    requires Hit(ranked, offers)
    ensures |trials| == |offers|
  {
    if offers == [] then []
    else
      var body := offers[|offers| - 1];
      var before := Trials(budget, ranked, offers[..|offers| - 1]);
      before + [NextTrial(budget, before, BestHit(ranked, body.material), body)]
  }

  lemma {:induction false} BodiesAreOfTheMaterial(rows: seq<Retrieved>, material: int)
    ensures forall k :: 0 <= k < |BodiesOf(rows, material)| ==> BodiesOf(rows, material)[k].material == material
  {
    if rows != [] {
      BodiesAreOfTheMaterial(rows[..|rows| - 1], material);
    }
  }

  lemma {:induction false} OfferedSound(hit: Retrieved, chunks: seq<Retrieved>, n: nat, material: int)
    requires n <= |chunks| && forall k :: 0 <= k < |chunks| ==> chunks[k].material == material
    ensures forall k :: 0 <= k < |Offered(hit, chunks, n)| ==> Offered(hit, chunks, n)[k].material == material
  {
    if n > 0 {
      OfferedSound(hit, chunks, n - 1, material);
    }
  }

  lemma {:induction false} OffersAreHit(ranked: seq<Retrieved>, rows: seq<Retrieved>, ids: seq<int>)
    requires forall id :: id in ids ==> id in MaterialsOf(ranked)
    ensures forall k :: 0 <= k < |Offers(ranked, rows, ids)| ==> Offers(ranked, rows, ids)[k].material in ids
    ensures Hit(ranked, Offers(ranked, rows, ids))
  {
    if ids != [] {
      var id := ids[|ids| - 1];
      var chunks := BodiesOf(rows, id);
      OffersAreHit(ranked, rows, ids[..|ids| - 1]);
      BodiesAreOfTheMaterial(rows, id);
      OfferedSound(BestHit(ranked, id), chunks, |chunks|, id);
    }
  }

  /** What the expansion answers. */
  function Expand(budget: Budget, ranked: seq<Retrieved>, rows: seq<Retrieved>): (trials: seq<Trial>) {
    var ids := Chosen(ranked, budget.materials);
    OffersAreHit(ranked, rows, ids);
    Trials(budget, ranked, Offers(ranked, rows, ids))
  }

  // ---------------------------------------------------------------- budgets, greed and images

  lemma SumSnoc(chunks: seq<Retrieved>, chunk: Retrieved)
    ensures SumTokens(chunks + [chunk]) == SumTokens(chunks) + chunk.tokens
  {
    assert (chunks + [chunk])[..|chunks|] == chunks;
  }

  lemma SelectedSnoc(trials: seq<Trial>, trial: Trial)
    ensures Selected(trials + [trial]) == if trial.taken then Selected(trials) + [trial.chunk] else Selected(trials)
  {
    assert (trials + [trial])[..|trials|] == trials;
  }

  ghost predicate WithinBudget(budget: Budget, trials: seq<Trial>) {
    |Selected(trials)| <= budget.chunks && SumTokens(Selected(trials)) <= budget.tokens
  }

  /** Nothing left out would still fit at the end, at the cost it was tried with. */
  ghost predicate GreedyMaximal(budget: Budget, trials: seq<Trial>) {
    forall k :: 0 <= k < |trials| && !trials[k].taken ==> !Fits(budget, trials, trials[k].chunk)
  }

  /** No two taken chunks of one material carry its image. */
  ghost predicate OneImageEach(trials: seq<Trial>) {
    forall i, j :: 0 <= i < j < |trials| && trials[i].taken && trials[i].attached &&
                   trials[j].taken && trials[j].attached ==>
      trials[i].body.material != trials[j].body.material
  }

  /** An image is attached only to a chunk of the page it stands on, and its tokens are charged. */
  ghost predicate HonestCosts(ranked: seq<Retrieved>, trials: seq<Trial>) {
    forall k :: 0 <= k < |trials| ==>
      && trials[k].body.material in MaterialsOf(ranked)
      && var hit := BestHit(ranked, trials[k].body.material);
         if trials[k].attached
         then TakesImage(hit, trials[k].body) && trials[k].chunk == WithImage(hit, trials[k].body).(score := hit.score)
         else trials[k].chunk == trials[k].body.(score := hit.score)
  }

  lemma GreedySnoc(budget: Budget, trials: seq<Trial>, trial: Trial)
    requires GreedyMaximal(budget, trials) && WithinBudget(budget, trials)
    requires trial.taken == Fits(budget, trials, trial.chunk)
    ensures GreedyMaximal(budget, trials + [trial]) && WithinBudget(budget, trials + [trial])
  {
    SelectedSnoc(trials, trial);
    SumSnoc(Selected(trials), trial.chunk);
  }

  lemma OneImageSnoc(trials: seq<Trial>, trial: Trial)
    requires OneImageEach(trials) && (trial.attached ==> !Carries(trials, trial.body.material))
    ensures OneImageEach(trials + [trial])
  {
  }

  lemma {:induction false} TrialsFitTheBudget(budget: Budget, ranked: seq<Retrieved>, offers: seq<Retrieved>)
    requires Hit(ranked, offers)
    ensures var trials := Trials(budget, ranked, offers);
            && WithinBudget(budget, trials) && GreedyMaximal(budget, trials) && OneImageEach(trials)
  {
    if offers != [] {
      var init, body := offers[..|offers| - 1], offers[|offers| - 1];
      TrialsFitTheBudget(budget, ranked, init);
      var before := Trials(budget, ranked, init);
      var trial := NextTrial(budget, before, BestHit(ranked, body.material), body);
      GreedySnoc(budget, before, trial);
      OneImageSnoc(before, trial);
    }
  }

  lemma {:induction false} TrialsAreHonest(budget: Budget, ranked: seq<Retrieved>, offers: seq<Retrieved>)
    requires Hit(ranked, offers)
    ensures HonestCosts(ranked, Trials(budget, ranked, offers))
    ensures forall k :: 0 <= k < |offers| ==> Trials(budget, ranked, offers)[k].body == offers[k]
  {
    if offers != [] {
      TrialsAreHonest(budget, ranked, offers[..|offers| - 1]);
    }
  }

  function MaterialsIn(chunks: seq<Retrieved>): set<int> {
    set c | c in chunks :: c.material
  }

  lemma {:induction false} SelectedAreTried(trials: seq<Trial>)
    ensures forall c :: c in Selected(trials) ==> exists k :: 0 <= k < |trials| && trials[k].chunk == c
  {
    if trials != [] {
      var init, last := trials[..|trials| - 1], trials[|trials| - 1];
      SelectedAreTried(init);
      forall c | c in Selected(trials) ensures exists k :: 0 <= k < |trials| && trials[k].chunk == c {
        if c in Selected(init) {
          var k :| 0 <= k < |init| && init[k].chunk == c;
          assert trials[k].chunk == c;
        } else {
          assert trials[|trials| - 1].chunk == c;
        }
      }
    }
  }

  lemma {:induction false} FewAmong(found: set<int>, ids: seq<int>)
    requires forall m :: m in found ==> m in ids
    ensures |found| <= |ids|
  {
    if ids == [] {
      assert forall m :: m in found ==> m in ids;
      assert found == {};
    } else {
      var init, last := ids[..|ids| - 1], ids[|ids| - 1];
      assert ids == init + [last];
      FewAmong(found - {last}, init);
      assert last in found ==> found == (found - {last}) + {last};
      assert last !in found ==> found == found - {last};
    }
  }

  lemma {:induction false} FewMaterials(ranked: seq<Retrieved>, trials: seq<Trial>, ids: seq<int>)
    requires HonestCosts(ranked, trials)
    requires forall k :: 0 <= k < |trials| ==> trials[k].body.material in ids
    ensures |MaterialsIn(Selected(trials))| <= |ids|
  {
    SelectedAreTried(trials);
    forall m | m in MaterialsIn(Selected(trials)) ensures m in ids {
      var c :| c in Selected(trials) && c.material == m;
      var k :| 0 <= k < |trials| && trials[k].chunk == c;
      assert trials[k].chunk.material == trials[k].body.material;
    }
    FewAmong(MaterialsIn(Selected(trials)), ids);
  }

  /** The material budget limits the materials unless it is zero: the cut waits for the count to reach it. */
  lemma ChosenWithinLimitIff(ranked: seq<Retrieved>, limit: nat)
    ensures |Chosen(ranked, limit)| <= limit <==> limit > 0 || ranked == []
  {
    if ranked != [] {
      assert ranked[|ranked| - 1].material in MaterialsOf(ranked);
    }
  }

  /**
   * The expansion keeps both budgets with exact sums, is greedy-maximal, gives an image to at most one chunk
   * of its material and charges for it, and uses only the chosen materials, as many as a positive budget of
   * materials allows.
   */
  lemma {:induction false} ExpansionIsSound(budget: Budget, ranked: seq<Retrieved>, rows: seq<Retrieved>)
    ensures var trials := Expand(budget, ranked, rows);
            && WithinBudget(budget, trials) && GreedyMaximal(budget, trials)
            && OneImageEach(trials) && HonestCosts(ranked, trials)
            && (forall k :: 0 <= k < |trials| ==> trials[k].body.material in Chosen(ranked, budget.materials))
            && (budget.materials > 0 ==> |MaterialsIn(Selected(trials))| <= budget.materials)
  {
    var ids := Chosen(ranked, budget.materials);
    OffersAreHit(ranked, rows, ids);
    TrialsFitTheBudget(budget, ranked, Offers(ranked, rows, ids));
    TrialsAreHonest(budget, ranked, Offers(ranked, rows, ids));
    FewMaterials(ranked, Expand(budget, ranked, rows), ids);
    ChosenWithinLimitIff(ranked, budget.materials);
  }

  lemma {:induction false} BodiesAre(rows: seq<Retrieved>, material: int)
    ensures forall b :: b in BodiesOf(rows, material) <==> b in rows && b.material == material
  {
    if rows != [] {
      var init, last := rows[..|rows| - 1], rows[|rows| - 1];
      assert rows == init + [last];
      BodiesAre(init, material);
    }
  }

  lemma {:induction false} OfferedAre(hit: Retrieved, chunks: seq<Retrieved>, n: nat)
    requires n <= |chunks|
    ensures forall b :: b in Offered(hit, chunks, n) <==> b in chunks[..n] && Eligible(hit, b, |chunks|)
  {
    if n > 0 {
      hide Eligible;
      OfferedAre(hit, chunks, n - 1);
      assert chunks[..n] == chunks[..n - 1] + [chunks[n - 1]];
    }
  }

  /** How many of the rows belong to the material. */
  function CountOf(rows: seq<Retrieved>, material: int): nat {
    |set i | 0 <= i < |rows| && rows[i].material == material|
  }

  lemma CountOfInit(rows: seq<Retrieved>, material: int)
    ensures rows == [] ==> CountOf(rows, material) == 0
    ensures rows != [] ==>
              CountOf(rows, material) ==
              CountOf(rows[..|rows| - 1], material) + (if rows[|rows| - 1].material == material then 1 else 0)
  {
    var found := set i | 0 <= i < |rows| && rows[i].material == material;
    if rows == [] {
      assert found == {};
    } else {
      var n := |rows| - 1;
      var before := set i | 0 <= i < n && rows[..n][i].material == material;
      assert found == if rows[n].material == material then before + {n} else before;
    }
  }

  lemma {:induction false} BodiesCount(rows: seq<Retrieved>, material: int)
    ensures |BodiesOf(rows, material)| == CountOf(rows, material)
  {
    hide CountOf;
    CountOfInit(rows, material);
    if rows != [] {
      BodiesCount(rows[..|rows| - 1], material);
    }
  }

  /** The hit comes first among those of its material. */
  ghost predicate FirstHit(ranked: seq<Retrieved>, hit: Retrieved) {
    exists k :: 0 <= k < |ranked| && ranked[k] == hit && forall j :: 0 <= j < k ==> ranked[j].material != hit.material
  }

  lemma {:induction false} BestHitIsFirst(ranked: seq<Retrieved>, material: int)
    requires material in MaterialsOf(ranked)
    ensures FirstHit(ranked, BestHit(ranked, material)) && BestHit(ranked, material).material == material
  {
    var init, n := ranked[..|ranked| - 1], |ranked| - 1;
    MaterialsAreDistinct(init);
    if material in MaterialsOf(init) {
      BestHitIsFirst(init, material);
      var hit := BestHit(init, material);
      var k :| 0 <= k < |init| && init[k] == hit && forall j :: 0 <= j < k ==> init[j].material != hit.material;
      assert ranked[k] == hit && forall j :: 0 <= j < k ==> ranked[j] == init[j];
    } else {
      assert forall j :: 0 <= j < n ==> ranked[j] == init[j];
    }
  }

  function MaterialColumn(ranked: seq<Retrieved>): (ids: seq<int>)
    ensures |ids| == |ranked|
  {
    seq(|ranked|, i requires 0 <= i < |ranked| => ranked[i].material)
  }

  lemma MaterialColumnOf(ranked: seq<Retrieved>)
    ensures ranked != [] ==>
              MaterialColumn(ranked) == MaterialColumn(ranked[..|ranked| - 1]) + [ranked[|ranked| - 1].material]
    ensures ranked == [] ==> MaterialColumn(ranked) == []
  {
    hide MaterialsOf;
  }

  lemma {:induction false} MaterialsInRankOrder(ranked: seq<Retrieved>)
    ensures InFirstOrder(MaterialsOf(ranked), MaterialColumn(ranked))
  {
    hide InFirstOrder, MaterialColumn;
    MaterialColumnOf(ranked);
    if ranked == [] {
      NothingInOrder<int>();
    } else {
      var init := ranked[..|ranked| - 1];
      MaterialsInRankOrder(init);
      FirstOrderSnoc(MaterialsOf(init), MaterialColumn(init), ranked[|ranked| - 1].material);
    }
  }

  /** The chosen materials are the first ones in rank order, each once; zero is no limit. */
  lemma ChosenInRankOrder(ranked: seq<Retrieved>, limit: nat) returns (all: seq<int>)
    ensures InFirstOrder(all, MaterialColumn(ranked))
    ensures Chosen(ranked, limit) == if 0 < limit < |all| then all[..limit] else all
  {
    all := MaterialsOf(ranked);
    MaterialsInRankOrder(ranked);
  }

  /**
   * What makes a body row worth a try: its material was chosen, and it is the only row of it, or the first hit
   * of the material is not a body chunk, stands under the same heading, or lies at most one position away.
   */
  ghost predicate WorthATry(ranked: seq<Retrieved>, rows: seq<Retrieved>, ids: seq<int>, body: Retrieved) {
    && body in rows && body.material in ids
    && (CountOf(rows, body.material) <= 1 ||
        exists hit ::
          && FirstHit(ranked, hit) && hit.material == body.material
          && (hit.kind != Body || (hit.heading != "" && hit.heading == body.heading) ||
              (hit.index <= body.index + 1 && body.index <= hit.index + 1)))
  }

  lemma FirstHitIsOne(ranked: seq<Retrieved>, a: Retrieved, b: Retrieved)
    requires FirstHit(ranked, a) && FirstHit(ranked, b) && a.material == b.material
    ensures a == b
  {
  }

  lemma {:induction false} WorthATryIff(ranked: seq<Retrieved>, rows: seq<Retrieved>, ids: seq<int>, body: Retrieved)
    requires forall id :: id in ids ==> id in MaterialsOf(ranked)
    ensures WorthATry(ranked, rows, ids, body) <==>
            && body in rows && body.material in ids
            && Eligible(BestHit(ranked, body.material), body, |BodiesOf(rows, body.material)|)
  {
    hide FirstHit, BodiesOf, CountOf, BestHit;
    BodiesCount(rows, body.material);
    if body.material in ids {
      var best := BestHit(ranked, body.material);
      BestHitIsFirst(ranked, body.material);
      forall hit | FirstHit(ranked, hit) && hit.material == body.material ensures hit == best {
        FirstHitIsOne(ranked, hit, best);
      }
    }
  }

  lemma OneMaterialOffers(ranked: seq<Retrieved>, rows: seq<Retrieved>, id: int, body: Retrieved)
    requires id in MaterialsOf(ranked)
    ensures var chunks := BodiesOf(rows, id);
            body in Offered(BestHit(ranked, id), chunks, |chunks|) <==>
              body in rows && body.material == id && Eligible(BestHit(ranked, id), body, |chunks|)
  {
    hide Eligible, BodiesOf, Offered, BestHit;
    var chunks := BodiesOf(rows, id);
    BodiesAre(rows, id);
    OfferedAre(BestHit(ranked, id), chunks, |chunks|);
    assert chunks[..|chunks|] == chunks;
  }

  lemma {:induction false} OffersAre(ranked: seq<Retrieved>, rows: seq<Retrieved>, ids: seq<int>, body: Retrieved)
    requires forall id :: id in ids ==> id in MaterialsOf(ranked)
    ensures body in Offers(ranked, rows, ids) <==> WorthATry(ranked, rows, ids, body)
  {
    WorthATryIff(ranked, rows, ids, body);
    if ids != [] {
      hide Eligible, BodiesOf, Offered, BestHit, MaterialsOf, WorthATry;
      var init, id := ids[..|ids| - 1], ids[|ids| - 1];
      assert ids == init + [id];
      OffersAre(ranked, rows, init, body);
      WorthATryIff(ranked, rows, init, body);
      OneMaterialOffers(ranked, rows, id, body);
    }
  }

  /** Nothing is passed over: exactly the eligible body rows of the chosen materials are tried. */
  lemma {:induction false} ExactlyTheEligibleAreTried(budget: Budget, ranked: seq<Retrieved>, rows: seq<Retrieved>,
                                                      body: Retrieved)
    ensures (exists k :: 0 <= k < |Expand(budget, ranked, rows)| && Expand(budget, ranked, rows)[k].body == body) <==>
            WorthATry(ranked, rows, Chosen(ranked, budget.materials), body)
  {
    hide WorthATry, Offers, Trials, MaterialsOf;
    var ids := Chosen(ranked, budget.materials);
    var offers := Offers(ranked, rows, ids);
    OffersAreHit(ranked, rows, ids);
    OffersAre(ranked, rows, ids, body);
    TrialsAreHonest(budget, ranked, offers);
    if body in offers {
      var k :| 0 <= k < |offers| && offers[k] == body;
      assert Expand(budget, ranked, rows)[k].body == body;
    }
  }

  lemma {:induction false} TrialsPrefix(budget: Budget, ranked: seq<Retrieved>, offers: seq<Retrieved>, k: nat)
    requires Hit(ranked, offers) && k <= |offers|
    ensures Hit(ranked, offers[..k]) && Trials(budget, ranked, offers)[..k] == Trials(budget, ranked, offers[..k])
    decreases |offers|
  {
    if k < |offers| {
      var init := offers[..|offers| - 1];
      TrialsPrefix(budget, ranked, init, k);
      assert init[..k] == offers[..k];
    } else {
      assert offers[..k] == offers;
    }
  }

  /** The hit is an image that is stored and stands on the page of the chunk, as far as pages are known. */
  predicate ImageFits(hit: Retrieved, body: Retrieved) {
    && hit.kind == Image && hit.asset != None
    && (hit.page == None || body.page == None || hit.page.value == body.page.value)
  }

  /**
   * One trial in full. The image of the hit goes with the chunk exactly if it fits there and no chunk taken
   * before carries it; the chunk then gains its text, its asset, its page and its tokens; and the chunk is taken
   * exactly if one more and its tokens are still within the budgets.
   */
  ghost predicate IsTrial(budget: Budget, hit: Retrieved, trials: seq<Trial>, k: nat)
    requires k < |trials|
  {
    var t, body, before := trials[k], trials[k].body, trials[..k];
    && (t.attached <==>
          ImageFits(hit, body) &&
          forall j :: 0 <= j < k ==> !(trials[j].taken && trials[j].attached && trials[j].body.material == body.material))
    && t.chunk.material == body.material && t.chunk.kind == body.kind && t.chunk.index == body.index
    && t.chunk.heading == body.heading && t.chunk.score == hit.score
    && t.chunk.content == (if t.attached then body.content + "\n\n[图片说明]\n" + hit.content else body.content)
    && t.chunk.tokens == (if t.attached then body.tokens + hit.tokens else body.tokens)
    && t.chunk.asset == (if t.attached then hit.asset else body.asset)
    && t.chunk.page == (if t.attached && body.page == None then hit.page else body.page)
    && (t.taken <==>
          |Selected(before)| + 1 <= budget.chunks && SumTokens(Selected(before)) + t.chunk.tokens <= budget.tokens)
  }

  lemma NextIsTrial(budget: Budget, hit: Retrieved, before: seq<Trial>, body: Retrieved)
    ensures IsTrial(budget, hit, before + [NextTrial(budget, before, hit, body)], |before|)
  {
    var trials := before + [NextTrial(budget, before, hit, body)];
    assert trials[..|before|] == before;
    assert forall j :: 0 <= j < |before| ==> trials[j] == before[j];
  }

  /** Every row that is tried is tried in this way, with the first hit of its material. */
  lemma {:induction false} EveryTrialInFull(budget: Budget, ranked: seq<Retrieved>, rows: seq<Retrieved>, k: nat)
    requires k < |Expand(budget, ranked, rows)|
    ensures var trials := Expand(budget, ranked, rows);
            exists hit ::
              FirstHit(ranked, hit) && hit.material == trials[k].body.material && IsTrial(budget, hit, trials, k)
  {
    hide FirstHit, IsTrial, BestHit, Offers, MaterialsOf;
    var offers := Offers(ranked, rows, Chosen(ranked, budget.materials));
    OffersAreHit(ranked, rows, Chosen(ranked, budget.materials));
    var trials := Expand(budget, ranked, rows);
    var hit := BestHit(ranked, offers[k].material);
    BestHitIsFirst(ranked, offers[k].material);
    TrialsAreHonest(budget, ranked, offers);
    TrialsPrefix(budget, ranked, offers, k + 1);
    TrialsPrefix(budget, ranked, offers, k);
    assert offers[..k + 1][..k] == offers[..k];
    NextIsTrial(budget, hit, Trials(budget, ranked, offers[..k]), offers[k]);
    TrialOfPrefix(budget, hit, trials, k);
  }

  lemma TrialOfPrefix(budget: Budget, hit: Retrieved, trials: seq<Trial>, k: nat)
    requires k < |trials| && IsTrial(budget, hit, trials[..k + 1], k)
    ensures IsTrial(budget, hit, trials, k)
  {
    assert trials[..k + 1][..k] == trials[..k];
    assert forall j :: 0 <= j <= k ==> trials[..k + 1][j] == trials[j];
  }

  // ---------------------------------------------------------------- the code's loops

  lemma MaterialsStep(ranked: seq<Retrieved>, i: nat)
    requires i < |ranked|
    ensures MaterialsOf(ranked[..i + 1]) ==
            (if ranked[i].material in MaterialsOf(ranked[..i]) then MaterialsOf(ranked[..i])
             else MaterialsOf(ranked[..i]) + [ranked[i].material])
    ensures forall m :: m in MaterialsOf(ranked[..i]) ==> BestHit(ranked[..i + 1], m) == BestHit(ranked[..i], m)
    ensures ranked[i].material !in MaterialsOf(ranked[..i]) ==>
              BestHit(ranked[..i + 1], ranked[i].material) == ranked[i]
  {
    assert ranked[..i + 1][..i] == ranked[..i];
  }

  lemma {:induction false} MaterialsPrefix(ranked: seq<Retrieved>, i: nat)
    requires i <= |ranked|
    ensures MaterialsOf(ranked[..i]) <= MaterialsOf(ranked)
    ensures forall m :: m in MaterialsOf(ranked[..i]) ==>
              m in MaterialsOf(ranked) && BestHit(ranked, m) == BestHit(ranked[..i], m)
    decreases |ranked| - i
  {
    if i == |ranked| {
      assert ranked[..i] == ranked;
    } else {
      MaterialsStep(ranked, i);
      MaterialsPrefix(ranked, i + 1);
    }
  }

  /** The ids collected so far, and the best hit of each. */
  ghost predicate Collected(ranked: seq<Retrieved>, ids: seq<int>, best: map<int, Retrieved>) {
    && ids == MaterialsOf(ranked) && (forall id :: id in best <==> id in ids)
    && forall id :: id in ids ==> best[id] == BestHit(ranked, id)
  }

  lemma CollectedStep(ranked: seq<Retrieved>, i: nat, ids: seq<int>, best: map<int, Retrieved>)
    requires i < |ranked| && Collected(ranked[..i], ids, best)
    ensures var candidate := ranked[i];
            if candidate.material in best then Collected(ranked[..i + 1], ids, best)
            else Collected(ranked[..i + 1], ids + [candidate.material], best[candidate.material := candidate])
  {
    MaterialsStep(ranked, i);
  }

  lemma ChosenAt(ranked: seq<Retrieved>, i: nat, limit: nat, ids: seq<int>, best: map<int, Retrieved>)
    requires i <= |ranked| && Collected(ranked[..i], ids, best)
    requires (limit > 0 && |ids| == limit) || (i == |ranked| && (limit > 0 ==> |ids| < limit))
    ensures ids == Chosen(ranked, limit)
    ensures forall id :: id in ids ==> id in MaterialsOf(ranked) && id in best && best[id] == BestHit(ranked, id)
  {
    MaterialsPrefix(ranked, i);
    assert ranked[..|ranked|] == ranked;
  }

  method ChooseMaterials(ranked: seq<Retrieved>, limit: nat) returns (ids: seq<int>, best: map<int, Retrieved>)
    ensures ids == Chosen(ranked, limit)
    ensures forall id :: id in ids ==> id in MaterialsOf(ranked) && id in best && best[id] == BestHit(ranked, id)
  {
    ids, best := [], map[];
    var i := 0;
    while i < |ranked|
      invariant i <= |ranked| && Collected(ranked[..i], ids, best)
      invariant limit > 0 ==> |ids| < limit
    {
      var candidate := ranked[i];
      CollectedStep(ranked, i, ids, best);
      i := i + 1;
      if candidate.material in best {
        continue;
      }
      best := best[candidate.material := candidate];
      ids := ids + [candidate.material];
      if |ids| == limit {
        break;
      }
    }
    ChosenAt(ranked, i, limit, ids, best);
  }

  lemma BodiesStep(rows: seq<Retrieved>, i: nat, id: int)
    requires i < |rows|
    ensures BodiesOf(rows[..i + 1], id) ==
            if rows[i].material == id then BodiesOf(rows[..i], id) + [rows[i]] else BodiesOf(rows[..i], id)
  {
    assert rows[..i + 1][..i] == rows[..i];
  }

  method GroupBodies(rows: seq<Retrieved>) returns (grouped: map<int, seq<Retrieved>>)
    ensures forall id :: (if id in grouped then grouped[id] else []) == BodiesOf(rows, id)
  {
    grouped := map[];
    for i := 0 to |rows|
      invariant forall id :: (if id in grouped then grouped[id] else []) == BodiesOf(rows[..i], id)
    {
      var body := rows[i];
      var before := if body.material in grouped then grouped[body.material] else [];
      forall id ensures BodiesOf(rows[..i + 1], id) ==
                        if id == body.material then before + [body] else BodiesOf(rows[..i], id)
      {
        BodiesStep(rows, i, id);
      }
      grouped := grouped[body.material := before + [body]];
    }
    assert rows[..|rows|] == rows;
  }

  lemma TrialsSnoc(budget: Budget, ranked: seq<Retrieved>, offers: seq<Retrieved>, body: Retrieved)
    requires Hit(ranked, offers) && body.material in MaterialsOf(ranked)
    ensures var before := Trials(budget, ranked, offers);
            Trials(budget, ranked, offers + [body]) ==
            before + [NextTrial(budget, before, BestHit(ranked, body.material), body)]
  {
    assert (offers + [body])[..|offers|] == offers;
  }

  lemma CarriesSnoc(trials: seq<Trial>, trial: Trial, material: int)
    ensures Carries(trials + [trial], material) <==>
            Carries(trials, material) || (trial.taken && trial.attached && trial.body.material == material)
  {
    var more := trials + [trial];
    if Carries(trials, material) {
      var k :| 0 <= k < |trials| && trials[k].taken && trials[k].attached && trials[k].body.material == material;
      assert more[k] == trials[k];
    }
    assert more[|trials|] == trial;
  }

  /** The counters and the flag of the inner loop stand for the trials made so far. */
  ghost predicate Stands(budget: Budget, ranked: seq<Retrieved>, offers: seq<Retrieved>, material: int,
                         selected: seq<Retrieved>, tokens: nat, assetAttached: bool)
  {
    && Hit(ranked, offers)
    && var trials := Trials(budget, ranked, offers);
       selected == Selected(trials) && tokens == SumTokens(selected) && assetAttached == Carries(trials, material)
  }

  /** The trial of a chunk, from the counters alone. */
  function Trying(budget: Budget, hit: Retrieved, body: Retrieved, selected: seq<Retrieved>, tokens: nat,
                  assetAttached: bool): Trial
  {
    var attach := TakesImage(hit, body) && !assetAttached;
    var chunk := (if attach then WithImage(hit, body) else body).(score := hit.score);
    Trial(body, chunk, attach, |selected| < budget.chunks && tokens + chunk.tokens <= budget.tokens)
  }

  lemma StandsAfterTrial(budget: Budget, ranked: seq<Retrieved>, offers: seq<Retrieved>, body: Retrieved,
                         selected: seq<Retrieved>, tokens: nat, assetAttached: bool)
    requires Stands(budget, ranked, offers, body.material, selected, tokens, assetAttached)
    requires body.material in MaterialsOf(ranked)
    ensures var trial := Trying(budget, BestHit(ranked, body.material), body, selected, tokens, assetAttached);
            Stands(budget, ranked, offers + [body], body.material,
                   if trial.taken then selected + [trial.chunk] else selected,
                   if trial.taken then tokens + trial.chunk.tokens else tokens,
                   assetAttached || (trial.taken && trial.attached))
  {
    var trials := Trials(budget, ranked, offers);
    var trial := NextTrial(budget, trials, BestHit(ranked, body.material), body);
    assert trial == Trying(budget, BestHit(ranked, body.material), body, selected, tokens, assetAttached);
    TrialsSnoc(budget, ranked, offers, body);
    SelectedSnoc(trials, trial);
    SumSnoc(selected, trial.chunk);
    CarriesSnoc(trials, trial, body.material);
  }

  /** The filter at the top of the inner loop. */
  method Skips(hit: Retrieved, chunk: Retrieved, n: nat) returns (skip: bool)
    ensures skip == !Eligible(hit, chunk, n)
  {
    var semanticParentHit := hit.kind != Body;
    var sameHeading := hit.heading != "" && chunk.heading == hit.heading;
    var adjacent := hit.index - 1 <= chunk.index <= hit.index + 1;
    skip := n > 1 && !semanticParentHit && !sameHeading && !adjacent;
  }

  method TryOne(budget: Budget, hit: Retrieved, body: Retrieved, before: seq<Retrieved>, spent: nat, carried: bool)
    returns (selected: seq<Retrieved>, tokens: nat, assetAttached: bool)
    ensures var trial := Trying(budget, hit, body, before, spent, carried);
            && selected == (if trial.taken then before + [trial.chunk] else before)
            && tokens == (if trial.taken then spent + trial.chunk.tokens else spent)
            && assetAttached == (carried || (trial.taken && trial.attached))
  {
    selected, tokens, assetAttached := before, spent, carried;
    var chunk := body;
    var attachedThisChunk := false;
    if hit.kind == Image && hit.asset.Some? && !assetAttached &&
       (hit.page.None? || chunk.page.None? || hit.page.value == chunk.page.value)
    {
      chunk := WithImage(hit, chunk);
      attachedThisChunk := true;
    }
    if |selected| >= budget.chunks || tokens + chunk.tokens > budget.tokens {
      return;
    }
    chunk := chunk.(score := hit.score);
    selected := selected + [chunk];
    tokens := tokens + chunk.tokens;
    assetAttached := assetAttached || attachedThisChunk;
  }

  method TryNext(budget: Budget, hit: Retrieved, body: Retrieved, before: seq<Retrieved>, spent: nat, carried: bool,
                 ghost ranked: seq<Retrieved>, ghost offers: seq<Retrieved>)
    returns (selected: seq<Retrieved>, tokens: nat, assetAttached: bool)
    requires body.material == hit.material
    requires hit.material in MaterialsOf(ranked) && hit == BestHit(ranked, hit.material)
    requires Stands(budget, ranked, offers, hit.material, before, spent, carried)
    ensures Stands(budget, ranked, offers + [body], hit.material, selected, tokens, assetAttached)
  {
    StandsAfterTrial(budget, ranked, offers, body, before, spent, carried);
    selected, tokens, assetAttached := TryOne(budget, hit, body, before, spent, carried);
  }

  /** The inner loop, over the chunks of one material. */
  method ExpandMaterial(budget: Budget, hit: Retrieved, chunks: seq<Retrieved>, taken: seq<Retrieved>, spent: nat,
                        ghost ranked: seq<Retrieved>, ghost offers: seq<Retrieved>)
    returns (selected: seq<Retrieved>, tokens: nat, assetAttached: bool)
    requires hit.material in MaterialsOf(ranked) && hit == BestHit(ranked, hit.material)
    requires forall k :: 0 <= k < |chunks| ==> chunks[k].material == hit.material
    requires Stands(budget, ranked, offers, hit.material, taken, spent, false)
    ensures Stands(budget, ranked, offers + Offered(hit, chunks, |chunks|), hit.material,
                   selected, tokens, assetAttached)
  {
    selected, tokens, assetAttached := taken, spent, false;
    ghost var seen, offered := offers, [];
    for i := 0 to |chunks|
      invariant offered == Offered(hit, chunks, i) && seen == offers + offered
      invariant Stands(budget, ranked, seen, hit.material, selected, tokens, assetAttached)
    {
      var chunk := chunks[i];
      var skip := Skips(hit, chunk, |chunks|);
      if skip {
        continue;
      }
      selected, tokens, assetAttached := TryNext(budget, hit, chunk, selected, tokens, assetAttached, ranked, seen);
      AppendAssociative(offers, offered, [chunk]);
      seen, offered := seen + [chunk], offered + [chunk];
    }
  }

  lemma NewMaterialStands(budget: Budget, ranked: seq<Retrieved>, rows: seq<Retrieved>, ids: seq<int>, i: nat,
                          selected: seq<Retrieved>, tokens: nat)
    requires i < |ids| && NoDuplicates(ids) && forall id :: id in ids ==> id in MaterialsOf(ranked)
    requires Hit(ranked, Offers(ranked, rows, ids[..i]))
    requires selected == Selected(Trials(budget, ranked, Offers(ranked, rows, ids[..i])))
    requires tokens == SumTokens(selected)
    ensures Stands(budget, ranked, Offers(ranked, rows, ids[..i]), ids[i], selected, tokens, false)
  {
    OffersAreHit(ranked, rows, ids[..i]);
    TrialsAreHonest(budget, ranked, Offers(ranked, rows, ids[..i]));
  }

  lemma OffersStep(ranked: seq<Retrieved>, rows: seq<Retrieved>, ids: seq<int>, i: nat)
    requires i < |ids| && forall id :: id in ids ==> id in MaterialsOf(ranked)
    ensures var chunks := BodiesOf(rows, ids[i]);
            Offers(ranked, rows, ids[..i + 1]) ==
            Offers(ranked, rows, ids[..i]) + Offered(BestHit(ranked, ids[i]), chunks, |chunks|)
  {
    assert ids[..i + 1][..i] == ids[..i];
  }

  method ExpandVisibleContext(budget: Budget, ranked: seq<Retrieved>, rows: seq<Retrieved>)
    returns (selected: seq<Retrieved>)
    ensures selected == Selected(Expand(budget, ranked, rows))
  {
    if |ranked| == 0 {
      return [];
    }
    var ids, best := ChooseMaterials(ranked, budget.materials);
    var grouped := GroupBodies(rows);
    MaterialsAreDistinct(ranked);
    selected := [];
    var tokens := 0;
    for i := 0 to |ids|
      invariant Hit(ranked, Offers(ranked, rows, ids[..i]))
      invariant selected == Selected(Trials(budget, ranked, Offers(ranked, rows, ids[..i])))
      invariant tokens == SumTokens(selected)
    {
      var id := ids[i];
      var chunks := if id in grouped then grouped[id] else [];
      assert chunks == BodiesOf(rows, id);
      OffersStep(ranked, rows, ids, i);
      BodiesAreOfTheMaterial(rows, id);
      NewMaterialStands(budget, ranked, rows, ids, i, selected, tokens);
      var attached;
      selected, tokens, attached := ExpandMaterial(budget, best[id], chunks, selected, tokens,
                                         ranked, Offers(ranked, rows, ids[..i]));
    }
    assert ids[..|ids|] == ids;
  }
}
