/** What the pipeline makes of one document: body, summary, question and image records, and assets. */
module Documents {
  import opened Options
  import opened Text
  import opened Chunking
  import opened ChunkingProofs

  /** An image as extracted: where it stands, and what the vision call and the object store answered. */
  datatype Picture = Picture(digest: string, page: Option<int>, heading: string,
                         caption: string, ocr: string, stored: bool)

  /** An image kept once per digest, with every heading it stands under. */
  datatype Asset = Asset(digest: string, page: Option<int>, headings: seq<string>,
                         caption: string, ocr: string, stored: bool)

  // ---------------------------------------------------------------- deduplication

  function NewAsset(image: Picture): Asset {
    Asset(image.digest, image.page, if image.heading == "" then [] else [image.heading],
          image.caption, image.ocr, image.stored)
  }

  function WithHeading(headings: seq<string>, heading: string): seq<string> {
    if heading == "" || heading in headings then headings else headings + [heading]
  }

  /** Position of the asset with this digest; |assets| when there is none. */
  function Find(assets: seq<Asset>, digest: string): (i: nat)
    ensures i <= |assets|
    ensures i < |assets| ==> assets[i].digest == digest
    ensures forall k :: 0 <= k < i ==> assets[k].digest != digest
  {
    if assets == [] then 0
    else
      var n := |assets| - 1;
      var i := Find(assets[..n], digest);
      if i < n then i else if assets[n].digest == digest then n else n + 1
  }

  function Admit(assets: seq<Asset>, image: Picture): seq<Asset> {
    var i := Find(assets, image.digest);
    if i < |assets|
    then assets[i := assets[i].(headings := WithHeading(assets[i].headings, image.heading))]
    else assets + [NewAsset(image)]
  }

  function Deduplicated(images: seq<Picture>): seq<Asset> {
    if images == [] then []
    else Admit(Deduplicated(images[..|images| - 1]), images[|images| - 1])
  }

  predicate DistinctDigests(assets: seq<Asset>) {
    forall i, j :: 0 <= i < j < |assets| ==> assets[i].digest != assets[j].digest
  }

  /** The headings under which a digest occurs, each once, in document order. */
  function HeadingsOf(images: seq<Picture>, digest: string): seq<string> {
    if images == [] then []
    else
      var n := |images| - 1;
      var before := HeadingsOf(images[..n], digest);
      if images[n].digest == digest then WithHeading(before, images[n].heading) else before
  }

  predicate Occurs(images: seq<Picture>, digest: string) {
    exists i :: 0 <= i < |images| && images[i].digest == digest
  }

  lemma OccursSnoc(images: seq<Picture>, digest: string)
    requires images != []
    ensures Occurs(images, digest) <==>
            Occurs(images[..|images| - 1], digest) || images[|images| - 1].digest == digest
  {
    var init := images[..|images| - 1];
    if Occurs(init, digest) {
      var i :| 0 <= i < |init| && init[i].digest == digest;
      assert images[i].digest == digest;
    }
    if Occurs(images, digest) {
      var i :| 0 <= i < |images| && images[i].digest == digest;
      assert i < |init| ==> init[i].digest == digest;
    }
  }

  ghost predicate Collects(images: seq<Picture>, assets: seq<Asset>) {
    && DistinctDigests(assets)
    && (forall d :: Occurs(images, d) <==> Find(assets, d) < |assets|)
    && (forall i :: 0 <= i < |assets| ==> assets[i].headings == HeadingsOf(images, assets[i].digest))
  }

  lemma {:induction false} NoHeadingsBefore(images: seq<Picture>, digest: string)
    requires !Occurs(images, digest)
    ensures HeadingsOf(images, digest) == []
  {
    if images != [] {
      OccursSnoc(images, digest);
      NoHeadingsBefore(images[..|images| - 1], digest);
    }
  }

  lemma FindSame(a: seq<Asset>, b: seq<Asset>, digest: string)
    requires |a| == |b| && forall i :: 0 <= i < |a| ==> a[i].digest == b[i].digest
    ensures Find(a, digest) == Find(b, digest)
  {
  }

  lemma FindAppend(assets: seq<Asset>, more: Asset, digest: string)
    ensures Find(assets + [more], digest) < |assets| + 1 <==>
            Find(assets, digest) < |assets| || more.digest == digest
  {
    assert (assets + [more])[..|assets|] == assets;
  }

  /** A digest seen before: only the headings of its asset grow. */
  lemma {:induction false} AdmitKnown(images: seq<Picture>, assets: seq<Asset>)
    requires images != [] && Collects(images[..|images| - 1], assets)
    requires Find(assets, images[|images| - 1].digest) < |assets|
    ensures Collects(images, Admit(assets, images[|images| - 1]))
  {
    hide HeadingsOf, Find;
    var image, next := images[|images| - 1], Admit(assets, images[|images| - 1]);
    forall d ensures Occurs(images, d) <==> Find(next, d) < |next| {
      OccursSnoc(images, d);
      FindSame(assets, next, d);
    }
    forall i | 0 <= i < |next| ensures next[i].headings == HeadingsOf(images, next[i].digest) {
      HeadingsSnoc(images, next[i].digest);
    }
  }

  /** A new digest: one more asset, with the only heading it has stood under so far. */
  lemma {:induction false} AdmitNew(images: seq<Picture>, assets: seq<Asset>)
    requires images != [] && Collects(images[..|images| - 1], assets)
    requires Find(assets, images[|images| - 1].digest) == |assets|
    ensures Collects(images, Admit(assets, images[|images| - 1]))
  {
    hide HeadingsOf, Find;
    var init, image := images[..|images| - 1], images[|images| - 1];
    var next := assets + [NewAsset(image)];
    forall d ensures Occurs(images, d) <==> Find(next, d) < |next| {
      OccursSnoc(images, d);
      FindAppend(assets, NewAsset(image), d);
    }
    NoHeadingsBefore(init, image.digest);
    forall i | 0 <= i < |next| ensures next[i].headings == HeadingsOf(images, next[i].digest) {
      HeadingsSnoc(images, next[i].digest);
    }
  }

  lemma HeadingsSnoc(images: seq<Picture>, digest: string)
    requires images != []
    ensures var before, last := HeadingsOf(images[..|images| - 1], digest), images[|images| - 1];
            HeadingsOf(images, digest) ==
            if last.digest == digest then WithHeading(before, last.heading) else before
  {
  }

  /** Images are kept once per digest, none is lost, and each keeps every heading it stood under. */
  lemma {:induction false} DeduplicationCollects(images: seq<Picture>)
    ensures Collects(images, Deduplicated(images))
  {
    if images == [] {
      assert forall d :: !Occurs(images, d);
    } else {
      DeduplicationCollects(images[..|images| - 1]);
      var assets := Deduplicated(images[..|images| - 1]);
      if Find(assets, images[|images| - 1].digest) < |assets| {
        AdmitKnown(images, assets);
      } else {
        AdmitNew(images, assets);
      }
    }
  }

  /** The dictionary knows the position of every digest seen so far, and of no other. */
  ghost predicate Indexes(seen: map<string, nat>, assets: seq<Asset>) {
    && (forall d :: d in seen ==> seen[d] < |assets| && seen[d] == Find(assets, d))
    && (forall k :: 0 <= k < |assets| ==> assets[k].digest in seen)
  }

  lemma IndexedNot(seen: map<string, nat>, assets: seq<Asset>, digest: string)
    requires Indexes(seen, assets) && digest !in seen
    ensures Find(assets, digest) == |assets|
  {
  }

  lemma IndexesSame(seen: map<string, nat>, before: seq<Asset>, after: seq<Asset>)
    requires Indexes(seen, before)
    requires |before| == |after| && forall i :: 0 <= i < |before| ==> before[i].digest == after[i].digest
    ensures Indexes(seen, after)
  {
    forall d | d in seen ensures seen[d] == Find(after, d) {
      FindSame(before, after, d);
    }
    assert forall k :: 0 <= k < |after| ==> before[k].digest in seen;
  }

  lemma IndexesMore(seen: map<string, nat>, assets: seq<Asset>, more: Asset)
    requires Indexes(seen, assets) && more.digest !in seen
    ensures Indexes(seen[more.digest := |assets|], assets + [more])
  {
    IndexedNot(seen, assets, more.digest);
    assert (assets + [more])[..|assets|] == assets;
  }

  lemma DeduplicatedStep(images: seq<Picture>, i: nat)
    requires i < |images|
    ensures Deduplicated(images[..i + 1]) == Admit(Deduplicated(images[..i]), images[i])
  {
    assert images[..i + 1][..i] == images[..i];
  }

  method Deduplicate(images: seq<Picture>) returns (unique: seq<Asset>)
    ensures unique == Deduplicated(images)
  {
    unique := [];
    var seen: map<string, nat> := map[];
    for i := 0 to |images|
      invariant unique == Deduplicated(images[..i])
      invariant Indexes(seen, unique)
    {
      var image := images[i];
      DeduplicatedStep(images, i);
      if image.digest in seen {
        var k := seen[image.digest];
        var existing := unique[k];
        ghost var before := unique;
        unique := unique[k := existing.(headings := WithHeading(existing.headings, image.heading))];
        IndexesSame(seen, before, unique);
      } else {
        IndexedNot(seen, unique, image.digest);
        IndexesMore(seen, unique, NewAsset(image));
        seen := seen[image.digest := |unique|];
        unique := unique + [NewAsset(image)];
      }
    }
    assert images[..|images|] == images;
  }

  // ---------------------------------------------------------------- the records of a document

  function SignalRecord(kind: Kind, index: nat, text: string, asset: Option<nat>): ChunkRecord {
    ChunkRecord(kind, index, text, EstimateTokens(text), asset)
  }

  function QuestionRecords(questions: seq<string>): seq<ChunkRecord> {
    seq(|questions|, i requires 0 <= i < |questions| => SignalRecord(Question, i, questions[i], None))
  }

  /** Caption and recognised text of an image, one per line. */
  function ImageSignal(asset: Asset): string {
    Strip(if asset.caption == "" then asset.ocr
          else if asset.ocr == "" then asset.caption
          else asset.caption + "\n" + asset.ocr)
  }

  /** Records for the images that have some text. */
  function ImageRecords(assets: seq<Asset>): seq<ChunkRecord> {
    if assets == [] then []
    else
      var n := |assets| - 1;
      var signal := ImageSignal(assets[n]);
      ImageRecords(assets[..n]) + (if signal == "" then [] else [SignalRecord(Image, n, signal, Some(n))])
  }

  function Assemble(bodies: seq<ChunkRecord>, summary: string, questions: seq<string>, assets: seq<Asset>)
    : seq<ChunkRecord>
  {
    bodies + [SignalRecord(Summary, 0, summary, None)] + QuestionRecords(questions) + ImageRecords(assets)
  }

  datatype Parsed = Parsed(markdown: string, chunks: seq<ChunkRecord>, assets: seq<Asset>)

  /** The result for a cleaned text, given the metadata and the images that outside services supply. */
  function Process(cfg: Settings, markdown: string, summary: string, questions: seq<string>, images: seq<Picture>)
    : Parsed
    requires cfg.maxTokens >= 1
  {
    var assets := Deduplicated(images);
    Parsed(markdown, Assemble(BodyRecords(cfg, markdown), summary, questions, assets), assets)
  }

  method AddQuestions(before: seq<ChunkRecord>, questions: seq<string>) returns (chunks: seq<ChunkRecord>)
    ensures chunks == before + QuestionRecords(questions)
  {
    chunks := before;
    for index := 0 to |questions|
      invariant chunks == before + QuestionRecords(questions)[..index]
    {
      var record := SignalRecord(Question, index, questions[index], None);
      assert QuestionRecords(questions)[..index + 1] == QuestionRecords(questions)[..index] + [record];
      chunks := chunks + [record];
    }
  }

  method AddImages(before: seq<ChunkRecord>, assets: seq<Asset>) returns (chunks: seq<ChunkRecord>)
    ensures chunks == before + ImageRecords(assets)
  {
    chunks := before;
    for index := 0 to |assets|
      invariant chunks == before + ImageRecords(assets[..index])
    {
      assert assets[..index + 1][..index] == assets[..index];
      var signal := ImageSignal(assets[index]);
      if signal != "" {
        chunks := chunks + [SignalRecord(Image, index, signal, Some(index))];
      }
    }
    assert assets[..|assets|] == assets;
  }

  method ProcessDocument(cfg: Settings, markdown: string, summary: string, questions: seq<string>,
                         images: seq<Picture>)
    returns (result: Parsed)
    requires cfg.maxTokens >= 1
    ensures result == Process(cfg, markdown, summary, questions, images)
  {
    var assets := Deduplicate(images);
    var chunks := ChunkBody(cfg, markdown);
    chunks := AddQuestions(chunks + [SignalRecord(Summary, 0, summary, None)], questions);
    chunks := AddImages(chunks, assets);
    result := Parsed(markdown, chunks, assets);
  }

  // ---------------------------------------------------------------- keys

  ghost predicate DistinctKeys(rs: seq<ChunkRecord>) {
    forall i, j :: 0 <= i < j < |rs| ==> rs[i].kind != rs[j].kind || rs[i].index != rs[j].index
  }

  ghost predicate OfKind(rs: seq<ChunkRecord>, kind: Kind) {
    forall i :: 0 <= i < |rs| ==> rs[i].kind == kind
  }

  /** Records of one kind in increasing order have distinct keys. */
  lemma OneKindDistinct(rs: seq<ChunkRecord>, kind: Kind)
    requires OfKind(rs, kind) && Increasing(rs)
    ensures DistinctKeys(rs)
  {
  }

  lemma DistinctAppend(a: seq<ChunkRecord>, b: seq<ChunkRecord>)
    requires DistinctKeys(a) && DistinctKeys(b)
    requires forall i, j :: 0 <= i < |a| && 0 <= j < |b| ==> a[i].kind != b[j].kind
    ensures DistinctKeys(a + b)
  {
  }

  lemma {:induction false} ImageRecordsSound(assets: seq<Asset>)
    ensures OfKind(ImageRecords(assets), Image) && Increasing(ImageRecords(assets))
    ensures forall i :: 0 <= i < |ImageRecords(assets)| ==>
              ImageRecords(assets)[i].asset == Some(ImageRecords(assets)[i].index) &&
              ImageRecords(assets)[i].index < |assets|
  {
    if assets != [] {
      ImageRecordsSound(assets[..|assets| - 1]);
    }
  }

  /** What the persist transaction relies on. */
  ghost predicate Storable(doc: Parsed) {
    && DistinctKeys(doc.chunks)
    && (exists i :: 0 <= i < |doc.chunks| && doc.chunks[i].kind == Body)
    && DistinctDigests(doc.assets)
    && forall i :: 0 <= i < |doc.chunks| && doc.chunks[i].asset.Some? ==> doc.chunks[i].asset.value < |doc.assets|
  }

  lemma DistinctAssembly(bodies: seq<ChunkRecord>, summary: string, questions: seq<string>, assets: seq<Asset>)
    requires SoundBodies(bodies)
    ensures DistinctKeys(Assemble(bodies, summary, questions, assets))
  {
    hide ImageRecords;
    var head := [SignalRecord(Summary, 0, summary, None)];
    var asked, shown := QuestionRecords(questions), ImageRecords(assets);
    ImageRecordsSound(assets);
    OneKindDistinct(bodies, Body);
    OneKindDistinct(asked, Question);
    OneKindDistinct(shown, Image);
    DistinctAppend(bodies, head);
    DistinctAppend(bodies + head, asked);
    DistinctAppend(bodies + head + asked, shown);
  }

  ghost predicate AssetsInRange(chunks: seq<ChunkRecord>, n: nat) {
    forall i :: 0 <= i < |chunks| && chunks[i].asset.Some? ==> chunks[i].asset.value < n
  }

  lemma AssetsInRangeAppend(a: seq<ChunkRecord>, b: seq<ChunkRecord>, n: nat)
    requires AssetsInRange(a, n) && AssetsInRange(b, n)
    ensures AssetsInRange(a + b, n)
  {
  }

  lemma AssemblyInRange(bodies: seq<ChunkRecord>, summary: string, questions: seq<string>, assets: seq<Asset>)
    requires SoundBodies(bodies)
    ensures AssetsInRange(Assemble(bodies, summary, questions, assets), |assets|)
  {
    hide ImageRecords;
    var head := [SignalRecord(Summary, 0, summary, None)];
    var asked, shown := QuestionRecords(questions), ImageRecords(assets);
    ImageRecordsSound(assets);
    AssetsInRangeAppend(bodies, head, |assets|);
    AssetsInRangeAppend(bodies + head, asked, |assets|);
    AssetsInRangeAppend(bodies + head + asked, shown, |assets|);
  }

  /**
   * Every processed document has distinct (kind, index) keys, at least one body record, distinct asset
   * digests and asset numbers in range.
   */
  lemma {:induction false} ProcessedIsStorable(cfg: Settings, markdown: string, summary: string,
                                               questions: seq<string>, images: seq<Picture>)
    requires cfg.Sensible() && Strip(markdown) == markdown
    ensures Storable(Process(cfg, markdown, summary, questions, images))
  {
    hide BodyRecords, ImageRecords, Deduplicated;
    var assets := Deduplicated(images);
    var bodies := BodyRecords(cfg, markdown);
    BodyRecordsNonEmpty(cfg, markdown);
    DeduplicationCollects(images);
    DistinctAssembly(bodies, summary, questions, assets);
    AssemblyInRange(bodies, summary, questions, assets);
    assert Assemble(bodies, summary, questions, assets)[0] == bodies[0];
  }
}
