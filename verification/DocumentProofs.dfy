/** What reaches the records and assets of a document: every signal with its text, every image with its first finding. */
module DocumentProofs {
  import opened Basics
  import opened Options
  import opened Text
  import opened TextProofs
  import opened Chunking
  import opened ChunkingProofs
  import opened Documents

  // ---------------------------------------------------------------- assets

  function Digests(images: seq<Picture>): (ds: seq<string>)
    ensures |ds| == |images|
  {
    seq(|images|, i requires 0 <= i < |images| => images[i].digest)
  }

  function AssetDigests(assets: seq<Asset>): (ds: seq<string>)
    ensures |ds| == |assets|
  {
    seq(|assets|, i requires 0 <= i < |assets| => assets[i].digest)
  }

  /** The asset holds what the first image with its digest was found to be. */
  ghost predicate FirstFinding(images: seq<Picture>, asset: Asset) {
    exists k :: 0 <= k < |images| && images[k].digest == asset.digest && asset.digest !in Digests(images)[..k] &&
                Depicts(asset, images[k])
  }

  predicate Depicts(asset: Asset, image: Picture) {
    && asset.page == image.page && asset.caption == image.caption && asset.ocr == image.ocr
    && asset.stored == image.stored
  }

  lemma FirstFindingStays(images: seq<Picture>, image: Picture, asset: Asset, same: Asset)
    requires FirstFinding(images, asset) && same.digest == asset.digest
    requires same.page == asset.page && same.caption == asset.caption && same.ocr == asset.ocr
    requires same.stored == asset.stored
    ensures FirstFinding(images + [image], same)
  {
    var k :| 0 <= k < |images| && images[k].digest == asset.digest && asset.digest !in Digests(images)[..k] &&
             Depicts(asset, images[k]);
    assert Digests(images + [image])[..k] == Digests(images)[..k] && (images + [image])[k] == images[k];
  }

  lemma FirstFindingNew(images: seq<Picture>, image: Picture)
    requires image.digest !in Digests(images)
    ensures FirstFinding(images + [image], NewAsset(image))
  {
    assert Digests(images + [image])[..|images|] == Digests(images) && (images + [image])[|images|] == image;
  }

  lemma FindIsMember(assets: seq<Asset>, digest: string)
    ensures Find(assets, digest) < |assets| <==> digest in AssetDigests(assets)
  {
    if digest in AssetDigests(assets) {
      var i :| 0 <= i < |assets| && AssetDigests(assets)[i] == digest;
      assert assets[i].digest == digest;
    }
    if Find(assets, digest) < |assets| {
      assert AssetDigests(assets)[Find(assets, digest)] == digest;
    }
  }

  /** One image more: a new asset for a new digest, and otherwise nothing but a heading. */
  lemma AdmitAdds(assets: seq<Asset>, image: Picture)
    ensures AssetDigests(Admit(assets, image)) ==
            if image.digest in AssetDigests(assets) then AssetDigests(assets)
            else AssetDigests(assets) + [image.digest]
    ensures forall i :: 0 <= i < |assets| ==>
              var a, b := assets[i], Admit(assets, image)[i];
              b.digest == a.digest && b.page == a.page && b.caption == a.caption && b.ocr == a.ocr && b.stored == a.stored
    ensures image.digest !in AssetDigests(assets) ==>
              Admit(assets, image) == assets + [NewAsset(image)]
  {
    FindIsMember(assets, image.digest);
  }

  lemma {:induction false} FindingsStay(images: seq<Picture>, assets: seq<Asset>, image: Picture)
    requires forall i :: 0 <= i < |assets| ==> FirstFinding(images, assets[i])
    requires forall d :: d in AssetDigests(assets) <==> d in Digests(images)
    ensures forall i :: 0 <= i < |Admit(assets, image)| ==> FirstFinding(images + [image], Admit(assets, image)[i])
  {
    hide FirstFinding, Admit, Find;
    AdmitAdds(assets, image);
    var next := Admit(assets, image);
    assert |AssetDigests(next)| == |next|;
    forall i | 0 <= i < |next| ensures FirstFinding(images + [image], next[i]) {
      if i < |assets| {
        FirstFindingStays(images, image, assets[i], next[i]);
      } else {
        FirstFindingNew(images, image);
      }
    }
  }

  lemma DigestsOf(images: seq<Picture>)
    ensures images == [] ==> Digests(images) == []
    ensures images != [] ==> Digests(images) == Digests(images[..|images| - 1]) + [images[|images| - 1].digest]
  {
  }

  lemma NoAssets()
    ensures AssetDigests(Deduplicated([])) == [] && |Deduplicated([])| == 0
  {
  }

  /** There is one asset per digest, in the order in which digests first occur, with what was found there. */
  lemma {:induction false} AssetsAreFirstFindings(images: seq<Picture>)
    ensures InFirstOrder(AssetDigests(Deduplicated(images)), Digests(images))
    ensures forall i :: 0 <= i < |Deduplicated(images)| ==> FirstFinding(images, Deduplicated(images)[i])
  {
    hide InFirstOrder, FirstFinding, Admit, Digests, AssetDigests;
    DigestsOf(images);
    if images == [] {
      NothingInOrder<string>();
      NoAssets();
    } else {
      var init, image := images[..|images| - 1], images[|images| - 1];
      var before := Deduplicated(init);
      assert images == init + [image];
      AssetsAreFirstFindings(init);
      AdmitAdds(before, image);
      FirstOrderSnoc(AssetDigests(before), Digests(init), image.digest);
      DigestsSeen(before, init);
      FindingsStay(init, before, image);
    }
  }

  lemma DigestsSeen(assets: seq<Asset>, images: seq<Picture>)
    requires InFirstOrder(AssetDigests(assets), Digests(images))
    ensures forall d :: d in AssetDigests(assets) <==> d in Digests(images)
  {
  }

  // ---------------------------------------------------------------- headings

  /** The headings of the images with a digest, in order, the empty ones left out. */
  function Column(images: seq<Picture>, digest: string): seq<string> {
    if images == [] then []
    else
      var last := images[|images| - 1];
      Column(images[..|images| - 1], digest) +
        (if last.digest == digest && last.heading != "" then [last.heading] else [])
  }

  lemma {:induction false} ColumnHolds(images: seq<Picture>, digest: string, heading: string)
    ensures heading in Column(images, digest) <==>
            heading != "" && exists k :: 0 <= k < |images| && images[k].digest == digest && images[k].heading == heading
  {
    if images != [] {
      var init := images[..|images| - 1];
      ColumnHolds(init, digest, heading);
      if k :| 0 <= k < |images| && images[k].digest == digest && images[k].heading == heading {
        assert k < |init| ==> init[k] == images[k];
      }
      if heading in Column(init, digest) {
        var k :| 0 <= k < |init| && init[k].digest == digest && init[k].heading == heading;
        assert images[k] == init[k];
      }
    }
  }

  /** An asset keeps every heading that an image with its digest stands under, once each, in document order. */
  lemma {:induction false} HeadingsInOrder(images: seq<Picture>, digest: string)
    ensures InFirstOrder(HeadingsOf(images, digest), Column(images, digest))
  {
    if images != [] {
      hide InFirstOrder;
      var init, last := images[..|images| - 1], images[|images| - 1];
      HeadingsInOrder(init, digest);
      if last.digest == digest && last.heading != "" {
        FirstOrderSnoc(HeadingsOf(init, digest), Column(init, digest), last.heading);
      } else {
        assert Column(images, digest) == Column(init, digest);
      }
    } else {
      hide InFirstOrder;
      NothingInOrder<string>();
      assert HeadingsOf([], digest) == [] && Column([], digest) == [];
    }
  }

  // ---------------------------------------------------------------- records

  /** The text of an image: caption and recognised text on two lines, without white space at the ends. */
  lemma {:induction false} ImageText(asset: Asset) returns (before: string, after: string)
    ensures before + ImageSignal(asset) + after ==
            if asset.caption == "" then asset.ocr
            else if asset.ocr == "" then asset.caption else asset.caption + "\n" + asset.ocr
    ensures IsBlank(before) && IsBlank(after)
    ensures Ink(ImageSignal(asset)) == Ink(asset.caption) + Ink(asset.ocr)
  {
    var text := if asset.caption == "" then asset.ocr
      else if asset.ocr == "" then asset.caption else asset.caption + "\n" + asset.ocr;
    before, after := StripCuts(text);
    StripInk(text);
    InkOfBlank("");
    assert Ink(text) == Ink(asset.caption) + Ink(asset.ocr) by {
      if asset.caption != "" && asset.ocr != "" {
        CutInk(asset.caption, "\n", asset.ocr);
      }
    }
  }

  lemma {:induction false} ImageRecordsAre(assets: seq<Asset>, r: ChunkRecord)
    ensures r in ImageRecords(assets) <==>
            && r.index < |assets| && r.kind == Image && r.asset == Some(r.index)
            && r.content == ImageSignal(assets[r.index]) && r.content != "" && r.tokens == EstimateTokens(r.content)
  {
    if assets != [] {
      hide EstimateTokens, ImageSignal;
      ImageRecordsAre(assets[..|assets| - 1], r);
    }
  }

  lemma QuestionRecordsAre(questions: seq<string>, r: ChunkRecord)
    ensures r in QuestionRecords(questions) <==>
            && r.index < |questions| && r.kind == Question && r.asset == None
            && r.content == questions[r.index] && r.tokens == EstimateTokens(r.content)
  {
    hide EstimateTokens;
    if r.index < |questions| {
      assert QuestionRecords(questions)[r.index] == SignalRecord(Question, r.index, questions[r.index], None);
    }
  }

  /** A document holds its body records, its summary, every question and the text of every image, and nothing else. */
  lemma {:induction false} DocumentHolds(cfg: Settings, markdown: string, summary: string, questions: seq<string>,
                                         images: seq<Picture>, r: ChunkRecord)
    requires cfg.maxTokens >= 1
    ensures var doc := Process(cfg, markdown, summary, questions, images);
            && doc.markdown == markdown && doc.assets == Deduplicated(images)
            && (r in doc.chunks <==>
                  || r in BodyRecords(cfg, markdown)
                  || r == ChunkRecord(Summary, 0, summary, EstimateTokens(summary), None)
                  || (r.index < |questions| &&
                      r == ChunkRecord(Question, r.index, questions[r.index], EstimateTokens(r.content), None))
                  || (r.index < |doc.assets| && r.content != "" &&
                      r == ChunkRecord(Image, r.index, ImageSignal(doc.assets[r.index]), EstimateTokens(r.content),
                                       Some(r.index))))
  {
    hide BodyRecords, EstimateTokens, ImageRecords, QuestionRecords, ImageSignal, Deduplicated;
    var assets := Deduplicated(images);
    ImageRecordsAre(assets, r);
    QuestionRecordsAre(questions, r);
    var head := [SignalRecord(Summary, 0, summary, None)];
    var bodies, asked, shown := BodyRecords(cfg, markdown), QuestionRecords(questions), ImageRecords(assets);
    assert r in bodies + head + asked + shown <==> r in bodies || r in head || r in asked || r in shown;
  }
}
