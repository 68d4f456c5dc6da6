/** The chunk and asset rows that a persist deletes and inserts, under their unique keys. */
module ChunkStore {
  import opened Options
  import opened Chunking
  import opened Documents
  import opened Materials

  datatype ChunkRow = ChunkRow(
    material: nat, version: Version, kind: Kind, index: nat, content: string, tokens: nat, assetId: Option<nat>)

  datatype AssetRow = AssetRow(id: nat, material: nat, generation: nat, digest: string)

  predicate SameChunkKey(a: ChunkRow, b: ChunkRow) {
    a.material == b.material && a.version == b.version && a.kind == b.kind && a.index == b.index
  }

  predicate SameAssetKey(a: AssetRow, b: AssetRow) {
    a.material == b.material && a.generation == b.generation && a.digest == b.digest
  }

  ghost predicate UniqueChunks(rows: seq<ChunkRow>) {
    forall i, j :: 0 <= i < j < |rows| ==> !SameChunkKey(rows[i], rows[j])
  }

  ghost predicate UniqueAssets(rows: seq<AssetRow>) {
    forall i, j :: 0 <= i < j < |rows| ==> !SameAssetKey(rows[i], rows[j]) && rows[i].id != rows[j].id
  }

  /** The foreign key: only rag-v2 rows refer to assets, and each to an asset row of its own material. */
  ghost predicate References(chunks: seq<ChunkRow>, assets: seq<AssetRow>) {
    forall r :: r in chunks && r.assetId.Some? ==>
      r.version == RagV2 && exists a: AssetRow :: a in assets && a.id == r.assetId.value && a.material == r.material
  }

  // ---------------------------------------------------------------- what a delete leaves

  /** The rows that are not rag-v2 rows of the material. */
  function OtherChunks(rows: seq<ChunkRow>, material: nat): seq<ChunkRow> {
    if rows == [] then []
    else
      var last := rows[|rows| - 1];
      var init := OtherChunks(rows[..|rows| - 1], material);
      if last.material == material && last.version == RagV2 then init else init + [last]
  }

  /** Every asset row belongs to rag-v2, so that the delete by version takes all of the material's rows. */
  function OtherAssets(rows: seq<AssetRow>, material: nat): seq<AssetRow> {
    if rows == [] then []
    else
      var last := rows[|rows| - 1];
      var init := OtherAssets(rows[..|rows| - 1], material);
      if last.material == material then init else init + [last]
  }

  lemma {:induction false} OtherChunksSound(rows: seq<ChunkRow>, material: nat)
    ensures forall r :: r in OtherChunks(rows, material) <==>
              r in rows && !(r.material == material && r.version == RagV2)
    ensures UniqueChunks(rows) ==> UniqueChunks(OtherChunks(rows, material))
  {
    if rows != [] {
      var n := |rows| - 1;
      OtherChunksSound(rows[..n], material);
      assert rows == rows[..n] + [rows[n]];
      if UniqueChunks(rows) {
        forall r | r in rows[..n] ensures !SameChunkKey(r, rows[n]) {
        }
      }
    }
  }

  lemma {:induction false} OtherAssetsSound(rows: seq<AssetRow>, material: nat)
    ensures forall r :: r in OtherAssets(rows, material) <==> r in rows && r.material != material
    ensures UniqueAssets(rows) ==> UniqueAssets(OtherAssets(rows, material))
  {
    if rows != [] {
      var n := |rows| - 1;
      OtherAssetsSound(rows[..n], material);
      assert rows == rows[..n] + [rows[n]];
      if UniqueAssets(rows) {
        forall r | r in rows[..n] ensures !SameAssetKey(r, rows[n]) && r.id != rows[n].id {
        }
      }
    }
  }

  lemma {:induction false} OtherAssetsAppend(rows: seq<AssetRow>, more: seq<AssetRow>, material: nat)
    ensures OtherAssets(rows + more, material) == OtherAssets(rows, material) + OtherAssets(more, material)
    decreases |more|
  {
    if more == [] {
      assert rows + more == rows;
    } else {
      assert (rows + more)[..|rows + more| - 1] == rows + more[..|more| - 1];
      OtherAssetsAppend(rows, more[..|more| - 1], material);
    }
  }

  lemma {:induction false} OtherChunksAppend(rows: seq<ChunkRow>, more: seq<ChunkRow>, material: nat)
    ensures OtherChunks(rows + more, material) == OtherChunks(rows, material) + OtherChunks(more, material)
    decreases |more|
  {
    if more == [] {
      assert rows + more == rows;
    } else {
      assert (rows + more)[..|rows + more| - 1] == rows + more[..|more| - 1];
      OtherChunksAppend(rows, more[..|more| - 1], material);
    }
  }

  // ---------------------------------------------------------------- what an insert adds

  /** The rows of the stored assets among the first n, numbered on from the given id. */
  function AssetRows(material: nat, generation: nat, assets: seq<Asset>, nextId: nat, n: nat): seq<AssetRow>
    requires n <= |assets|
  {
    if n == 0 then []
    else
      var init := AssetRows(material, generation, assets, nextId, n - 1);
      if assets[n - 1].stored
      then init + [AssetRow(nextId + |init|, material, generation, assets[n - 1].digest)]
      else init
  }

  /** The row id of an asset; none when its image was not stored. */
  function AssetId(material: nat, generation: nat, assets: seq<Asset>, nextId: nat, index: nat): Option<nat> {
    if index < |assets| && assets[index].stored
    then Some(nextId + |AssetRows(material, generation, assets, nextId, index)|)
    else None
  }

  function RowOf(material: nat, generation: nat, assets: seq<Asset>, nextId: nat, chunk: ChunkRecord): ChunkRow {
    ChunkRow(material, RagV2, chunk.kind, chunk.index, chunk.content, chunk.tokens,
             match chunk.asset case None => None
                               case Some(index) => AssetId(material, generation, assets, nextId, index))
  }

  function ChunkRows(material: nat, generation: nat, doc: Parsed, nextId: nat): seq<ChunkRow> {
    seq(|doc.chunks|, i requires 0 <= i < |doc.chunks| =>
          RowOf(material, generation, doc.assets, nextId, doc.chunks[i]))
  }

  lemma {:induction false} AssetRowsSound(material: nat, generation: nat, assets: seq<Asset>, nextId: nat, n: nat)
    requires n <= |assets| && DistinctDigests(assets)
    ensures var rows := AssetRows(material, generation, assets, nextId, n);
            && UniqueAssets(rows)
            && forall r :: r in rows ==>
                 && r.material == material && nextId <= r.id < nextId + |rows|
                 && exists i :: 0 <= i < n && assets[i].digest == r.digest
  {
    if n > 0 {
      AssetRowsSound(material, generation, assets, nextId, n - 1);
    }
  }

  /** Exactly the stored assets get a row, at the generation of the persist. */
  lemma {:induction false} OnlyStoredAssets(material: nat, generation: nat, assets: seq<Asset>, nextId: nat, n: nat)
    requires n <= |assets|
    ensures var rows := AssetRows(material, generation, assets, nextId, n);
            && |rows| == |set i | 0 <= i < n && assets[i].stored|
            && forall k :: 0 <= k < |rows| ==>
                 && rows[k].generation == generation && rows[k].material == material && rows[k].id == nextId + k
                 && exists i :: 0 <= i < n && assets[i].stored && assets[i].digest == rows[k].digest
  {
    var found := set i | 0 <= i < n && assets[i].stored;
    if n > 0 {
      OnlyStoredAssets(material, generation, assets, nextId, n - 1);
      var before := set i | 0 <= i < n - 1 && assets[i].stored;
      assert found == if assets[n - 1].stored then before + {n - 1} else before;
    } else {
      assert found == {};
    }
  }

  /** The id of a stored asset is that of a row with its digest. */
  lemma {:induction false} AssetIdNamesItsRow(material: nat, generation: nat, assets: seq<Asset>, nextId: nat,
                                              index: nat, n: nat)
    requires index < n <= |assets| && assets[index].stored
    ensures var k := |AssetRows(material, generation, assets, nextId, index)|;
            var rows := AssetRows(material, generation, assets, nextId, n);
            k < |rows| && rows[k] == AssetRow(nextId + k, material, generation, assets[index].digest)
  {
    if index < n - 1 {
      AssetIdNamesItsRow(material, generation, assets, nextId, index, n - 1);
    }
  }

  /** What a new chunk row refers to is the stored asset of its own image. */
  ghost predicate ReferToTheirImages(doc: Parsed, chunks: seq<ChunkRow>, assets: seq<AssetRow>) {
    && |chunks| == |doc.chunks|
    && forall i :: 0 <= i < |chunks| ==>
         var image := doc.chunks[i].asset;
         if image.Some? && image.value < |doc.assets| && doc.assets[image.value].stored
         then
           && chunks[i].assetId.Some?
           && exists a: AssetRow :: a in assets && a.id == chunks[i].assetId.value && a.material == chunks[i].material &&
                          a.digest == doc.assets[image.value].digest
         else chunks[i].assetId == None
  }

  lemma NewRowsRefer(material: nat, generation: nat, doc: Parsed, nextId: nat)
    ensures ReferToTheirImages(doc, ChunkRows(material, generation, doc, nextId),
                               AssetRows(material, generation, doc.assets, nextId, |doc.assets|))
  {
    var assets := AssetRows(material, generation, doc.assets, nextId, |doc.assets|);
    var rows := ChunkRows(material, generation, doc, nextId);
    forall i | 0 <= i < |rows| && doc.chunks[i].asset.Some? && doc.chunks[i].asset.value < |doc.assets| &&
               doc.assets[doc.chunks[i].asset.value].stored
      ensures rows[i].assetId.Some?
      ensures exists a: AssetRow :: a in assets && a.id == rows[i].assetId.value && a.material == rows[i].material &&
                          a.digest == doc.assets[doc.chunks[i].asset.value].digest
    {
      var index := doc.chunks[i].asset.value;
      AssetIdNamesItsRow(material, generation, doc.assets, nextId, index, |doc.assets|);
      assert assets[|AssetRows(material, generation, doc.assets, nextId, index)|] in assets;
    }
  }

  lemma StillRefer(doc: Parsed, chunks: seq<ChunkRow>, others: seq<AssetRow>, added: seq<AssetRow>)
    requires ReferToTheirImages(doc, chunks, added)
    ensures ReferToTheirImages(doc, chunks, others + added)
  {
    assert forall a :: a in added ==> a in others + added;
  }

  /** References of other rows survive the deletes, and new rows refer to new assets. */
  lemma ReferencesStay(chunks: seq<ChunkRow>, assets: seq<AssetRow>, material: nat, generation: nat, doc: Parsed,
                       nextId: nat)
    requires References(chunks, assets)
    ensures References(OtherChunks(chunks, material) + ChunkRows(material, generation, doc, nextId),
                       OtherAssets(assets, material) +
                         AssetRows(material, generation, doc.assets, nextId, |doc.assets|))
  {
    var others, added := OtherAssets(assets, material),
                         AssetRows(material, generation, doc.assets, nextId, |doc.assets|);
    var rows := ChunkRows(material, generation, doc, nextId);
    OtherChunksSound(chunks, material);
    OtherAssetsSound(assets, material);
    NewRowsRefer(material, generation, doc, nextId);
    forall r | r in OtherChunks(chunks, material) + rows && r.assetId.Some?
      ensures r.version == RagV2
      ensures exists a: AssetRow :: a in others + added && a.id == r.assetId.value && a.material == r.material
    {
      if r in OtherChunks(chunks, material) {
        var a :| a in assets && a.id == r.assetId.value && a.material == r.material;
        assert a in others + added;
      } else {
        var i :| 0 <= i < |rows| && rows[i] == r;
        var a :| a in added && a.id == r.assetId.value && a.material == r.material;
        assert a in others + added;
      }
    }
  }

  /** Deleting a material's rag-v2 rows undoes any persist of it. */
  lemma {:induction false} OwnRowsAreDeleted(rows: seq<ChunkRow>, material: nat)
    requires forall r :: r in rows ==> r.material == material && r.version == RagV2
    ensures OtherChunks(rows, material) == []
  {
    if rows != [] {
      OwnRowsAreDeleted(rows[..|rows| - 1], material);
    }
  }

  lemma {:induction false} OthersStay(rows: seq<ChunkRow>, material: nat)
    requires forall r :: r in rows ==> !(r.material == material && r.version == RagV2)
    ensures OtherChunks(rows, material) == rows
  {
    if rows != [] {
      OthersStay(rows[..|rows| - 1], material);
    }
  }

  lemma {:induction false} OwnAssetsAreDeleted(rows: seq<AssetRow>, material: nat)
    requires forall r :: r in rows ==> r.material == material
    ensures OtherAssets(rows, material) == []
  {
    if rows != [] {
      OwnAssetsAreDeleted(rows[..|rows| - 1], material);
    }
  }

  lemma {:induction false} OtherAssetsStay(rows: seq<AssetRow>, material: nat)
    requires forall r :: r in rows ==> r.material != material
    ensures OtherAssets(rows, material) == rows
  {
    if rows != [] {
      OtherAssetsStay(rows[..|rows| - 1], material);
    }
  }

  /** A second persist of a material leaves nothing of the first. */
  lemma LaterPersistReplaces(rows: seq<ChunkRow>, material: nat, generation: nat, doc: Parsed, nextId: nat)
    ensures OtherChunks(OtherChunks(rows, material) + ChunkRows(material, generation, doc, nextId), material) ==
            OtherChunks(rows, material)
  {
    var own := ChunkRows(material, generation, doc, nextId);
    OtherChunksSound(rows, material);
    OwnRowsAreDeleted(own, material);
    OthersStay(OtherChunks(rows, material), material);
    OtherChunksAppend(OtherChunks(rows, material), own, material);
  }

  lemma LaterPersistReplacesAssets(rows: seq<AssetRow>, material: nat, generation: nat, assets: seq<Asset>, nextId: nat)
    ensures OtherAssets(OtherAssets(rows, material) + AssetRows(material, generation, assets, nextId, |assets|),
                        material) == OtherAssets(rows, material)
  {
    var own := AssetRows(material, generation, assets, nextId, |assets|);
    OtherAssetsSound(rows, material);
    AssetRowsOwn(material, generation, assets, nextId, |assets|);
    OwnAssetsAreDeleted(own, material);
    OtherAssetsStay(OtherAssets(rows, material), material);
    OtherAssetsAppend(OtherAssets(rows, material), own, material);
  }

  lemma {:induction false} AssetRowsOwn(material: nat, generation: nat, assets: seq<Asset>, nextId: nat, n: nat)
    requires n <= |assets|
    ensures forall r :: r in AssetRows(material, generation, assets, nextId, n) ==> r.material == material
  {
    if n > 0 {
      AssetRowsOwn(material, generation, assets, nextId, n - 1);
    }
  }

  lemma UniqueAfterPersist(chunks: seq<ChunkRow>, material: nat, generation: nat, doc: Parsed, nextId: nat)
    requires UniqueChunks(chunks) && DistinctKeys(doc.chunks)
    ensures UniqueChunks(OtherChunks(chunks, material) + ChunkRows(material, generation, doc, nextId))
  {
    var others, rows := OtherChunks(chunks, material), ChunkRows(material, generation, doc, nextId);
    OtherChunksSound(chunks, material);
    forall i, j | 0 <= i < |others| && 0 <= j < |rows| ensures !SameChunkKey(others[i], rows[j]) {
      assert others[i] in others;
    }
  }

  lemma UniqueAssetsAfterPersist(assets: seq<AssetRow>, material: nat, generation: nat, doc: Parsed, nextId: nat)
    requires UniqueAssets(assets) && DistinctDigests(doc.assets) && forall r :: r in assets ==> r.id < nextId
    ensures var added := AssetRows(material, generation, doc.assets, nextId, |doc.assets|);
            && UniqueAssets(OtherAssets(assets, material) + added)
            && forall r :: r in OtherAssets(assets, material) + added ==> r.id < nextId + |added|
  {
    var others := OtherAssets(assets, material);
    var added := AssetRows(material, generation, doc.assets, nextId, |doc.assets|);
    OtherAssetsSound(assets, material);
    AssetRowsSound(material, generation, doc.assets, nextId, |doc.assets|);
    forall i, j | 0 <= i < |others| && 0 <= j < |added|
      ensures !SameAssetKey(others[i], added[j]) && others[i].id != added[j].id
    {
      assert others[i] in others && added[j] in added;
    }
  }

  /** The tables after some persist of the document, for some first asset id. */
  ghost predicate Replaced(chunks: seq<ChunkRow>, assets: seq<AssetRow>, after: (seq<ChunkRow>, seq<AssetRow>),
                           material: nat, generation: nat, doc: Parsed)
  {
    exists first ::
      && after.0 == OtherChunks(chunks, material) + ChunkRows(material, generation, doc, first)
      && after.1 == OtherAssets(assets, material) + AssetRows(material, generation, doc.assets, first, |doc.assets|)
  }

  // ---------------------------------------------------------------- what the rows stand for

  /** The rows of one material under one version, in order. */
  function OwnRows(rows: seq<ChunkRow>, material: nat, version: Version): seq<ChunkRow> {
    if rows == [] then []
    else
      var last := rows[|rows| - 1];
      var init := OwnRows(rows[..|rows| - 1], material, version);
      if last.material == material && last.version == version then init + [last] else init
  }

  /** Rows hold these chunk records; which asset a row names is the matter of ReferToTheirImages. */
  ghost predicate Represents(rows: seq<ChunkRow>, records: seq<ChunkRecord>) {
    && |rows| == |records|
    && forall i :: 0 <= i < |rows| ==>
         && rows[i].kind == records[i].kind && rows[i].index == records[i].index
         && rows[i].content == records[i].content && rows[i].tokens == records[i].tokens
  }

  /** The chunk table holds what the material rows say, under both versions. */
  ghost predicate Stores(rows: seq<ChunkRow>, db: Db) {
    forall id :: id in db.materials ==>
      && Represents(OwnRows(rows, id, RagV2), db.materials[id].v2)
      && Represents(OwnRows(rows, id, LegacyV1), db.materials[id].legacy)
  }

  lemma {:induction false} OwnRowsAppend(rows: seq<ChunkRow>, more: seq<ChunkRow>, material: nat, version: Version)
    ensures OwnRows(rows + more, material, version) ==
            OwnRows(rows, material, version) + OwnRows(more, material, version)
    decreases |more|
  {
    if more == [] {
      assert rows + more == rows;
    } else {
      assert (rows + more)[..|rows + more| - 1] == rows + more[..|more| - 1];
      OwnRowsAppend(rows, more[..|more| - 1], material, version);
    }
  }

  lemma {:induction false} OwnAmongOthers(rows: seq<ChunkRow>, material: nat, id: nat, version: Version)
    ensures OwnRows(OtherChunks(rows, material), id, version) ==
            if id == material && version == RagV2 then [] else OwnRows(rows, id, version)
  {
    if rows != [] {
      var init, last := rows[..|rows| - 1], rows[|rows| - 1];
      OwnAmongOthers(init, material, id, version);
      if last.material != material || last.version != RagV2 {
        OwnRowsAppend(OtherChunks(init, material), [last], id, version);
        assert [last][..0] == [];
      }
    }
  }

  lemma {:induction false} OwnAmongNew(rows: seq<ChunkRow>, material: nat, id: nat, version: Version)
    requires forall r :: r in rows ==> r.material == material && r.version == RagV2
    ensures OwnRows(rows, id, version) == if id == material && version == RagV2 then rows else []
  {
    if rows != [] {
      var init, last := rows[..|rows| - 1], rows[|rows| - 1];
      assert rows == init + [last];
      assert last in rows;
      OwnAmongNew(init, material, id, version);
    }
  }

  /** What a persist of the rows leaves under a material and a version: the document's rows, or what was there. */
  lemma {:induction false} OwnAfterPersist(rows: seq<ChunkRow>, material: nat, generation: nat, doc: Parsed,
                                           first: nat, id: nat, version: Version)
    ensures OwnRows(OtherChunks(rows, material) + ChunkRows(material, generation, doc, first), id, version) ==
            if id == material && version == RagV2 then ChunkRows(material, generation, doc, first)
            else OwnRows(rows, id, version)
  {
    hide OwnRows, OtherChunks;
    var own := ChunkRows(material, generation, doc, first);
    OwnRowsAppend(OtherChunks(rows, material), own, id, version);
    OwnAmongOthers(rows, material, id, version);
    OwnAmongNew(own, material, id, version);
  }

  lemma RowsOfTheDocument(material: nat, generation: nat, doc: Parsed, first: nat)
    ensures Represents(ChunkRows(material, generation, doc, first), doc.chunks)
  {
  }

  /** The persist of the chunk table refines that of the material rows: tables that agree before agree after. */
  lemma {:induction false} PersistRefines(rows: seq<ChunkRow>, db: Db, task: Task, doc: Parsed, first: nat)
    requires Stores(rows, db) && Materials.Persist(db, task, doc).Committed?
    ensures Stores(OtherChunks(rows, task.material) + ChunkRows(task.material, task.generation, doc, first),
                   Materials.Persist(db, task, doc).db)
  {
    hide OwnRows, OtherChunks, ChunkRows, Represents;
    var after := Materials.Persist(db, task, doc).db;
    var more := OtherChunks(rows, task.material) + ChunkRows(task.material, task.generation, doc, first);
    RowsOfTheDocument(task.material, task.generation, doc, first);
    forall id | id in after.materials
      ensures Represents(OwnRows(more, id, RagV2), after.materials[id].v2)
      ensures Represents(OwnRows(more, id, LegacyV1), after.materials[id].legacy)
    {
      OwnAfterPersist(rows, task.material, task.generation, doc, first, id, RagV2);
      OwnAfterPersist(rows, task.material, task.generation, doc, first, id, LegacyV1);
    }
  }

  // ---------------------------------------------------------------- the tables

  class Tables {
    var chunks: seq<ChunkRow>
    var assets: seq<AssetRow>
    var nextAsset: nat

    /** The unique keys, and the foreign key from chunk rows to asset rows. */
    ghost predicate Valid()
      reads this
    {
      && UniqueChunks(chunks) && UniqueAssets(assets) && References(chunks, assets)
      && forall r :: r in assets ==> r.id < nextAsset
    }

    constructor ()
      ensures Valid() && chunks == [] && assets == []
    {
      chunks, assets, nextAsset := [], [], 0;
    }

    method DeleteChunks(material: nat)
      modifies this`chunks
      ensures chunks == OtherChunks(old(chunks), material)
    {
      var kept: seq<ChunkRow> := [];
      for i := 0 to |chunks|
        invariant kept == OtherChunks(chunks[..i], material)
      {
        assert chunks[..i + 1][..i] == chunks[..i];
        if !(chunks[i].material == material && chunks[i].version == RagV2) {
          kept := kept + [chunks[i]];
        }
      }
      assert chunks[..|chunks|] == chunks;
      chunks := kept;
    }

    method DeleteAssets(material: nat)
      modifies this`assets
      ensures assets == OtherAssets(old(assets), material)
    {
      var kept: seq<AssetRow> := [];
      for i := 0 to |assets|
        invariant kept == OtherAssets(assets[..i], material)
      {
        assert assets[..i + 1][..i] == assets[..i];
        if assets[i].material != material {
          kept := kept + [assets[i]];
        }
      }
      assert assets[..|assets|] == assets;
      assets := kept;
    }

    /** The caller shows that the unique key does not abort the insert. */
    method InsertChunk(row: ChunkRow)
      requires forall r :: r in chunks ==> !SameChunkKey(r, row)
      modifies this`chunks
      ensures chunks == old(chunks) + [row]
    {
      chunks := chunks + [row];
    }

    method InsertAsset(row: AssetRow)
      requires forall r :: r in assets ==> !SameAssetKey(r, row)
      modifies this`assets
      ensures assets == old(assets) + [row]
    {
      assets := assets + [row];
    }

    method InsertAssets(material: nat, generation: nat, found: seq<Asset>) returns (ids: map<nat, nat>)
      requires DistinctDigests(found) && forall r :: r in assets ==> r.material != material
      modifies this`assets, this`nextAsset
      ensures var rows := AssetRows(material, generation, found, old(nextAsset), |found|);
              assets == old(assets) + rows && nextAsset == old(nextAsset) + |rows|
      ensures forall k :: (if k in ids then Some(ids[k]) else None) ==
                          AssetId(material, generation, found, old(nextAsset), k)
    {
      ids := map[];
      ghost var before, first := assets, nextAsset;
      for i := 0 to |found|
        invariant assets == before + AssetRows(material, generation, found, first, i)
        invariant nextAsset == first + |AssetRows(material, generation, found, first, i)|
        invariant forall k: nat :: k in ids <==> k < i && found[k].stored
        invariant forall k :: k in ids ==> Some(ids[k]) == AssetId(material, generation, found, first, k)
      {
        if found[i].stored {
          AssetRowsSound(material, generation, found, first, i);
          ghost var rows := AssetRows(material, generation, found, first, i);
          assert forall r :: r in assets ==> r in before || r in rows;
          InsertAsset(AssetRow(nextAsset, material, generation, found[i].digest));
          ids := ids[i := nextAsset];
          nextAsset := nextAsset + 1;
        }
      }
    }

    method InsertChunks(material: nat, generation: nat, doc: Parsed, ids: map<nat, nat>, ghost first: nat)
      requires DistinctKeys(doc.chunks)
      requires forall r :: r in chunks ==> !(r.material == material && r.version == RagV2)
      requires forall k :: (if k in ids then Some(ids[k]) else None) ==
                           AssetId(material, generation, doc.assets, first, k)
      modifies this`chunks
      ensures chunks == old(chunks) + ChunkRows(material, generation, doc, first)
    {
      ghost var before, rows := chunks, ChunkRows(material, generation, doc, first);
      for i := 0 to |doc.chunks|
        invariant chunks == before + rows[..i]
      {
        var chunk := doc.chunks[i];
        var assetId := if chunk.asset.None? then None
                       else if chunk.asset.value in ids then Some(ids[chunk.asset.value]) else None;
        var row := ChunkRow(material, RagV2, chunk.kind, chunk.index, chunk.content, chunk.tokens, assetId);
        assert row == rows[i];
        forall r | r in chunks ensures !SameChunkKey(r, row) {
          if r !in before {
            var j :| 0 <= j < i && rows[j] == r;
          }
        }
        InsertChunk(row);
        assert rows[..i + 1] == rows[..i] + [row];
      }
    }

    /** One persist, after the check that the generation is still held. */
    method Persist(material: nat, generation: nat, doc: Parsed)
      requires Valid() && Storable(doc)
      modifies this
      ensures Valid()
      ensures chunks == OtherChunks(old(chunks), material) +
                        ChunkRows(material, generation, doc, old(nextAsset))
      ensures assets == OtherAssets(old(assets), material) +
                        AssetRows(material, generation, doc.assets, old(nextAsset), |doc.assets|)
      ensures var others := |OtherChunks(old(chunks), material)|;
              others <= |chunks| && ReferToTheirImages(doc, chunks[others..], assets)
    {
      hide OtherChunks, OtherAssets, AssetRows, ReferToTheirImages, UniqueChunks, UniqueAssets, References;
      ghost var first, others := nextAsset, OtherChunks(chunks, material);
      ReferencesStay(chunks, assets, material, generation, doc, first);
      UniqueAfterPersist(chunks, material, generation, doc, first);
      UniqueAssetsAfterPersist(assets, material, generation, doc, first);
      NewRowsRefer(material, generation, doc, first);
      OtherChunksSound(chunks, material);
      OtherAssetsSound(assets, material);
      DeleteChunks(material);
      DeleteAssets(material);
      var ids := InsertAssets(material, generation, doc.assets);
      InsertChunks(material, generation, doc, ids, first);
      assert chunks[|others|..] == ChunkRows(material, generation, doc, first);
      StillRefer(doc, ChunkRows(material, generation, doc, first), OtherAssets(old(assets), material),
                 AssetRows(material, generation, doc.assets, first, |doc.assets|));
    }

    /**
     * Any number of persists of one material, at whatever generations: no key is violated, the rows of
     * everything else stay as they were, and those of the material are the last document's.
     */
    method PersistMany(material: nat, attempts: seq<(nat, Parsed)>)
      requires Valid() && attempts != [] && forall a :: a in attempts ==> Storable(a.1)
      modifies this
      ensures Valid()
      ensures var last := attempts[|attempts| - 1];
              Replaced(old(chunks), old(assets), (chunks, assets), material, last.0, last.1)
    {
      ghost var hadChunks, hadAssets, first := chunks, assets, nextAsset;
      Persist(material, attempts[0].0, attempts[0].1);
      for i := 1 to |attempts|
        invariant Valid()
        invariant chunks == OtherChunks(hadChunks, material) +
                            ChunkRows(material, attempts[i - 1].0, attempts[i - 1].1, first)
        invariant var doc := attempts[i - 1].1;
                  assets == OtherAssets(hadAssets, material) +
                            AssetRows(material, attempts[i - 1].0, doc.assets, first, |doc.assets|)
      {
        LaterPersistReplaces(hadChunks, material, attempts[i - 1].0, attempts[i - 1].1, first);
        LaterPersistReplacesAssets(hadAssets, material, attempts[i - 1].0, attempts[i - 1].1.assets, first);
        first := nextAsset;
        Persist(material, attempts[i].0, attempts[i].1);
      }
    }
  }
}
