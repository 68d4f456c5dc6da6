/**
 * The material table and the index versions as mutable state. Each method is one transaction or script,
 * statement by statement, and does what its namesake in Materials says.
 */
module MaterialStore {
  import opened Options
  import opened Chunking
  import opened Documents
  import opened Materials

  class Store {
    var materials: map<nat, Material>
    var nextId: nat
    var versions: Versions

    function View(): Db
      reads this
    {
      Db(materials, nextId, versions)
    }

    constructor (legacySince: nat)
      ensures View() == Db(map[], 0, Versions(Active, Some(legacySince), Building, None))
    {
      materials, nextId := map[], 0;
      versions := Versions(Active, Some(legacySince), Building, None);
    }

    method CreateMaterial(content: Option<string>, fileType: Option<string>, storageKey: Option<string>)
      returns (id: nat)
      modifies this
      ensures id == old(nextId) && View() == Create(old(View()), content, fileType, storageKey)
    {
      id := nextId;
      materials := materials[id := NewMaterial(content, fileType, storageKey)];
      nextId := nextId + 1;
    }

    // ------------------------------------------------------------ parse_tasks.go

    method RequeueFailedParse(id: nat) returns (requeued: bool)
      modifies this`materials
      ensures (View(), requeued) == RequeueFailed(old(View()), id)
    {
      requeued := false;
      if id in materials && materials[id].status == Failed {
        var m := materials[id];
        materials := materials[id := m.(status := Pending, error := None, generation := m.generation + 1)];
        requeued := true;
      }
    }

    /** Returns the number of rows that were left parsing. */
    method RequeueInterruptedParses() returns (rows: nat)
      modifies this`materials
      ensures View() == RequeueInterrupted(old(View()))
      ensures rows == |set id | id in old(materials) && old(materials)[id].status == Parsing|
    {
      var todo := set id | id in materials && materials[id].status == Parsing;
      rows := |todo|;
      RequeueEach(todo);
    }

    /** The rows of an UPDATE, one after the other. */
    method RequeueEach(hit: set<nat>)
      requires hit == set id | id in materials && materials[id].status == Parsing
      modifies this`materials
      ensures materials == map id | id in old(materials) :: Recovered(old(materials)[id])
    {
      var todo := hit;
      ghost var before := materials;
      while todo != {}
        invariant materials.Keys == before.Keys && todo <= hit
        invariant forall id :: id in before ==>
                    materials[id] == if id in todo then before[id] else Recovered(before[id])
        decreases |todo|
      {
        var id :| id in todo;
        var m := materials[id];
        materials := materials[id := m.(status := Pending, error := None, generation := m.generation + 1)];
        todo := todo - {id};
      }
    }

    method ClaimParseTask(id: nat) returns (task: Option<Task>)
      modifies this`materials
      ensures (View(), task) == Claim(old(View()), id)
    {
      task := None;
      if id in materials && materials[id].status == Pending {
        var m := materials[id].(status := Parsing, error := None);
        materials := materials[id := m];
        task := Some(TaskOf(id, m));
      }
    }

    /** The second result is whether the caller should trigger a parse. */
    method UpdateMaterial(id: nat, content: Option<string>) returns (found: bool, reparse: bool)
      modifies this`materials
      ensures View() == Edit(old(View()), id, content)
      ensures found == (id in old(materials))
      ensures reparse == (found && content.Some? && old(materials)[id].content != content)
    {
      found, reparse := id in materials, false;
      if found && content.Some? && materials[id].content != content {
        reparse := true;
        var m := materials[id];
        m := m.(content := content, edit := content.value, passes := 0);
        m := m.(status := Pending, error := None, generation := m.generation + 1);
        materials := materials[id := m];
      }
    }

    method FinishParseTask(id: nat, generation: nat, failure: Option<string>) returns (finished: bool)
      modifies this`materials
      ensures (View(), finished) == Finish(old(View()), id, generation, failure)
    {
      finished := false;
      if id in materials && materials[id].status == Parsing && materials[id].generation == generation {
        var status := if failure.None? then Done else Failed;
        materials := materials[id := materials[id].(status := status, error := failure)];
        finished := true;
      }
    }

    // ------------------------------------------------------------ the persist transaction of parse

    method PersistParse(task: Task, doc: Parsed) returns (stale: Option<bool>)
      modifies this`materials
      ensures match Persist(old(View()), task, doc)
              case Missing => stale == None && View() == old(View())
              case Stale => stale == Some(true) && View() == old(View())
              case Committed(db) => stale == Some(false) && View() == db
    {
      var id := task.material;
      if id !in materials {
        return None;
      }
      if materials[id].generation != task.generation || materials[id].status != Parsing {
        return Some(true);
      }
      var m := materials[id].(v2 := []);
      for i := 0 to |doc.chunks|
        invariant m == materials[id].(v2 := doc.chunks[..i])
      {
        m := m.(v2 := m.v2 + [doc.chunks[i]]);
      }
      assert doc.chunks[..|doc.chunks|] == doc.chunks;
      var hasLegacy := m.legacy != [];
      var v2IsActive := versions.v2 == Active;
      m := m.(content := Some(doc.markdown), passes := task.payload.passes + 1,
              index := if v2IsActive || !hasLegacy then RagV2 else LegacyV1);
      materials := materials[id := m];
      stale := Some(false);
    }

    // ------------------------------------------------------------ the operator scripts

    /** One UPDATE of the versions table; the caller shows that the unique index does not abort it. */
    method UpdateVersions(next: Versions)
      requires Checked(next).Some?
      modifies this`versions
      ensures versions == next
    {
      versions := next;
    }

    method FindUnready() returns (unready: bool)
      ensures unready == exists id :: id in materials && !ReadyForV2(materials[id])
    {
      var todo := materials.Keys;
      while todo != {}
        invariant todo <= materials.Keys
        invariant forall id :: id in materials && id !in todo ==> ReadyForV2(materials[id])
        decreases |todo|
      {
        var id :| id in todo;
        if !(materials[id].status == Done && ContainsBody(materials[id].v2)) {
          return true;
        }
        todo := todo - {id};
      }
      unready := false;
    }

    /** Moves every material to its cohort. */
    method AssignCohorts(env: World, percentage: nat)
      modifies this`materials
      ensures materials ==
              map id | id in old(materials) :: Reassigned(env, id, old(materials)[id], percentage)
    {
      var todo := materials.Keys;
      ghost var before := materials;
      while todo != {}
        invariant materials.Keys == before.Keys && todo <= before.Keys
        invariant forall id :: id in before ==>
                    materials[id] == if id in todo then before[id] else Reassigned(env, id, before[id], percentage)
        decreases |todo|
      {
        var id :| id in todo;
        var version;
        if percentage == 100 || env.cohort(id) % 100 < percentage {
          version := RagV2;
        } else if ContainsBody(materials[id].legacy) {
          version := LegacyV1;
        } else {
          version := RagV2;
        }
        materials := materials[id := materials[id].(index := version)];
        todo := todo - {id};
      }
    }

    /** A script that raises is rolled back: nothing changes. */
    method ActivateRagV2(env: World, percentage: nat, now: nat) returns (ok: bool)
      modifies this
      ensures ok == Activate(env, old(View()), percentage, now).Some?
      ensures View() == if ok then Activate(env, old(View()), percentage, now).value else old(View())
    {
      if percentage != 10 && percentage != 50 && percentage != 100 {
        return false;
      }
      var unready := FindUnready();
      if unready {
        return false;
      }
      if percentage == 100 {
        UpdateVersions(versions.(legacy := if versions.legacy == Active then Retired else versions.legacy));
        UpdateVersions(versions.(v2 := Active, v2Since := Some(now)));
      } else {
        UpdateVersions(versions.(v2 := Building, v2Since := None));
        UpdateVersions(versions.(legacy := Active,
          legacySince := if versions.legacySince.None? then Some(now) else versions.legacySince));
      }
      ok := true;
      AssignCohorts(env, percentage);
    }

    /** Points every material that has legacy chunks at them. */
    method ReturnToLegacy()
      modifies this`materials
      ensures materials == map id | id in old(materials) :: BackToLegacy(old(materials)[id])
    {
      var todo := materials.Keys;
      ghost var before := materials;
      while todo != {}
        invariant materials.Keys == before.Keys && todo <= before.Keys
        invariant forall id :: id in before ==>
                    materials[id] == if id in todo then before[id] else BackToLegacy(before[id])
        decreases |todo|
      {
        var id :| id in todo;
        if materials[id].legacy != [] {
          materials := materials[id := materials[id].(index := LegacyV1)];
        }
        todo := todo - {id};
      }
    }

    method RollbackRagV2(now: nat)
      modifies this
      ensures Rollback(old(View()), now) == Some(View())
    {
      UpdateVersions(versions.(v2 := Building, v2Since := None));
      UpdateVersions(versions.(legacy := Active, legacySince := Some(now)));
      ReturnToLegacy();
      assert View().materials == Rollback(old(View()), now).value.materials;
    }

    /** Deletes the chunk rows of the legacy index. */
    method DeleteLegacyChunks()
      modifies this`materials
      ensures materials == map id | id in old(materials) :: WithoutLegacy(old(materials)[id])
    {
      var todo := materials.Keys;
      ghost var before := materials;
      while todo != {}
        invariant materials.Keys == before.Keys && todo <= before.Keys
        invariant forall id :: id in before ==>
                    materials[id] == if id in todo then before[id] else WithoutLegacy(before[id])
        decreases |todo|
      {
        var id :| id in todo;
        materials := materials[id := materials[id].(legacy := [])];
        todo := todo - {id};
      }
    }

    method RetireLegacyRag(now: nat) returns (ok: bool)
      modifies this
      ensures ok == Retire(old(View()), now).Some?
      ensures View() == if ok then Retire(old(View()), now).value else old(View())
    {
      ok := versions.v2 == Active && versions.v2Since.Some? && versions.v2Since.value + FORTNIGHT <= now;
      if !ok {
        return;
      }
      DeleteLegacyChunks();
      versions := versions.(legacy := Retired);
    }

    /** Queues every material without rag-v2 body chunks under a new generation. */
    method RequeueUnindexed()
      modifies this`materials
      ensures materials == map id | id in old(materials) :: Reindexed(old(materials)[id])
    {
      var todo := materials.Keys;
      ghost var before := materials;
      while todo != {}
        invariant materials.Keys == before.Keys && todo <= before.Keys
        invariant forall id :: id in before ==>
                    materials[id] == if id in todo then before[id] else Reindexed(before[id])
        decreases |todo|
      {
        var id :| id in todo;
        var m := materials[id];
        if !ContainsBody(m.v2) {
          materials := materials[id := m.(status := Pending, error := None, generation := m.generation + 1)];
        }
        todo := todo - {id};
      }
    }

    method ReindexRagV2()
      modifies this
      ensures View() == Reindex(old(View()))
    {
      if versions.v2 != Active {
        versions := versions.(v2 := Building, v2Since := None);
      }
      RequeueUnindexed();
    }
  }

  /** Whether some chunk is a body chunk. */
  predicate ContainsBody(chunks: seq<ChunkRecord>)
    ensures ContainsBody(chunks) <==> HasBody(chunks)
  {
    if chunks == [] then false
    else
      var n := |chunks| - 1;
      assert HasBody(chunks[..n]) ==> HasBody(chunks);
      chunks[n].kind == Body || ContainsBody(chunks[..n])
  }
}
