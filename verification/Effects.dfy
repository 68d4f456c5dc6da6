/**
 * What each transaction, script and worker step does, said column by column and without naming the
 * functions of Materials and ParseProtocol that compute it.
 */
module Effects {
  import opened Options
  import opened Text
  import opened TextProofs
  import opened Chunking
  import opened Documents
  import opened Materials
  import opened ParseProtocol

  // ---------------------------------------------------------------- which text a parse reads

  /** A type names a kind in any mixture of cases and behind any number of dots. */
  ghost predicate Names(fileType: string, kind: string) {
    && |kind| <= |fileType|
    && (forall i :: 0 <= i < |fileType| - |kind| ==> fileType[i] == '.')
    && forall i :: 0 <= i < |kind| ==>
         var c := fileType[|fileType| - |kind| + i];
         kind[i] == if 'A' <= c <= 'Z' then ((c as int) + 32) as char else c
  }

  lemma {:induction false} LowerIsCharwise(s: string)
    ensures |Lower(s)| == |s|
    ensures forall i :: 0 <= i < |s| ==>
              Lower(s)[i] == if 'A' <= s[i] <= 'Z' then ((s[i] as int) + 32) as char else s[i]
  {
    if s != "" {
      LowerIsCharwise(s[1..]);
    }
  }

  lemma {:induction false} DotsDropped(s: string, n: nat)
    requires n <= |s| && (forall i :: 0 <= i < n ==> s[i] == '.') && (n < |s| ==> s[n] != '.')
    ensures DropDots(s) == s[n..]
  {
    if n > 0 {
      DotsDropped(s[1..], n - 1);
    }
  }

  lemma KindIsNamed(fileType: string, kind: string)
    requires kind != "" && kind[0] != '.' && Names(fileType, kind)
    ensures FileKind(fileType) == kind
  {
    var n := |fileType| - |kind|;
    LowerIsCharwise(fileType);
    DotsDropped(Lower(fileType), n);
    assert Lower(fileType)[n..] == kind;
  }

  /** Text kinds, and a missing type, read the row, or the stored file when the row is empty. */
  lemma TextIsRead(env: World, fileType: string, content: string, key: string)
    requires fileType == "" || Names(fileType, "txt") || Names(fileType, "md") || Names(fileType, "markdown")
    ensures ExtractText(env, fileType, content, key) ==
            if content == "" && key != "" then env.storedText(key) else Some(content)
  {
    assert Names("txt", "txt");
    KindIsNamed("txt", "txt");
    if fileType != "" {
      var kind := if Names(fileType, "txt") then "txt" else if Names(fileType, "md") then "md" else "markdown";
      KindIsNamed(fileType, kind);
    }
  }

  /** Office kinds read the stored file, or the row when there is none; any other kind is refused. */
  lemma OfficeIsRead(env: World, fileType: string, kind: string, content: string, key: string)
    requires kind != "" && kind[0] != '.' && Names(fileType, kind)
    requires kind != "txt" && kind != "md" && kind != "markdown"
    ensures ExtractText(env, fileType, content, key) ==
            if kind == "docx" || kind == "pdf"
            then env.officeText(kind, if key == "" then Inline(content) else Stored(key)) else None
  {
    KindIsNamed(fileType, kind);
  }

  /** Cleaning is the scrubbing of the regular expressions, and then takes white space from the two ends only. */
  lemma CleaningStrips(env: World, text: string) returns (before: string, after: string)
    ensures env.scrub(text) == before + Clean(env, text) + after && IsBlank(before) && IsBlank(after)
    ensures Clean(env, text) != "" ==>
              !IsSpace(Clean(env, text)[0]) && !IsSpace(Clean(env, text)[|Clean(env, text)| - 1])
  {
    before, after := StripCuts(env.scrub(text));
  }

  // ---------------------------------------------------------------- transactions on the material rows

  /** The columns that queueing, claiming and finishing leave alone. */
  ghost predicate SameDocument(m: Material, n: Material) {
    && n.content == m.content && n.fileType == m.fileType && n.storageKey == m.storageKey
    && n.edit == m.edit && n.passes == m.passes && SameChunks(m, n)
  }

  ghost predicate SameChunks(m: Material, n: Material) {
    n.index == m.index && n.legacy == m.legacy && n.v2 == m.v2
  }

  /** The row waits again, without an error, under the next generation. */
  ghost predicate Queued(m: Material, n: Material) {
    n.status == Pending && n.error == None && n.generation == m.generation + 1
  }

  /** The tables differ in one row at most, and the index versions are the same. */
  ghost predicate OnlyRow(db: Db, after: Db, id: nat) {
    && after.versions == db.versions && after.nextId == db.nextId
    && (forall k :: k in after.materials <==> k in db.materials)
    && forall k :: k in db.materials && k != id ==> after.materials[k] == db.materials[k]
  }

  /** A creation stores what was given, waiting to be parsed, and touches no other row. */
  lemma CreationStores(db: Db, content: Option<string>, fileType: Option<string>, storageKey: Option<string>)
    ensures var after, id := Create(db, content, fileType, storageKey), db.nextId;
            && id in after.materials && after.nextId == id + 1 && after.versions == db.versions
            && (forall k :: k in after.materials <==> k in db.materials || k == id)
            && (forall k :: k in db.materials && k != id ==> after.materials[k] == db.materials[k])
            && var n := after.materials[id];
               && n.status == Pending && n.generation == 1 && n.error == None
               && n.content == content && n.fileType == fileType && n.storageKey == storageKey
               && n.edit == (match content case None => "" case Some(text) => text) && n.passes == 0
               && n.legacy == [] && n.v2 == [] && n.index == LegacyV1
  {
  }

  lemma DeletionRemoves(db: Db, id: nat)
    ensures var after := Delete(db, id);
            && after.versions == db.versions && after.nextId == db.nextId
            && (forall k :: k in after.materials <==> k in db.materials && k != id)
            && forall k :: k in after.materials ==> after.materials[k] == db.materials[k]
  {
  }

  /** An edit with other content than stored queues the row with it; any other patch changes nothing. */
  lemma EditStores(db: Db, id: nat, patch: Option<string>)
    ensures OnlyRow(db, Edit(db, id, patch), id)
    ensures id in db.materials ==>
              var m, n := db.materials[id], Edit(db, id, patch).materials[id];
              if patch.Some? && m.content != patch
              then
                && Queued(m, n) && n.content == patch && n.edit == patch.value && n.passes == 0
                && n.fileType == m.fileType && n.storageKey == m.storageKey && SameChunks(m, n)
              else n == m
  {
  }

  /** A claim succeeds exactly on a waiting row, and hands out what the row holds. */
  lemma ClaimTakes(db: Db, id: nat)
    ensures OnlyRow(db, Claim(db, id).0, id)
    ensures Claim(db, id).1.Some? <==> id in db.materials && db.materials[id].status == Pending
    ensures Claim(db, id).1.None? ==> Claim(db, id).0 == db
    ensures Claim(db, id).1.Some? ==>
              var m, n, task := db.materials[id], Claim(db, id).0.materials[id], Claim(db, id).1.value;
              && n.status == Parsing && n.error == None && n.generation == m.generation && SameDocument(m, n)
              && task.material == id && task.generation == m.generation
              && task.payload.content == (match m.content case None => "" case Some(text) => text)
              && task.payload.fileType == (match m.fileType case None => "" case Some(text) => text)
              && task.payload.storageKey == (match m.storageKey case None => "" case Some(text) => text)
              && task.payload.edit == m.edit && task.payload.passes == m.passes
  {
  }

  /** A completion takes effect exactly on a row being parsed at that generation. */
  lemma CompletionSets(db: Db, id: nat, generation: nat, failure: Option<string>)
    ensures OnlyRow(db, Finish(db, id, generation, failure).0, id)
    ensures Finish(db, id, generation, failure).1 <==>
            id in db.materials && db.materials[id].status == Parsing && db.materials[id].generation == generation
    ensures !Finish(db, id, generation, failure).1 ==> Finish(db, id, generation, failure).0 == db
    ensures Finish(db, id, generation, failure).1 ==>
              var m, n := db.materials[id], Finish(db, id, generation, failure).0.materials[id];
              && n.status == (if failure.Some? then Failed else Done) && n.error == failure
              && n.generation == generation && SameDocument(m, n)
  {
  }

  /** A retry queues exactly a failed row. */
  lemma RetryQueuesTheFailed(db: Db, id: nat)
    ensures OnlyRow(db, RequeueFailed(db, id).0, id)
    ensures RequeueFailed(db, id).1 <==> id in db.materials && db.materials[id].status == Failed
    ensures !RequeueFailed(db, id).1 ==> RequeueFailed(db, id).0 == db
    ensures RequeueFailed(db, id).1 ==>
              var m, n := db.materials[id], RequeueFailed(db, id).0.materials[id];
              Queued(m, n) && SameDocument(m, n)
  {
  }

  /** Recovery queues exactly the rows that were being parsed. */
  lemma RecoveryQueuesTheParsing(db: Db)
    ensures var after := RequeueInterrupted(db);
            && after.versions == db.versions && after.nextId == db.nextId
            && (forall id :: id in after.materials <==> id in db.materials)
            && forall id :: id in db.materials ==>
                 var m, n := db.materials[id], after.materials[id];
                 if m.status == Parsing then Queued(m, n) && SameDocument(m, n) else n == m
  {
  }

  /** A persist commits exactly for a row being parsed at the task's generation, and stores the document. */
  lemma PersistStores(db: Db, task: Task, doc: Parsed)
    ensures var id := task.material;
            && (Persist(db, task, doc) == Missing <==> id !in db.materials)
            && (Persist(db, task, doc).Committed? <==>
                  id in db.materials && db.materials[id].status == Parsing &&
                  db.materials[id].generation == task.generation)
    ensures Persist(db, task, doc).Committed? ==>
              && OnlyRow(db, Persist(db, task, doc).db, task.material)
              && var m, n := db.materials[task.material], Persist(db, task, doc).db.materials[task.material];
                 && n.v2 == doc.chunks && n.content == Some(doc.markdown) && n.legacy == m.legacy
                 && n.passes == task.payload.passes + 1 && n.edit == m.edit
                 && n.fileType == m.fileType && n.storageKey == m.storageKey
                 && n.status == Parsing && n.generation == m.generation && n.error == m.error
                 && n.index == (if db.versions.v2 != Active && |m.legacy| > 0 then LegacyV1 else RagV2)
  {
  }

  // ---------------------------------------------------------------- operator scripts

  /** Some chunk is a body chunk. */
  ghost predicate SomeBody(chunks: seq<ChunkRecord>) {
    exists i :: 0 <= i < |chunks| && chunks[i].kind == Body
  }

  /** A script moves materials between the indexes and touches no other column of theirs. */
  ghost predicate OnlyIndex(m: Material, n: Material) {
    && n.status == m.status && n.generation == m.generation && n.error == m.error
    && n.content == m.content && n.fileType == m.fileType && n.storageKey == m.storageKey
    && n.edit == m.edit && n.passes == m.passes && n.legacy == m.legacy && n.v2 == m.v2
  }

  /** An activation goes through exactly for 10, 50 or 100 percent when every row is done with a rag-v2 body chunk. */
  lemma ActivationGuards(env: World, db: Db, percentage: nat, now: nat)
    ensures Activate(env, db, percentage, now).Some? <==>
            percentage in {10, 50, 100} &&
            forall id :: id in db.materials ==> db.materials[id].status == Done && SomeBody(db.materials[id].v2)
  {
    assert forall id :: id in db.materials ==>
             (ReadyForV2(db.materials[id]) <==> db.materials[id].status == Done && SomeBody(db.materials[id].v2));
  }

  /**
   * After an activation a row is on rag-v2 exactly if all are, its cohort is below the percentage, or it has no
   * legacy body chunk to fall back on.
   */
  lemma ActivationSets(env: World, db: Db, percentage: nat, now: nat)
    requires Activate(env, db, percentage, now).Some?
    ensures var after := Activate(env, db, percentage, now).value;
            && after.nextId == db.nextId && (forall id :: id in after.materials <==> id in db.materials)
            && (forall id :: id in db.materials ==>
                  var m, n := db.materials[id], after.materials[id];
                  && OnlyIndex(m, n)
                  && (n.index == RagV2 <==>
                        percentage == 100 || env.cohort(id) % 100 < percentage || !SomeBody(m.legacy)))
            && var v, w := db.versions, after.versions;
               if percentage == 100
               then
                 && w.v2 == Active && w.v2Since == Some(now) && w.legacySince == v.legacySince
                 && w.legacy == (if v.legacy == Active then Retired else v.legacy)
               else
                 && w.v2 == Building && w.v2Since == None && w.legacy == Active
                 && w.legacySince == (if v.legacySince == None then Some(now) else v.legacySince)
  {
    hide ReadyForV2;
    assert forall id :: id in db.materials ==>
             (HasBody(db.materials[id].legacy) <==> SomeBody(db.materials[id].legacy));
  }

  /** A rollback returns exactly the rows with legacy chunks and makes legacy the active index. */
  lemma RollbackSets(db: Db, now: nat)
    ensures Rollback(db, now).Some?
    ensures var after := Rollback(db, now).value;
            && after.nextId == db.nextId && (forall id :: id in after.materials <==> id in db.materials)
            && (forall id :: id in db.materials ==>
                  var m, n := db.materials[id], after.materials[id];
                  OnlyIndex(m, n) && n.index == if |m.legacy| > 0 then LegacyV1 else m.index)
            && after.versions == Versions(Active, Some(now), Building, None)
  {
  }

  /** Retirement goes through exactly when rag-v2 has been active for fourteen days, and deletes legacy chunks only. */
  lemma RetirementDeletes(db: Db, now: nat)
    ensures Retire(db, now).Some? <==>
            db.versions.v2 == Active && db.versions.v2Since.Some? &&
            db.versions.v2Since.value + 14 * 24 * 3600 <= now
    ensures Retire(db, now).Some? ==>
              var after := Retire(db, now).value;
              && after.nextId == db.nextId && (forall id :: id in after.materials <==> id in db.materials)
              && (forall id :: id in db.materials ==>
                    var m, n := db.materials[id], after.materials[id];
                    && n.legacy == [] && n.index == m.index && n.v2 == m.v2
                    && n.status == m.status && n.generation == m.generation && n.error == m.error
                    && n.content == m.content && n.fileType == m.fileType && n.storageKey == m.storageKey
                    && n.edit == m.edit && n.passes == m.passes)
              && after.versions.legacy == Retired && after.versions.legacySince == db.versions.legacySince
              && after.versions.v2 == db.versions.v2 && after.versions.v2Since == db.versions.v2Since
  {
  }

  /**
   * A reindex queues a row, under the next generation, if and only if no rag-v2 chunk of it is a body chunk,
   * and leaves every other row as it is. So each row that is still done has one.
   */
  lemma ReindexQueuesTheUnindexed(db: Db)
    ensures var after := Reindex(db);
            && after.nextId == db.nextId && (forall id :: id in after.materials <==> id in db.materials)
            && (forall id :: id in db.materials ==>
                  var m, n := db.materials[id], after.materials[id];
                  if forall i :: 0 <= i < |m.v2| ==> m.v2[i].kind != Body
                  then Queued(m, n) && SameDocument(m, n) else n == m)
            && (forall id :: id in after.materials && after.materials[id].status == Done ==>
                  SomeBody(after.materials[id].v2))
            && after.versions.legacy == db.versions.legacy && after.versions.legacySince == db.versions.legacySince
            && (if db.versions.v2 == Active then after.versions == db.versions
                else after.versions.v2 == Building && after.versions.v2Since == None)
  {
  }

  // ---------------------------------------------------------------- workers and attempts

  /** Nothing but this worker, the attempts and their counter differ. */
  ghost predicate OnlyWorker(s: System, t: System, w: nat) {
    && t.db == s.db && t.clock == s.clock && t.log == s.log && t.nextWorker == s.nextWorker
    && (forall v :: v in t.workers <==> v in s.workers)
    && forall v :: v in s.workers && v != w ==> t.workers[v] == s.workers[v]
  }

  /** A worker that is ready sends up to three requests, each of which starts an attempt at its task. */
  lemma RequestStartsAnAttempt(env: World, s: System, w: nat)
    ensures Apply(env, s, SendRequest(w)).Some? <==>
            w in s.workers && s.workers[w].phase == Ready && s.workers[w].tries < 3
    ensures Apply(env, s, SendRequest(w)).Some? ==>
              var t, a := Apply(env, s, SendRequest(w)).value, s.nextAttempt;
              && OnlyWorker(s, t, w) && t.nextAttempt == a + 1
              && t.workers[w] == Worker(s.workers[w].task, s.workers[w].tries + 1, Waiting(a))
              && t.attempts == s.attempts[a := Attempt(s.workers[w].task, Started)]
  {
  }

  /** After a failure the worker may try again, up to three times in all; then the task has failed. */
  ghost predicate TriesAgain(v: Worker, w: Worker) {
    w.task == v.task && w.tries == v.tries && w.phase == if v.tries < 3 then Ready else Verdict(false)
  }

  /** A lost request is a failure, whatever becomes of the attempt. */
  lemma LossIsAFailure(env: World, s: System, w: nat)
    ensures Apply(env, s, LoseRequest(w)).Some? <==> w in s.workers && s.workers[w].phase.Waiting?
    ensures Apply(env, s, LoseRequest(w)).Some? ==>
              var t := Apply(env, s, LoseRequest(w)).value;
              OnlyWorker(s, t, w) && t.attempts == s.attempts && TriesAgain(s.workers[w], t.workers[w])
  {
  }

  /** An answer is taken when its attempt has one; parsed and stale are successes, anything else is a failure. */
  lemma AnswersAreTaken(env: World, s: System, w: nat)
    ensures Apply(env, s, ReceiveAnswer(w)).Some? <==>
            && w in s.workers && s.workers[w].phase.Waiting?
            && var a := s.workers[w].phase.attempt; a in s.attempts && s.attempts[a].stage.Answered?
    ensures Apply(env, s, ReceiveAnswer(w)).Some? ==>
              var t, answer := Apply(env, s, ReceiveAnswer(w)).value, s.attempts[s.workers[w].phase.attempt].stage.answer;
              && OnlyWorker(s, t, w) && t.attempts == s.attempts
              && if answer == ParsedOk || answer == StaleOk
                 then t.workers[w] == Worker(s.workers[w].task, s.workers[w].tries, Verdict(true))
                 else TriesAgain(s.workers[w], t.workers[w])
  {
  }

  /** A worker is cancelled only while it backs off from a failure. */
  lemma CancellationFails(env: World, s: System, w: nat)
    ensures Apply(env, s, CancelWorker(w)).Some? <==>
            w in s.workers && s.workers[w].phase == Ready && s.workers[w].tries > 0
    ensures Apply(env, s, CancelWorker(w)).Some? ==>
              var t := Apply(env, s, CancelWorker(w)).value;
              && OnlyWorker(s, t, w) && t.attempts == s.attempts
              && t.workers[w] == Worker(s.workers[w].task, s.workers[w].tries, Verdict(false))
  {
  }

  /**
   * A worker with a verdict completes its task; it goes on to an alert exactly when it failed a task that it
   * still held, and is gone otherwise.
   */
  lemma VerdictsAreFinal(env: World, s: System, w: nat, message: string)
    ensures Apply(env, s, FinishTask(w, message)).Some? <==> w in s.workers && s.workers[w].phase.Verdict?
    ensures Apply(env, s, FinishTask(w, message)).Some? ==>
              var t, task, ok := Apply(env, s, FinishTask(w, message)).value, s.workers[w].task, s.workers[w].phase.ok;
              var held := task.material in s.db.materials && s.db.materials[task.material].status == Parsing &&
                          s.db.materials[task.material].generation == task.generation;
              && OnlyRow(s.db, t.db, task.material) && t.attempts == s.attempts
              && (!held ==> t.db == s.db && t.log == s.log)
              && (held ==>
                    && t.log == s.log + [DidFinish(task.material, task.generation, ok)]
                    && var m, n := s.db.materials[task.material], t.db.materials[task.material];
                       && SameDocument(m, n) && n.generation == m.generation
                       && n.status == (if ok then Done else Failed)
                       && n.error == (if ok then None else Some(message)))
              && (w in t.workers <==> held && !ok)
              && (w in t.workers ==> t.workers[w].task == task && t.workers[w].phase == Alerting)
              && (forall v :: v != w ==> (v in t.workers <==> v in s.workers))
              && forall v :: v in s.workers && v != w ==> t.workers[v] == s.workers[v]
  {
  }

  /** Nothing but the stage of this attempt differs. */
  ghost predicate OnlyStage(s: System, t: System, a: nat) {
    && t.db == s.db && t.clock == s.clock && t.log == s.log && t.workers == s.workers
    && t.nextWorker == s.nextWorker && t.nextAttempt == s.nextAttempt
    && (forall b :: b in t.attempts <==> b in s.attempts)
    && (forall b :: b in s.attempts && b != a ==> t.attempts[b] == s.attempts[b])
    && a in t.attempts && a in s.attempts && t.attempts[a].task == s.attempts[a].task
  }

  /** The Agent looks first whether the row is still being parsed at the generation of the request. */
  lemma EarlyCheck(env: World, s: System, a: nat)
    ensures Apply(env, s, CheckEarly(a)).Some? <==> a in s.attempts && s.attempts[a].stage == Started
    ensures Apply(env, s, CheckEarly(a)).Some? ==>
              var t, task := Apply(env, s, CheckEarly(a)).value, s.attempts[a].task;
              && OnlyStage(s, t, a)
              && t.attempts[a].stage ==
                 if task.material !in s.db.materials then Answered(Failure)
                 else if s.db.materials[task.material].status == Parsing &&
                         s.db.materials[task.material].generation == task.generation
                 then Stage.Checked else Answered(StaleOk)
  {
  }

  /** Parsing works on what the request carried; it fails when nothing can be read or the model services fail. */
  lemma ParsingReadsTheRequest(env: World, s: System, a: nat, extras: Option<Extras>)
    ensures Apply(env, s, Compute(a, extras)).Some? <==> a in s.attempts && s.attempts[a].stage == Stage.Checked
    ensures Apply(env, s, Compute(a, extras)).Some? ==>
              var t, p := Apply(env, s, Compute(a, extras)).value, s.attempts[a].task.payload;
              var text := ExtractText(env, p.fileType, p.content, p.storageKey);
              && OnlyStage(s, t, a)
              && (text == None || extras == None ==> t.attempts[a].stage == Answered(Failure))
              && (text.Some? && extras.Some? ==>
                    t.attempts[a].stage.Computed? && t.attempts[a].stage.doc.markdown == Clean(env, text.value))
  {
  }

  // ---------------------------------------------------------------- the other actions

  /** Only the tables differ. */
  ghost predicate OnlyTables(s: System, t: System) {
    && t.clock == s.clock && t.log == s.log && t.workers == s.workers && t.nextWorker == s.nextWorker
    && t.attempts == s.attempts && t.nextAttempt == s.nextAttempt
  }

  /** Users, recovery and scripts act on the tables alone; a script that raises changes nothing. */
  lemma TableActions(env: World, s: System, action: Action)
    requires action.CreateMaterial? || action.DeleteMaterial? || action.EditMaterial? || action.RetryMaterial? ||
             action.RecoverTasks? || action.ActivateV2? || action.RollbackV2? || action.RetireLegacy? || action.ReindexV2?
    ensures Apply(env, s, action).Some? && OnlyTables(s, Apply(env, s, action).value)
    ensures var db := Apply(env, s, action).value.db;
            match action
            case CreateMaterial(content, fileType, key) => db == Create(s.db, content, fileType, key)
            case DeleteMaterial(id) => db == Delete(s.db, id)
            case EditMaterial(id, patch) => db == Edit(s.db, id, patch)
            case RetryMaterial(id) => db == RequeueFailed(s.db, id).0
            case RecoverTasks => db == RequeueInterrupted(s.db)
            case ActivateV2(p) =>
              if Activate(env, s.db, p, s.clock).Some? then Activate(env, s.db, p, s.clock) == Some(db) else db == s.db
            case RollbackV2 => Rollback(s.db, s.clock) == Some(db)
            case RetireLegacy => if Retire(s.db, s.clock).Some? then Retire(s.db, s.clock) == Some(db) else db == s.db
            case ReindexV2 => db == Reindex(s.db)
            case _ => true
  {
    hide Create, Delete, Edit, RequeueFailed, RequeueInterrupted, Activate, Retire, Reindex;
    RollbackSets(s.db, s.clock);
  }

  /** A claim that succeeds starts a worker at its task, with no request sent, and is logged. */
  lemma ClaimsStartWorkers(env: World, s: System, id: nat)
    ensures Apply(env, s, ClaimTask(id)).Some?
    ensures var t, claimed := Apply(env, s, ClaimTask(id)).value, Claim(s.db, id).1;
            && t.db == Claim(s.db, id).0 && t.attempts == s.attempts && t.clock == s.clock
            && if claimed == None then t == s
               else
                 && t.workers == s.workers[s.nextWorker := Worker(claimed.value, 0, Ready)]
                 && t.nextWorker == s.nextWorker + 1
                 && t.log == s.log + [DidClaim(id, claimed.value.generation)]
  {
  }

  /** A process that dies takes its workers with it and nothing else; attempts at the Agent run on. */
  lemma ProcessesDie(env: World, s: System, lost: set<nat>)
    ensures Apply(env, s, ExitProcess(lost)).Some?
    ensures var t := Apply(env, s, ExitProcess(lost)).value;
            && t == s.(workers := t.workers) && (forall w :: w in t.workers <==> w in s.workers && w !in lost)
            && forall w :: w in t.workers ==> t.workers[w] == s.workers[w]
  {
  }

  /** An attempt that has not answered may be aborted, and has failed then; an alert ends its worker. */
  lemma AbortsAndAlerts(env: World, s: System, a: nat, w: nat)
    ensures Apply(env, s, AbortAttempt(a)).Some? <==> a in s.attempts && !s.attempts[a].stage.Answered?
    ensures Apply(env, s, AbortAttempt(a)).Some? ==>
              var t := Apply(env, s, AbortAttempt(a)).value;
              OnlyStage(s, t, a) && t.attempts[a].stage == Answered(Failure)
    ensures Apply(env, s, SendAlert(w)).Some? <==> w in s.workers && s.workers[w].phase == Alerting
    ensures Apply(env, s, SendAlert(w)).Some? ==>
              var t, task := Apply(env, s, SendAlert(w)).value, s.workers[w].task;
              && t == s.(workers := t.workers, log := s.log + [DidAlert(task.material, task.generation)])
              && (forall v :: v in t.workers <==> v in s.workers && v != w)
              && forall v :: v in t.workers ==> t.workers[v] == s.workers[v]
  {
  }

  lemma TimePasses(env: World, s: System, seconds: nat)
    ensures Apply(env, s, Tick(seconds)) == Some(s.(clock := s.clock + seconds))
  {
  }
}
