/** Runs from the upload to the index, and from any state to one in which rag-v2 can be activated. */
module ParseRollout {
  import opened Options
  import opened Text
  import opened Chunking
  import opened Documents
  import opened Materials
  import opened ParseProtocol
  import opened ParseSafety
  import opened ParseSteps
  import opened Effects
  import opened ParseProgress
  import opened ParseEdits

  // ---------------------------------------------------------------- from the upload to the index

  /** What an undisturbed parse of a queued row leaves in it. */
  ghost predicate Parsed(env: World, m: Material, n: Material, text: string) {
    && n.status == Done && n.error == None && n.content == Some(Clean(env, text))
    && SomeBody(n.v2) && BuiltFrom(env, n.v2, Clean(env, text))
    && n.edit == m.edit && n.fileType == m.fileType && n.storageKey == m.storageKey && n.legacy == m.legacy
    && n.generation == m.generation
  }

  lemma {:induction false} QueuedIsParsed(env: World, s: System, id: nat, text: string, x: Extras)
    requires id in s.db.materials && s.db.materials[id].status == Pending
    requires var m := s.db.materials[id];
             ExtractText(env, Deref(m.fileType), Deref(m.content), Deref(m.storageKey)) == Some(text)
    ensures var t := Run(env, s, Undisturbed(s, id, x));
            && t.Some? && OnlyRow(s.db, t.value.db, id)
            && Parsed(env, s.db.materials[id], t.value.db.materials[id], text)
  {
    hide Run, Undisturbed, BodyRecords, ExtractText, BuiltFrom;
    QueuedMaterialsCanFinish(env, s, id, text, x);
    StripIdempotent(env.scrub(text));
    ProcessedIsStorable(env.cfg, Clean(env, text), x.summary, x.questions, x.images);
    ProcessedIsBuilt(env, Clean(env, text), x);
  }

  /**
   * A created material is parsed to what its own text says: content and rag-v2 chunks are those of the text
   * the upload names, which for a text kind is the given content.
   */
  lemma {:induction false} CreationIsIndexed(env: World, s: System, content: Option<string>, fileType: Option<string>,
                                             key: Option<string>, text: string, x: Extras)
    requires ExtractText(env, Deref(fileType), Deref(content), Deref(key)) == Some(text)
    ensures var id := s.db.nextId;
            var created := Apply(env, s, CreateMaterial(content, fileType, key));
            && created.Some?
            && var t := Run(env, created.value, Undisturbed(created.value, id, x));
               && t.Some? && id in t.value.db.materials
               && var n := t.value.db.materials[id];
                  && n.status == Done && n.content == Some(Clean(env, text)) && n.edit == Deref(content)
                  && n.fileType == fileType && n.storageKey == key
                  && n.index == RagV2 && SomeBody(n.v2) && BuiltFrom(env, n.v2, Clean(env, text))
  {
    hide Run, Undisturbed, BodyRecords, ExtractText, BuiltFrom;
    var created := Apply(env, s, CreateMaterial(content, fileType, key)).value;
    CreationStores(s.db, content, fileType, key);
    QueuedIsParsed(env, created, s.db.nextId, text, x);
    QueuedMaterialsCanFinish(env, created, s.db.nextId, text, x);
  }

  /** For a text kind that is the content as it was given. */
  lemma {:induction false} UploadedTextIsIndexed(env: World, s: System, text: string, fileType: Option<string>,
                                                 key: Option<string>, x: Extras)
    requires ReadsTheRow(Deref(fileType), text, Deref(key))
    ensures var id := s.db.nextId;
            var created := Apply(env, s, CreateMaterial(Some(text), fileType, key)).value;
            var t := Run(env, created, Undisturbed(created, id, x));
            && t.Some? && id in t.value.db.materials
            && var n := t.value.db.materials[id];
               && n.status == Done && n.content == Some(Clean(env, text)) && n.edit == text
               && SomeBody(n.v2) && BuiltFrom(env, n.v2, Clean(env, text))
  {
    hide Run, Undisturbed, BuiltFrom;
    CreationIsIndexed(env, s, Some(text), fileType, key, text, x);
  }

  // ---------------------------------------------------------------- from any state to an activation

  /** Whether a parse of the row as it stands has something to read. */
  predicate Readable(env: World, m: Material) {
    ExtractText(env, Deref(m.fileType), Deref(m.content), Deref(m.storageKey)).Some?
  }

  /** What the guard of an activation asks of a row. */
  ghost predicate Ready(m: Material) {
    m.status == Done && SomeBody(m.v2)
  }

  /** The rows in todo wait to be parsed and can be, all others are ready. */
  ghost predicate Waiting(env: World, db: Db, todo: set<nat>) {
    && (forall id :: id in todo ==> id in db.materials)
    && forall id :: id in db.materials ==>
         if id in todo then db.materials[id].status == Pending && Readable(env, db.materials[id])
         else Ready(db.materials[id])
  }

  /** One parse after the other makes every waiting row ready. */
  lemma {:induction false} ParseAll(env: World, s: System, todo: set<nat>, x: Extras) returns (actions: seq<Action>)
    requires Waiting(env, s.db, todo)
    ensures Run(env, s, actions).Some? && Run(env, s, actions).value.db.versions == s.db.versions
    ensures forall id :: id in Run(env, s, actions).value.db.materials <==> id in s.db.materials
    ensures Waiting(env, Run(env, s, actions).value.db, {})
    decreases |todo|
  {
    if todo == {} {
      actions := [];
    } else {
      hide Run, Undisturbed, BuiltFrom, ExtractText, SomeBody;
      var id :| id in todo;
      var m := s.db.materials[id];
      var text := ExtractText(env, Deref(m.fileType), Deref(m.content), Deref(m.storageKey)).value;
      var first := Undisturbed(s, id, x);
      QueuedIsParsed(env, s, id, text, x);
      var t := Run(env, s, first).value;
      var rest := ParseAll(env, t, todo - {id}, x);
      RunAppend(env, s, first, rest);
      actions := first + rest;
    }
  }

  /** The rows in todo have failed, all others wait or are ready. */
  ghost predicate Failing(env: World, db: Db, todo: set<nat>) {
    && (forall id :: id in todo ==> id in db.materials)
    && forall id :: id in db.materials ==>
         var m := db.materials[id];
         && Readable(env, m)
         && if id in todo then m.status == Failed else m.status == Pending || Ready(m)
  }

  lemma {:induction false} OneRetry(env: World, s: System, id: nat, todo: set<nat>)
    requires Failing(env, s.db, todo) && id in todo
    ensures Apply(env, s, RetryMaterial(id)).Some?
    ensures var after := Apply(env, s, RetryMaterial(id)).value.db;
            && Failing(env, after, todo - {id}) && after.versions == s.db.versions
            && forall k :: k in after.materials <==> k in s.db.materials
  {
    hide ExtractText, SomeBody, RequeueFailed;
    RetryQueuesTheFailed(s.db, id);
  }

  /** One retry after the other queues every failed row. */
  lemma {:induction false} RetryAll(env: World, s: System, todo: set<nat>) returns (actions: seq<Action>)
    requires Failing(env, s.db, todo)
    ensures Run(env, s, actions).Some? && Run(env, s, actions).value.db.versions == s.db.versions
    ensures forall id :: id in Run(env, s, actions).value.db.materials <==> id in s.db.materials
    ensures Failing(env, Run(env, s, actions).value.db, {})
    decreases |todo|
  {
    if todo == {} {
      actions := [];
    } else {
      hide Run, Failing, Apply;
      var id :| id in todo;
      OneRetry(env, s, id, todo);
      var rest := RetryAll(env, Apply(env, s, RetryMaterial(id)).value, todo - {id});
      RunOne(env, s, RetryMaterial(id));
      RunAppend(env, s, [RetryMaterial(id)], rest);
      actions := [RetryMaterial(id)] + rest;
    }
  }

  function WithStatus(db: Db, status: Status): set<nat> {
    set id | id in db.materials && db.materials[id].status == status
  }

  /** No row is being parsed, and every row can be read. */
  ghost predicate Rested(env: World, db: Db) {
    forall id :: id in db.materials ==> db.materials[id].status != Parsing && Readable(env, db.materials[id])
  }

  lemma {:induction false} RecoveredRest(env: World, db: Db)
    requires forall id :: id in db.materials ==> Readable(env, db.materials[id])
    ensures Rested(env, RequeueInterrupted(db))
    ensures forall id :: id in RequeueInterrupted(db).materials <==> id in db.materials
  {
    hide RequeueInterrupted, ExtractText;
    RecoveryQueuesTheParsing(db);
  }

  lemma {:induction false} ReindexedRows(env: World, db: Db)
    requires Rested(env, db)
    ensures Failing(env, Reindex(db), WithStatus(Reindex(db), Failed))
    ensures forall id :: id in Reindex(db).materials <==> id in db.materials
  {
    hide Reindex, ExtractText;
    ReindexQueuesTheUnindexed(db);
  }

  lemma {:induction false} RestartedRows(env: World, db: Db)
    requires forall id :: id in db.materials ==> Readable(env, db.materials[id])
    ensures var after := Reindex(RequeueInterrupted(db));
            && (forall id :: id in after.materials <==> id in db.materials)
            && Failing(env, after, WithStatus(after, Failed))
  {
    hide RequeueInterrupted, Reindex, Readable, Rested, Failing, WithStatus;
    RecoveredRest(env, db);
    ReindexedRows(env, RequeueInterrupted(db));
  }

  lemma {:induction false} AllParsedOrWaiting(env: World, db: Db)
    requires Failing(env, db, {})
    ensures Waiting(env, db, WithStatus(db, Pending))
  {
    hide ExtractText, SomeBody;
  }

  lemma {:induction false} AllReady(env: World, db: Db, percentage: nat, now: nat)
    requires Waiting(env, db, {}) && percentage in {10, 50, 100}
    ensures Activate(env, db, percentage, now).Some?
  {
    hide Activate, SomeBody;
    ActivationGuards(env, db, percentage, now);
  }

  /** The Backend restarts and the operator reindexes. */
  function RestartAndReindex(s: System): seq<Action> {
    [ExitProcess(s.workers.Keys)] + [RecoverTasks] + [ReindexV2]
  }

  lemma {:induction false} RestartAndReindexRuns(env: World, s: System)
    ensures var t := Run(env, s, RestartAndReindex(s));
            t.Some? && t.value.workers == map[] && t.value.db == Reindex(RequeueInterrupted(s.db))
  {
    hide Run, RequeueInterrupted, Reindex;
    var stopped := Apply(env, s, ExitProcess(s.workers.Keys)).value;
    var recovered := Apply(env, stopped, RecoverTasks).value;
    RunOne(env, s, ExitProcess(s.workers.Keys));
    RunOne(env, stopped, RecoverTasks);
    RunOne(env, recovered, ReindexV2);
    RunAppend(env, s, [ExitProcess(s.workers.Keys)], [RecoverTasks]);
    RunAppend(env, s, [ExitProcess(s.workers.Keys)] + [RecoverTasks], [ReindexV2]);
  }

  /**
   * The rollout can always start: from every state whose rows can be read, a restart, a reindex, retries of
   * the failed rows and parses lead to one in which an activation goes through at any of its percentages.
   */
  lemma {:induction false} RolloutCanStart(env: World, s: System, x: Extras) returns (actions: seq<Action>)
    requires forall id :: id in s.db.materials ==> Readable(env, s.db.materials[id])
    ensures Run(env, s, actions).Some?
    ensures var t := Run(env, s, actions).value;
            && (forall id :: id in t.db.materials <==> id in s.db.materials)
            && forall p :: p in {10, 50, 100} ==> Activate(env, t.db, p, t.clock).Some?
  {
    hide Run, Readable, Activate, Failing, Waiting, RequeueInterrupted, Reindex, RestartAndReindex;
    RestartAndReindexRuns(env, s);
    RestartedRows(env, s.db);
    var t := Run(env, s, RestartAndReindex(s)).value;
    var second := RetryAll(env, t, WithStatus(t.db, Failed));
    var u := Run(env, t, second).value;
    AllParsedOrWaiting(env, u.db);
    var third := ParseAll(env, u, WithStatus(u.db, Pending), x);
    var v := Run(env, u, third).value;
    RunAppend(env, s, RestartAndReindex(s), second);
    RunAppend(env, s, RestartAndReindex(s) + second, third);
    actions := RestartAndReindex(s) + second + third;
    forall p | p in {10, 50, 100} ensures Activate(env, v.db, p, v.clock).Some? {
      AllReady(env, v.db, p, v.clock);
    }
  }
}
