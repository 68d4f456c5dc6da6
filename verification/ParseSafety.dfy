/** The inductive invariant of the parse protocol and its rollout scripts. */
module ParseSafety {
  import opened Options
  import opened Text
  import opened Chunking
  import opened ChunkingProofs
  import opened Documents
  import opened Materials
  import opened ParseProtocol

  // ---------------------------------------------------------------- rows

  ghost predicate OnlyBodies(chunks: seq<ChunkRecord>) {
    forall i :: 0 <= i < |chunks| ==> chunks[i].kind == Body
  }

  /** The body chunks are those that chunking the text yields; only other signals come after them. */
  ghost predicate BuiltFrom(env: World, chunks: seq<ChunkRecord>, text: string) {
    var bodies := BodyRecords(env.cfg, text);
    && |bodies| <= |chunks| && chunks[..|bodies|] == bodies
    && forall i :: |bodies| <= i < |chunks| ==> chunks[i].kind != Body
  }

  /** The rag-v2 chunks were built from the stored content, after at least one parse of the latest edit. */
  ghost predicate Indexed(env: World, m: Material) {
    m.passes >= 1 && m.content.Some? && HasBody(m.v2) && BuiltFrom(env, m.v2, m.content.value)
  }

  /** The stored content is what the given number of parses makes of the latest edit. */
  ghost predicate FromEdit(env: World, m: Material) {
    ParseTimes(env, Deref(m.fileType), Deref(m.storageKey), m.passes, m.edit) == Some(Deref(m.content))
  }

  ghost predicate RowSound(env: World, v2Active: bool, m: Material) {
    && OnlyBodies(m.legacy)
    && (m.v2 != [] ==> HasBody(m.v2))
    && (m.index == RagV2 ==> HasBody(m.v2))
    && (v2Active && m.index == LegacyV1 ==> m.legacy == [])
    && (m.error.Some? <==> m.status == Failed)
    && FromEdit(env, m)
  }

  ghost predicate OneActive(versions: Versions) {
    (versions.legacy == Active) != (versions.v2 == Active)
  }

  ghost predicate DbSound(env: World, db: Db) {
    && OneActive(db.versions) && db.versions.legacy != Building
    && forall id :: id in db.materials ==>
         id < db.nextId && RowSound(env, db.versions.v2 == Active, db.materials[id])
  }

  function Rank(status: Status): nat {
    match status case Pending => 0 case Parsing => 1 case Done => 2 case Failed => 2
  }

  ghost predicate SameText(m: Material, n: Material) {
    n.content == m.content && n.passes == m.passes && n.v2 == m.v2
  }

  ghost predicate SameSource(m: Material, n: Material) {
    n.edit == m.edit && n.fileType == m.fileType && n.storageKey == m.storageKey
  }

  /**
   * How one step may change a row: a new generation exactly on an entry into the queue, within a
   * generation only forward, and text and chunks only to a consistent pair. What was served stays served.
   */
  ghost predicate RowEvolves(env: World, m: Material, n: Material) {
    && m.generation <= n.generation <= m.generation + 1
    && (n.generation > m.generation ==> n.status == Pending)
    && (n.generation == m.generation ==>
          && Rank(m.status) <= Rank(n.status) && (Rank(m.status) == 2 ==> n.status == m.status)
          && SameSource(m, n)
          && (SameText(m, n) || Indexed(env, n)))
    && (Served(m) ==> Served(n))
  }

  ghost predicate Evolves(env: World, db: Db, after: Db) {
    && db.nextId <= after.nextId
    && forall id :: id in after.materials ==>
         if id in db.materials then RowEvolves(env, db.materials[id], after.materials[id])
         else db.nextId <= id
  }

  /** No row becomes done, and done rows keep their generation and rag-v2 chunks. */
  ghost predicate NoNewDone(db: Db, after: Db) {
    forall id :: id in after.materials && after.materials[id].status == Done ==>
      && id in db.materials && db.materials[id].status == Done
      && after.materials[id].generation == db.materials[id].generation
      && after.materials[id].v2 == db.materials[id].v2
  }

  // ---------------------------------------------------------------- generations

  /** The generation was claimed: it is no longer waiting in the queue, and never will be again. */
  ghost predicate Past(db: Db, id: nat, g: nat) {
    && id < db.nextId
    && (id in db.materials ==>
          && g <= db.materials[id].generation
          && (g == db.materials[id].generation ==> db.materials[id].status != Pending))
  }

  /** The generation is over: nobody can persist or finish it any more. */
  ghost predicate Closed(db: Db, id: nat, g: nat) {
    Past(db, id, g) && !Holds(db, id, g)
  }

  lemma PastStays(env: World, db: Db, after: Db, id: nat, g: nat)
    requires Evolves(env, db, after) && Past(db, id, g)
    ensures Past(after, id, g)
  {
    if id in after.materials {
      assert id in db.materials;
      assert RowEvolves(env, db.materials[id], after.materials[id]);
    }
  }

  lemma ClosedStays(env: World, db: Db, after: Db, id: nat, g: nat)
    requires Evolves(env, db, after) && Closed(db, id, g)
    ensures Closed(after, id, g)
  {
    PastStays(env, db, after, id, g);
    if id in after.materials {
      assert RowEvolves(env, db.materials[id], after.materials[id]);
    }
  }

  // ---------------------------------------------------------------- tasks, events, workers, attempts

  /** The payload is what the row held at the claim, as long as the generation lasts. */
  ghost predicate TaskSound(env: World, db: Db, task: Task) {
    var p := task.payload;
    && Past(db, task.material, task.generation)
    && ParseTimes(env, p.fileType, p.storageKey, p.passes, p.edit) == Some(p.content)
    && (task.material in db.materials && db.materials[task.material].generation == task.generation ==>
          var m := db.materials[task.material];
          p.edit == m.edit && p.fileType == Deref(m.fileType) && p.storageKey == Deref(m.storageKey))
  }

  lemma TaskStays(env: World, db: Db, after: Db, task: Task)
    requires Evolves(env, db, after) && TaskSound(env, db, task)
    ensures TaskSound(env, after, task)
  {
    PastStays(env, db, after, task.material, task.generation);
    if task.material in after.materials {
      assert RowEvolves(env, db.materials[task.material], after.materials[task.material]);
    }
  }

  ghost predicate PersistHolds(env: World, db: Db, id: nat, g: nat) {
    && Past(db, id, g)
    && (id in db.materials ==>
          && Served(db.materials[id])
          && (db.materials[id].generation == g ==> Indexed(env, db.materials[id])))
  }

  lemma PersistStays(env: World, db: Db, after: Db, id: nat, g: nat)
    requires Evolves(env, db, after) && PersistHolds(env, db, id, g)
    ensures PersistHolds(env, after, id, g)
  {
    PastStays(env, db, after, id, g);
    if id in after.materials {
      assert RowEvolves(env, db.materials[id], after.materials[id]);
    }
  }

  ghost predicate EventHolds(env: World, db: Db, log: seq<Event>, e: Event) {
    match e
    case DidClaim(id, g) => Past(db, id, g)
    case DidPersist(id, g) => PersistHolds(env, db, id, g)
    case DidFinish(id, g, ok) => Closed(db, id, g) && (ok ==> DidPersist(id, g) in log)
    case DidAlert(id, g) => DidFinish(id, g, false) in log
  }

  ghost predicate SameOccasion(e: Event, f: Event) {
    match e
    case DidClaim(_, _) => f == e
    case DidPersist(_, _) => false
    case DidFinish(id, g, _) => f.DidFinish? && f.material == id && f.generation == g
    case DidAlert(_, _) => f == e
  }

  /** Each generation is claimed, finished and alerted about at most once. */
  ghost predicate AtMostOnce(log: seq<Event>) {
    forall i, j :: 0 <= i < j < |log| ==> !SameOccasion(log[i], log[j])
  }

  ghost predicate LogSound(env: World, db: Db, log: seq<Event>) {
    AtMostOnce(log) && forall i :: 0 <= i < |log| ==> EventHolds(env, db, log, log[i])
  }

  /** A done row is served, and its generation was persisted unless it dates from before the migration. */
  ghost predicate DoneJustified(db: Db, log: seq<Event>) {
    forall id :: id in db.materials && db.materials[id].status == Done ==>
      && Served(db.materials[id])
      && (DidPersist(id, db.materials[id].generation) in log || db.materials[id].v2 == [])
  }

  ghost predicate WorkerSound(env: World, db: Db, log: seq<Event>, attempts: map<nat, Attempt>, worker: Worker) {
    var id, g := worker.task.material, worker.task.generation;
    && TaskSound(env, db, worker.task)
    && match worker.phase
       case Ready => true
       case Waiting(a) => a in attempts && attempts[a].task == worker.task
       case Verdict(ok) => ok ==> DidPersist(id, g) in log || Closed(db, id, g)
       case Alerting => DidFinish(id, g, false) in log && DidAlert(id, g) !in log
  }

  /** The document is one that the pipeline makes of the payload. */
  ghost predicate ResultOf(env: World, p: Payload, doc: Parsed) {
    && Storable(doc)
    && (match ExtractText(env, p.fileType, p.content, p.storageKey)
        case None => false
        case Some(text) => doc.markdown == Clean(env, text))
    && BuiltFrom(env, doc.chunks, doc.markdown)
  }

  ghost predicate AttemptSound(env: World, db: Db, log: seq<Event>, attempt: Attempt) {
    var id, g := attempt.task.material, attempt.task.generation;
    && TaskSound(env, db, attempt.task)
    && match attempt.stage
       case Started => true
       case Checked => true
       case Computed(doc) => ResultOf(env, attempt.task.payload, doc)
       case Answered(ParsedOk) => DidPersist(id, g) in log
       case Answered(StaleOk) => Closed(db, id, g)
       case Answered(Failure) => true
  }

  ghost predicate SameGeneration(t: Task, u: Task) {
    t.material == u.material && t.generation == u.generation
  }

  ghost predicate WorkersSound(env: World, s: System) {
    && (forall w :: w in s.workers ==>
          w < s.nextWorker && WorkerSound(env, s.db, s.log, s.attempts, s.workers[w]))
    && (forall v, w :: v in s.workers && w in s.workers && v != w ==>
          !SameGeneration(s.workers[v].task, s.workers[w].task))
  }

  ghost predicate AttemptsSound(env: World, s: System) {
    forall a :: a in s.attempts ==> a < s.nextAttempt && AttemptSound(env, s.db, s.log, s.attempts[a])
  }

  /** The invariant. */
  ghost predicate Inv(env: World, s: System) {
    && DbSound(env, s.db)
    && LogSound(env, s.db, s.log)
    && DoneJustified(s.db, s.log)
    && WorkersSound(env, s)
    && AttemptsSound(env, s)
  }

  lemma EventKnown(env: World, db: Db, log: seq<Event>, i: nat)
    requires LogSound(env, db, log) && i < |log|
    ensures EventHolds(env, db, log, log[i])
  {
  }

  lemma WorkerKnown(env: World, s: System, w: nat)
    requires WorkersSound(env, s) && w in s.workers
    ensures WorkerSound(env, s.db, s.log, s.attempts, s.workers[w])
  {
  }

  lemma AttemptKnown(env: World, s: System, a: nat)
    requires AttemptsSound(env, s) && a in s.attempts
    ensures AttemptSound(env, s.db, s.log, s.attempts[a])
  {
  }

  // ---------------------------------------------------------------- carrying the invariant over a change

  lemma EventStays(env: World, db: Db, after: Db, log: seq<Event>, e: Event)
    requires Evolves(env, db, after) && EventHolds(env, db, log, e)
    ensures EventHolds(env, after, log, e)
  {
    match e
    case DidClaim(id, g) => PastStays(env, db, after, id, g);
    case DidPersist(id, g) => PersistStays(env, db, after, id, g);
    case DidFinish(id, g, _) => ClosedStays(env, db, after, id, g);
    case DidAlert(_, _) =>
  }

  lemma WorkerStays(env: World, db: Db, after: Db, log: seq<Event>, attempts: map<nat, Attempt>, worker: Worker)
    requires Evolves(env, db, after) && WorkerSound(env, db, log, attempts, worker)
    ensures WorkerSound(env, after, log, attempts, worker)
  {
    TaskStays(env, db, after, worker.task);
    var id, g := worker.task.material, worker.task.generation;
    if Closed(db, id, g) {
      ClosedStays(env, db, after, id, g);
    }
  }

  lemma AttemptStays(env: World, db: Db, after: Db, log: seq<Event>, attempt: Attempt)
    requires Evolves(env, db, after) && AttemptSound(env, db, log, attempt)
    ensures AttemptSound(env, after, log, attempt)
  {
    TaskStays(env, db, after, attempt.task);
    var id, g := attempt.task.material, attempt.task.generation;
    if Closed(db, id, g) {
      ClosedStays(env, db, after, id, g);
    }
  }

  /** A sound change of the tables keeps everything known about the log, the workers and the attempts. */
  lemma DbChangeKeeps(env: World, s: System, after: Db)
    requires Inv(env, s) && DbSound(env, after) && Evolves(env, s.db, after) && DoneJustified(after, s.log)
    ensures Inv(env, WithDb(s, after))
  {
    forall i | 0 <= i < |s.log| ensures EventHolds(env, after, s.log, s.log[i]) {
      EventStays(env, s.db, after, s.log, s.log[i]);
    }
    forall w | w in s.workers ensures WorkerSound(env, after, s.log, s.attempts, s.workers[w]) {
      WorkerStays(env, s.db, after, s.log, s.attempts, s.workers[w]);
    }
    forall a | a in s.attempts ensures AttemptSound(env, after, s.log, s.attempts[a]) {
      AttemptStays(env, s.db, after, s.log, s.attempts[a]);
    }
  }

  lemma QuietChangeKeeps(env: World, s: System, after: Db)
    requires Inv(env, s) && DbSound(env, after) && Evolves(env, s.db, after) && NoNewDone(s.db, after)
    ensures Inv(env, WithDb(s, after))
  {
    forall id | id in after.materials && after.materials[id].status == Done
      ensures Served(after.materials[id])
      ensures DidPersist(id, after.materials[id].generation) in s.log || after.materials[id].v2 == []
    {
      assert RowEvolves(env, s.db.materials[id], after.materials[id]);
    }
    DbChangeKeeps(env, s, after);
  }

  /** Appending an event that holds and did not happen before keeps the log sound. */
  lemma AppendKeeps(env: World, s: System, e: Event)
    requires Inv(env, s) && EventHolds(env, s.db, s.log, e)
    requires forall i :: 0 <= i < |s.log| ==> !SameOccasion(s.log[i], e)
    requires e.DidAlert? ==> forall w :: w in s.workers && s.workers[w].phase.Alerting? ==>
               s.workers[w].task.material != e.material || s.workers[w].task.generation != e.generation
    ensures Inv(env, s.(log := s.log + [e]))
  {
    var log := s.log + [e];
    forall i | 0 <= i < |log| ensures EventHolds(env, s.db, log, log[i]) {
      assert i < |s.log| ==> EventHolds(env, s.db, s.log, s.log[i]);
    }
    forall w | w in s.workers ensures WorkerSound(env, s.db, log, s.attempts, s.workers[w]) {
      assert WorkerSound(env, s.db, s.log, s.attempts, s.workers[w]);
    }
    forall a | a in s.attempts ensures AttemptSound(env, s.db, log, s.attempts[a]) {
      assert AttemptSound(env, s.db, s.log, s.attempts[a]);
    }
  }

  lemma SetWorkerKeeps(env: World, s: System, w: nat, worker: Worker)
    requires Inv(env, s) && w in s.workers && worker.task == s.workers[w].task
    requires WorkerSound(env, s.db, s.log, s.attempts, worker)
    ensures Inv(env, SetWorker(s, w, worker))
  {
  }

  lemma RemoveWorkersKeeps(env: World, s: System, lost: set<nat>)
    requires Inv(env, s)
    ensures Inv(env, s.(workers := s.workers - lost))
  {
  }

  lemma SetStageKeeps(env: World, s: System, a: nat, stage: Stage)
    requires Inv(env, s) && a in s.attempts
    requires AttemptSound(env, s.db, s.log, s.attempts[a].(stage := stage))
    ensures Inv(env, SetStage(s, a, stage))
  {
    var t := SetStage(s, a, stage);
    forall w | w in t.workers ensures WorkerSound(env, t.db, t.log, t.attempts, t.workers[w]) {
      assert WorkerSound(env, s.db, s.log, s.attempts, s.workers[w]);
    }
  }
}
