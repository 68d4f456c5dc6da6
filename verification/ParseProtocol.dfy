/**
 * The parse protocol as a labelled transition system: the tables, Backend workers, Agent attempts that
 * may outlive the worker waiting for them, and a clock. Every action is one atomic step.
 */
module ParseProtocol {
  import opened Options
  import opened Chunking
  import opened Documents
  import opened Materials

  const MAX_ATTEMPTS: nat := 3

  /** How the Agent answers a parse request; the first two are HTTP 200. */
  datatype Answer = ParsedOk | StaleOk | Failure

  datatype Stage = Started | Checked | Computed(doc: Parsed) | Answered(answer: Answer)

  datatype Attempt = Attempt(task: Task, stage: Stage)

  datatype Phase =
    | Ready                   // between two requests to the Agent
    | Waiting(attempt: nat)   // a request is out
    | Verdict(ok: bool)       // parseWithRetry has returned
    | Alerting                // the task was finished as failed, the alert is still to be sent

  datatype Worker = Worker(task: Task, tries: nat, phase: Phase)

  /** What the run has committed or sent so far, in order. */
  datatype Event =
    | DidClaim(material: nat, generation: nat)
    | DidPersist(material: nat, generation: nat)
    | DidFinish(material: nat, generation: nat, ok: bool)
    | DidAlert(material: nat, generation: nat)

  datatype System = System(
    db: Db, clock: nat,
    workers: map<nat, Worker>, nextWorker: nat,
    attempts: map<nat, Attempt>, nextAttempt: nat,
    log: seq<Event>)

  /** Metadata and images supplied by the model services and the extraction of one document. */
  datatype Extras = Extras(summary: string, questions: seq<string>, images: seq<Picture>)

  datatype Action =
    | CreateMaterial(content: Option<string>, fileType: Option<string>, storageKey: Option<string>)
    | DeleteMaterial(material: nat)
    | EditMaterial(material: nat, patch: Option<string>)
    | RetryMaterial(material: nat)
    | RecoverTasks
    | ClaimTask(material: nat)
    | SendRequest(worker: nat)
    | LoseRequest(worker: nat)              // client timeout or transport error; the attempt runs on
    | CancelWorker(worker: nat)
    | ReceiveAnswer(worker: nat)
    | FinishTask(worker: nat, message: string)
    | SendAlert(worker: nat)
    | ExitProcess(lost: set<nat>)           // workers that die with a Backend process
    | CheckEarly(attempt: nat)
    | Compute(attempt: nat, extras: Option<Extras>)
    | PersistResult(attempt: nat)
    | AbortAttempt(attempt: nat)            // a database error, or the Agent process dies
    | ActivateV2(percentage: nat)
    | RollbackV2
    | RetireLegacy
    | ReindexV2
    | Tick(seconds: nat)

  function WithDb(s: System, db: Db): System {
    s.(db := db)
  }

  function OrElse(attempted: Option<Db>, db: Db): Db {
    match attempted case None => db case Some(changed) => changed
  }

  // ---------------------------------------------------------------- Backend workers

  function ClaimStep(s: System, id: nat): System {
    var (db, task) := Claim(s.db, id);
    match task
    case None => s
    case Some(t) =>
      s.(db := db,
         workers := s.workers[s.nextWorker := Worker(t, 0, Ready)], nextWorker := s.nextWorker + 1,
         log := s.log + [DidClaim(t.material, t.generation)])
  }

  function SetWorker(s: System, w: nat, worker: Worker): System {
    s.(workers := s.workers[w := worker])
  }

  predicate InPhase(s: System, w: nat, waiting: bool) {
    w in s.workers && (if waiting then s.workers[w].phase.Waiting? else s.workers[w].phase.Ready?)
  }

  function SendStep(s: System, w: nat): Option<System> {
    if !InPhase(s, w, false) || s.workers[w].tries >= MAX_ATTEMPTS then None
    else
      var worker := s.workers[w];
      Some(s.(workers := s.workers[w := worker.(tries := worker.tries + 1, phase := Waiting(s.nextAttempt))],
              attempts := s.attempts[s.nextAttempt := Attempt(worker.task, Started)],
              nextAttempt := s.nextAttempt + 1))
  }

  /** After a failed request: back off and try again, or give up after the last try. */
  function AfterFailure(worker: Worker): Worker {
    worker.(phase := if worker.tries >= MAX_ATTEMPTS then Verdict(false) else Ready)
  }

  function LoseStep(s: System, w: nat): Option<System> {
    if !InPhase(s, w, true) then None else Some(SetWorker(s, w, AfterFailure(s.workers[w])))
  }

  function CancelStep(s: System, w: nat): Option<System> {
    if !InPhase(s, w, false) || s.workers[w].tries == 0 then None
    else Some(SetWorker(s, w, s.workers[w].(phase := Verdict(false))))
  }

  /** The Backend looks at the HTTP status only: a stale answer counts as success. */
  function ReceiveStep(s: System, w: nat): Option<System> {
    if !InPhase(s, w, true) then None
    else
      var worker := s.workers[w];
      var a := worker.phase.attempt;
      if a !in s.attempts || !s.attempts[a].stage.Answered? then None
      else Some(SetWorker(s, w, if s.attempts[a].stage.answer == Failure then AfterFailure(worker)
                                else worker.(phase := Verdict(true))))
  }

  /** Conditional completion; only an effective failure goes on to the alert. */
  function FinishStep(s: System, w: nat, message: string): Option<System> {
    if w !in s.workers || !s.workers[w].phase.Verdict? then None
    else
      var worker := s.workers[w];
      var task, ok := worker.task, worker.phase.ok;
      var (db, finished) := Finish(s.db, task.material, task.generation, if ok then None else Some(message));
      var rest := if finished && !ok then s.workers[w := worker.(phase := Alerting)] else s.workers - {w};
      Some(s.(db := db, workers := rest,
              log := if finished then s.log + [DidFinish(task.material, task.generation, ok)] else s.log))
  }

  function AlertStep(s: System, w: nat): Option<System> {
    if w !in s.workers || !s.workers[w].phase.Alerting? then None
    else
      var task := s.workers[w].task;
      Some(s.(workers := s.workers - {w}, log := s.log + [DidAlert(task.material, task.generation)]))
  }

  // ---------------------------------------------------------------- Agent attempts

  function SetStage(s: System, a: nat, stage: Stage): System
    requires a in s.attempts
  {
    s.(attempts := s.attempts[a := s.attempts[a].(stage := stage)])
  }

  function CheckStep(s: System, a: nat): Option<System> {
    if a !in s.attempts || !s.attempts[a].stage.Started? then None
    else
      var task := s.attempts[a].task;
      Some(SetStage(s, a, if task.material !in s.db.materials then Answered(Failure)
                          else if Holds(s.db, task.material, task.generation) then Stage.Checked
                          else Answered(StaleOk)))
  }

  function ComputeStep(env: World, s: System, a: nat, extras: Option<Extras>): Option<System> {
    if a !in s.attempts || !s.attempts[a].stage.Checked? then None
    else
      var p := s.attempts[a].task.payload;
      match ExtractText(env, p.fileType, p.content, p.storageKey)
      case None => Some(SetStage(s, a, Answered(Failure)))
      case Some(text) =>
        match extras
        case None => Some(SetStage(s, a, Answered(Failure)))
        case Some(x) =>
          Some(SetStage(s, a, Computed(Process(env.cfg, Clean(env, text), x.summary, x.questions, x.images))))
  }

  function PersistStep(s: System, a: nat): Option<System> {
    if a !in s.attempts || !s.attempts[a].stage.Computed? then None
    else
      var task, doc := s.attempts[a].task, s.attempts[a].stage.doc;
      match Persist(s.db, task, doc)
      case Missing => Some(SetStage(s, a, Answered(Failure)))
      case Stale => Some(SetStage(s, a, Answered(StaleOk)))
      case Committed(db) =>
        Some(SetStage(s, a, Answered(ParsedOk)).(
               db := db, log := s.log + [DidPersist(task.material, task.generation)]))
  }

  function AbortStep(s: System, a: nat): Option<System> {
    if a !in s.attempts || s.attempts[a].stage.Answered? then None
    else Some(SetStage(s, a, Answered(Failure)))
  }

  // ---------------------------------------------------------------- runs

  /** The state after an action; none when the action cannot happen in s. */
  function Apply(env: World, s: System, action: Action): Option<System> {
    match action
    case CreateMaterial(content, fileType, storageKey) =>
      Some(WithDb(s, Create(s.db, content, fileType, storageKey)))
    case DeleteMaterial(id) => Some(WithDb(s, Delete(s.db, id)))
    case EditMaterial(id, patch) => Some(WithDb(s, Edit(s.db, id, patch)))
    case RetryMaterial(id) => Some(WithDb(s, RequeueFailed(s.db, id).0))
    case RecoverTasks => Some(WithDb(s, RequeueInterrupted(s.db)))
    case ClaimTask(id) => Some(ClaimStep(s, id))
    case SendRequest(w) => SendStep(s, w)
    case LoseRequest(w) => LoseStep(s, w)
    case CancelWorker(w) => CancelStep(s, w)
    case ReceiveAnswer(w) => ReceiveStep(s, w)
    case FinishTask(w, message) => FinishStep(s, w, message)
    case SendAlert(w) => AlertStep(s, w)
    case ExitProcess(lost) => Some(s.(workers := s.workers - lost))
    case CheckEarly(a) => CheckStep(s, a)
    case Compute(a, extras) => ComputeStep(env, s, a, extras)
    case PersistResult(a) => PersistStep(s, a)
    case AbortAttempt(a) => AbortStep(s, a)
    case ActivateV2(percentage) => Some(WithDb(s, OrElse(Activate(env, s.db, percentage, s.clock), s.db)))
    case RollbackV2 => Some(WithDb(s, OrElse(Rollback(s.db, s.clock), s.db)))
    case RetireLegacy => Some(WithDb(s, OrElse(Retire(s.db, s.clock), s.db)))
    case ReindexV2 => Some(WithDb(s, Reindex(s.db)))
    case Tick(seconds) => Some(s.(clock := s.clock + seconds))
  }

  function Run(env: World, s: System, actions: seq<Action>): Option<System> {
    if actions == [] then Some(s)
    else
      match Run(env, s, actions[..|actions| - 1])
      case None => None
      case Some(before) => Apply(env, before, actions[|actions| - 1])
  }

  /** A row as the rag-v2 migration leaves it: legacy body chunks only, and done rows have some. */
  predicate MigratedRow(env: World, m: Material) {
    && m.index == LegacyV1 && m.v2 == [] && m.passes == 0 && m.edit == Deref(m.content)
    && (forall i :: 0 <= i < |m.legacy| ==> m.legacy[i].kind == Body)
    && (m.status == Done ==> m.legacy != [])
    && (m.error.Some? <==> m.status == Failed)
  }

  /** Right after the migration, with no worker or attempt under way. */
  predicate Initial(env: World, s: System) {
    && s.workers == map[] && s.attempts == map[] && s.log == []
    && s.db.versions.legacy == Active && s.db.versions.v2 == Building && s.db.versions.v2Since == None
    && forall id :: id in s.db.materials ==> id < s.db.nextId && MigratedRow(env, s.db.materials[id])
  }
}
