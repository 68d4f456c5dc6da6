/** Every action of the protocol keeps the invariant. */
module ParseSteps {
  import opened Basics
  import opened Options
  import opened Text
  import opened Chunking
  import opened ChunkingProofs
  import opened Documents
  import opened Materials
  import opened ParseProtocol
  import opened ParseSafety

  /** What every change of the tables outside FinishTask has to satisfy. */
  ghost predicate QuietChange(env: World, db: Db, after: Db) {
    DbSound(env, after) && Evolves(env, db, after) && NoNewDone(db, after)
  }

  function WithRow(db: Db, id: nat, m: Material): Db {
    db.(materials := db.materials[id := m])
  }

  ghost predicate RowQuiet(m: Material, n: Material) {
    n.status == Done ==> m.status == Done && n.generation == m.generation && n.v2 == m.v2
  }

  /** One row may become another outside FinishTask. */
  ghost predicate RowStep(env: World, active: bool, m: Material, n: Material) {
    RowSound(env, active, n) && RowEvolves(env, m, n) && RowQuiet(m, n)
  }

  lemma SameRowEvolves(env: World, m: Material)
    ensures RowEvolves(env, m, m)
  {
  }

  lemma OneRowSound(env: World, db: Db, id: nat, n: Material)
    requires DbSound(env, db) && id in db.materials && RowSound(env, db.versions.v2 == Active, n)
    ensures DbSound(env, WithRow(db, id, n))
  {
    hide RowSound;
  }

  lemma OneRowEvolves(env: World, db: Db, id: nat, n: Material)
    requires id in db.materials && RowEvolves(env, db.materials[id], n)
    ensures Evolves(env, db, WithRow(db, id, n))
  {
    hide RowEvolves;
    forall i | i in db.materials ensures RowEvolves(env, db.materials[i], WithRow(db, id, n).materials[i]) {
      SameRowEvolves(env, db.materials[i]);
    }
  }

  lemma OneRowIsQuiet(env: World, db: Db, id: nat, n: Material)
    requires DbSound(env, db) && id in db.materials
    requires RowStep(env, db.versions.v2 == Active, db.materials[id], n)
    ensures QuietChange(env, db, WithRow(db, id, n))
  {
    hide RowSound, RowEvolves;
    OneRowSound(env, db, id, n);
    OneRowEvolves(env, db, id, n);
  }

  /** Every row of one table becomes the row of the same id in another. */
  ghost predicate RowsStep(env: World, db: Db, after: Db) {
    && after.nextId == db.nextId && after.materials.Keys == db.materials.Keys
    && OneActive(after.versions) && after.versions.legacy != Building
    && forall id :: id in db.materials ==>
         RowStep(env, after.versions.v2 == Active, db.materials[id], after.materials[id])
  }

  lemma RowsStepIsQuiet(env: World, db: Db, after: Db)
    requires DbSound(env, db) && RowsStep(env, db, after)
    ensures QuietChange(env, db, after)
  {
    hide RowSound, RowEvolves;
    forall id | id in after.materials
      ensures RowStep(env, after.versions.v2 == Active, db.materials[id], after.materials[id])
    {
      assert id in db.materials;
    }
  }

  // ---------------------------------------------------------------- user actions and the queue

  lemma NewRow(env: World, active: bool, content: Option<string>, fileType: Option<string>, key: Option<string>)
    ensures RowSound(env, active, NewMaterial(content, fileType, key))
    ensures NewMaterial(content, fileType, key).status == Pending
  {
    assert FromEdit(env, NewMaterial(content, fileType, key));
  }

  lemma CreateIsQuiet(env: World, db: Db, content: Option<string>, fileType: Option<string>, key: Option<string>)
    requires DbSound(env, db)
    ensures QuietChange(env, db, Create(db, content, fileType, key))
  {
    hide RowSound, RowEvolves, NewMaterial;
    assert db.nextId !in db.materials;
    NewRow(env, db.versions.v2 == Active, content, fileType, key);
    forall id | id in db.materials ensures RowEvolves(env, db.materials[id], db.materials[id]) {
      SameRowEvolves(env, db.materials[id]);
    }
  }

  lemma DeleteIsQuiet(env: World, db: Db, id: nat)
    requires DbSound(env, db)
    ensures QuietChange(env, db, Delete(db, id))
  {
    hide RowSound, RowEvolves;
    forall i | i in db.materials ensures RowEvolves(env, db.materials[i], db.materials[i]) {
      SameRowEvolves(env, db.materials[i]);
    }
  }

  lemma RequeueRow(env: World, active: bool, m: Material)
    requires RowSound(env, active, m)
    ensures RowStep(env, active, m, Requeue(m)) && RowStep(env, active, m, m)
  {
  }

  lemma EditRow(env: World, active: bool, m: Material, content: string)
    requires RowSound(env, active, m)
    ensures RowStep(env, active, m, Edited(m, content))
  {
    assert FromEdit(env, Edited(m, content));
  }

  /** An edit that changes the content opens a new generation; any other one changes nothing. */
  lemma EditIsQuiet(env: World, db: Db, id: nat, patch: Option<string>)
    requires DbSound(env, db)
    ensures QuietChange(env, db, Edit(db, id, patch))
    ensures var after := Edit(db, id, patch);
            if id in db.materials && patch.Some? && db.materials[id].content != patch
            then
              && id in after.materials && after.materials[id].content == patch
              && after.materials[id].status == Pending
              && after.materials[id].generation == db.materials[id].generation + 1
            else after == db
  {
    hide RowSound, RowEvolves;
    if id in db.materials && patch.Some? {
      EditRow(env, db.versions.v2 == Active, db.materials[id], patch.value);
      OneRowIsQuiet(env, db, id, Edited(db.materials[id], patch.value));
    } else {
      forall i | i in db.materials ensures RowEvolves(env, db.materials[i], db.materials[i]) {
        SameRowEvolves(env, db.materials[i]);
      }
    }
  }

  lemma RetryIsQuiet(env: World, db: Db, id: nat)
    requires DbSound(env, db)
    ensures QuietChange(env, db, RequeueFailed(db, id).0)
  {
    hide RowSound, RowEvolves;
    forall i | i in db.materials ensures RowEvolves(env, db.materials[i], db.materials[i]) {
      SameRowEvolves(env, db.materials[i]);
    }
    if id in db.materials {
      RequeueRow(env, db.versions.v2 == Active, db.materials[id]);
      OneRowIsQuiet(env, db, id, Requeue(db.materials[id]));
    }
  }

  lemma RecoverIsQuiet(env: World, db: Db)
    requires DbSound(env, db)
    ensures QuietChange(env, db, RequeueInterrupted(db))
  {
    hide RowSound, RowEvolves, RowQuiet;
    var after := RequeueInterrupted(db);
    forall id | id in db.materials
      ensures RowStep(env, after.versions.v2 == Active, db.materials[id], after.materials[id])
    {
      RequeueRow(env, db.versions.v2 == Active, db.materials[id]);
    }
    RowsStepIsQuiet(env, db, after);
  }

  // ---------------------------------------------------------------- operator scripts

  lemma SameRowsStep(env: World, db: Db)
    requires DbSound(env, db)
    ensures QuietChange(env, db, db)
  {
    hide RowSound, RowEvolves, RowQuiet;
    forall id | id in db.materials
      ensures RowStep(env, db.versions.v2 == Active, db.materials[id], db.materials[id])
    {
      RequeueRow(env, db.versions.v2 == Active, db.materials[id]);
    }
    RowsStepIsQuiet(env, db, db);
  }

  lemma ReassignRow(env: World, id: nat, before: bool, active: bool, m: Material, percentage: nat)
    requires RowSound(env, before, m) && ReadyForV2(m) && (active ==> percentage == 100)
    ensures RowStep(env, active, m, Reassigned(env, id, m, percentage))
  {
    assert FromEdit(env, Reassigned(env, id, m, percentage));
  }

  lemma {:induction false} ActivateIsQuiet(env: World, db: Db, percentage: nat, now: nat)
    requires DbSound(env, db)
    ensures QuietChange(env, db, OrElse(Activate(env, db, percentage, now), db))
  {
    hide RowSound, RowEvolves, RowQuiet, ReadyForV2;
    match Activate(env, db, percentage, now)
    case None => SameRowsStep(env, db);
    case Some(after) =>
      forall id | id in db.materials
        ensures RowStep(env, after.versions.v2 == Active, db.materials[id], after.materials[id])
      {
        assert ReadyForV2(db.materials[id]);
        ReassignRow(env, id, db.versions.v2 == Active, after.versions.v2 == Active, db.materials[id], percentage);
      }
      RowsStepIsQuiet(env, db, after);
  }

  lemma RollbackRow(env: World, before: bool, m: Material)
    requires RowSound(env, before, m)
    ensures RowStep(env, false, m, BackToLegacy(m))
  {
    assert FromEdit(env, BackToLegacy(m));
    if m.legacy != [] {
      assert BackToLegacy(m).legacy[0].kind == Body;
    }
  }

  lemma RollbackIsQuiet(env: World, db: Db, now: nat)
    requires DbSound(env, db)
    ensures QuietChange(env, db, OrElse(Rollback(db, now), db))
  {
    hide RowSound, RowEvolves, RowQuiet;
    match Rollback(db, now)
    case None => SameRowsStep(env, db);
    case Some(after) =>
      forall id | id in db.materials
        ensures RowStep(env, after.versions.v2 == Active, db.materials[id], after.materials[id])
      {
        RollbackRow(env, db.versions.v2 == Active, db.materials[id]);
      }
      RowsStepIsQuiet(env, db, after);
  }

  /** Deleting the legacy chunks strands nobody: no row with legacy chunks still points at them. */
  lemma RetireRow(env: World, m: Material)
    requires RowSound(env, true, m)
    ensures RowStep(env, true, m, WithoutLegacy(m))
    ensures Visible(WithoutLegacy(m)) == Visible(m)
  {
    assert FromEdit(env, WithoutLegacy(m));
  }

  lemma RetireIsQuiet(env: World, db: Db, now: nat)
    requires DbSound(env, db)
    ensures QuietChange(env, db, OrElse(Retire(db, now), db))
  {
    hide RowSound, RowEvolves, RowQuiet;
    match Retire(db, now)
    case None => SameRowsStep(env, db);
    case Some(after) =>
      forall id | id in db.materials
        ensures RowStep(env, after.versions.v2 == Active, db.materials[id], after.materials[id])
      {
        RetireRow(env, db.materials[id]);
      }
      RowsStepIsQuiet(env, db, after);
  }

  lemma ReindexIsQuiet(env: World, db: Db)
    requires DbSound(env, db)
    ensures QuietChange(env, db, Reindex(db))
  {
    hide RowSound, RowEvolves, RowQuiet;
    var after := Reindex(db);
    forall id | id in db.materials
      ensures RowStep(env, after.versions.v2 == Active, db.materials[id], after.materials[id])
    {
      RequeueRow(env, db.versions.v2 == Active, db.materials[id]);
    }
    RowsStepIsQuiet(env, db, after);
  }

  /** The actions that only change the tables. */
  predicate TablesOnly(action: Action) {
    || action.CreateMaterial? || action.DeleteMaterial? || action.EditMaterial? || action.RetryMaterial?
    || action.RecoverTasks? || action.ActivateV2? || action.RollbackV2? || action.RetireLegacy?
    || action.ReindexV2?
  }

  lemma TablesOnlyIsQuiet(env: World, s: System, action: Action)
    requires DbSound(env, s.db) && TablesOnly(action)
    ensures Apply(env, s, action).Some?
    ensures Apply(env, s, action).value == WithDb(s, Apply(env, s, action).value.db)
    ensures QuietChange(env, s.db, Apply(env, s, action).value.db)
  {
    hide QuietChange, DbSound;
    match action
    case CreateMaterial(content, fileType, key) => CreateIsQuiet(env, s.db, content, fileType, key);
    case DeleteMaterial(id) => DeleteIsQuiet(env, s.db, id);
    case EditMaterial(id, patch) => EditIsQuiet(env, s.db, id, patch);
    case RetryMaterial(id) => RetryIsQuiet(env, s.db, id);
    case RecoverTasks => RecoverIsQuiet(env, s.db);
    case ActivateV2(percentage) => ActivateIsQuiet(env, s.db, percentage, s.clock);
    case RollbackV2 => RollbackIsQuiet(env, s.db, s.clock);
    case RetireLegacy => RetireIsQuiet(env, s.db, s.clock);
    case ReindexV2 => ReindexIsQuiet(env, s.db);
  }

  // ---------------------------------------------------------------- claim

  function ClaimedRow(m: Material): Material {
    m.(status := Parsing, error := None)
  }

  lemma ClaimRow(env: World, active: bool, m: Material)
    requires RowSound(env, active, m) && m.status == Pending
    ensures RowStep(env, active, m, ClaimedRow(m))
  {
    assert FromEdit(env, ClaimedRow(m));
  }

  lemma ClaimIsQuiet(env: World, db: Db, id: nat)
    requires DbSound(env, db)
    ensures QuietChange(env, db, Claim(db, id).0)
  {
    hide RowSound, RowEvolves;
    if Claim(db, id).1.Some? {
      ClaimRow(env, db.versions.v2 == Active, db.materials[id]);
      OneRowIsQuiet(env, db, id, ClaimedRow(db.materials[id]));
    } else {
      SameRowsStep(env, db);
    }
  }

  lemma ClaimedTask(env: World, db: Db, id: nat)
    requires DbSound(env, db) && Claim(db, id).1.Some?
    ensures TaskSound(env, Claim(db, id).0, Claim(db, id).1.value)
    ensures !Past(db, id, Claim(db, id).1.value.generation)
  {
    assert FromEdit(env, db.materials[id]);
  }

  lemma AddWorkerKeeps(env: World, s: System, task: Task)
    requires Inv(env, s) && TaskSound(env, s.db, task)
    requires forall w :: w in s.workers ==> !SameGeneration(s.workers[w].task, task)
    ensures Inv(env, s.(workers := s.workers[s.nextWorker := Worker(task, 0, Ready)],
                        nextWorker := s.nextWorker + 1))
  {
  }

  /** A generation that still waits in the queue was not claimed before. */
  lemma NotClaimedYet(env: World, s: System, id: nat, g: nat)
    requires LogSound(env, s.db, s.log) && !Past(s.db, id, g)
    ensures forall i :: 0 <= i < |s.log| ==> !SameOccasion(s.log[i], DidClaim(id, g))
  {
    forall i | 0 <= i < |s.log| ensures !SameOccasion(s.log[i], DidClaim(id, g)) {
      EventKnown(env, s.db, s.log, i);
      assert s.log[i] != DidClaim(id, g);
    }
  }

  lemma ClaimKeeps(env: World, s: System, id: nat)
    requires Inv(env, s)
    ensures Inv(env, ClaimStep(s, id))
  {
    var (after, claimed) := Claim(s.db, id);
    if claimed.Some? {
      var task := claimed.value;
      ClaimIsQuiet(env, s.db, id);
      ClaimedTask(env, s.db, id);
      QuietChangeKeeps(env, s, after);
      var t := WithDb(s, after);
      forall w | w in s.workers ensures !SameGeneration(s.workers[w].task, task) {
        WorkerKnown(env, s, w);
      }
      AddWorkerKeeps(env, t, task);
      var u := t.(workers := t.workers[t.nextWorker := Worker(task, 0, Ready)], nextWorker := t.nextWorker + 1);
      var e := DidClaim(task.material, task.generation);
      NotClaimedYet(env, s, id, task.generation);
      AppendKeeps(env, u, e);
    }
  }

  // ---------------------------------------------------------------- the other worker steps

  lemma SendKeeps(env: World, s: System, w: nat)
    requires Inv(env, s) && SendStep(s, w).Some?
    ensures Inv(env, SendStep(s, w).value)
  {
    var t := SendStep(s, w).value;
    forall v | v in t.workers ensures WorkerSound(env, t.db, t.log, t.attempts, t.workers[v]) {
      WorkerKnown(env, s, v);
    }
    WorkerKnown(env, s, w);
  }

  lemma FailureKeeps(env: World, s: System, w: nat)
    requires Inv(env, s) && w in s.workers
    ensures Inv(env, SetWorker(s, w, AfterFailure(s.workers[w])))
  {
    WorkerKnown(env, s, w);
    SetWorkerKeeps(env, s, w, AfterFailure(s.workers[w]));
  }

  lemma ReceiveKeeps(env: World, s: System, w: nat)
    requires Inv(env, s) && ReceiveStep(s, w).Some?
    ensures Inv(env, ReceiveStep(s, w).value)
  {
    var worker := s.workers[w];
    WorkerKnown(env, s, w);
    AttemptKnown(env, s, worker.phase.attempt);
    if s.attempts[worker.phase.attempt].stage.answer == Failure {
      FailureKeeps(env, s, w);
    } else {
      SetWorkerKeeps(env, s, w, worker.(phase := Verdict(true)));
    }
  }

  /** Whoever still holds a generation that was persisted finds the row indexed. */
  lemma PersistedIsIndexed(env: World, s: System, id: nat, g: nat)
    requires LogSound(env, s.db, s.log) && DidPersist(id, g) in s.log && Holds(s.db, id, g)
    ensures Indexed(env, s.db.materials[id]) && Served(s.db.materials[id])
  {
    var i :| 0 <= i < |s.log| && s.log[i] == DidPersist(id, g);
    EventKnown(env, s.db, s.log, i);
  }

  lemma OneRowJustified(db: Db, log: seq<Event>, id: nat, n: Material)
    requires DoneJustified(db, log) && id in db.materials
    requires n.status == Done ==> Served(n) && DidPersist(id, n.generation) in log
    ensures DoneJustified(WithRow(db, id, n), log)
  {
  }

  /** One row may become done when it is served and its generation was persisted. */
  lemma OneRowKeeps(env: World, s: System, id: nat, n: Material)
    requires Inv(env, s) && id in s.db.materials
    requires RowSound(env, s.db.versions.v2 == Active, n) && RowEvolves(env, s.db.materials[id], n)
    requires n.status == Done ==> Served(n) && DidPersist(id, n.generation) in s.log
    ensures Inv(env, WithDb(s, WithRow(s.db, id, n)))
  {
    OneRowSound(env, s.db, id, n);
    OneRowEvolves(env, s.db, id, n);
    OneRowJustified(s.db, s.log, id, n);
    DbChangeKeeps(env, s, WithRow(s.db, id, n));
  }

  function FinishedRow(m: Material, failure: Option<string>): Material {
    m.(status := if failure.None? then Done else Failed, error := failure)
  }

  lemma FinishRow(env: World, active: bool, m: Material, failure: Option<string>)
    requires RowSound(env, active, m) && m.status == Parsing
    ensures RowSound(env, active, FinishedRow(m, failure)) && RowEvolves(env, m, FinishedRow(m, failure))
  {
    assert FromEdit(env, FinishedRow(m, failure));
  }

  lemma FinishDbKeeps(env: World, s: System, id: nat, g: nat, failure: Option<string>)
    requires Inv(env, s) && Holds(s.db, id, g)
    requires failure.None? ==> DidPersist(id, g) in s.log
    ensures Inv(env, WithDb(s, Finish(s.db, id, g, failure).0))
  {
    FinishRow(env, s.db.versions.v2 == Active, s.db.materials[id], failure);
    if failure.None? {
      PersistedIsIndexed(env, s, id, g);
    }
    OneRowKeeps(env, s, id, FinishedRow(s.db.materials[id], failure));
  }

  /** A generation that somebody still holds was neither finished nor alerted about. */
  lemma HeldIsOpen(env: World, s: System, id: nat, g: nat, ok: bool)
    requires Inv(env, s) && Holds(s.db, id, g)
    ensures forall i :: 0 <= i < |s.log| ==> !SameOccasion(s.log[i], DidFinish(id, g, ok))
    ensures DidAlert(id, g) !in s.log
  {
    forall i | 0 <= i < |s.log| ensures !SameOccasion(s.log[i], DidFinish(id, g, ok)) {
      EventKnown(env, s.db, s.log, i);
    }
    assert DidFinish(id, g, false) !in s.log;
    forall i | 0 <= i < |s.log| ensures s.log[i] != DidAlert(id, g) {
      EventKnown(env, s.db, s.log, i);
    }
  }

  lemma LogFinishKeeps(env: World, s: System, id: nat, g: nat, failure: Option<string>)
    requires Inv(env, s) && Holds(s.db, id, g)
    requires failure.None? ==> DidPersist(id, g) in s.log
    ensures Inv(env, WithDb(s, Finish(s.db, id, g, failure).0).(
                       log := s.log + [DidFinish(id, g, failure.None?)]))
    ensures DidAlert(id, g) !in s.log
  {
    HeldIsOpen(env, s, id, g, failure.None?);
    FinishDbKeeps(env, s, id, g, failure);
    var t := WithDb(s, Finish(s.db, id, g, failure).0);
    assert Past(s.db, id, g);
    AppendKeeps(env, t, DidFinish(id, g, failure.None?));
  }

  /** A completion takes effect for the held generation alone, and as done only on an indexed row. */
  ghost predicate FinishTook(env: World, s: System, w: nat, t: System)
    requires w in s.workers && s.workers[w].phase.Verdict?
  {
    var task, ok := s.workers[w].task, s.workers[w].phase.ok;
    var id, g := task.material, task.generation;
    if Holds(s.db, id, g)
    then
      && t.log == s.log + [DidFinish(id, g, ok)]
      && id in t.db.materials && t.db.materials[id].status == (if ok then Done else Failed)
      && (ok ==> Indexed(env, t.db.materials[id]) && DidPersist(id, g) in s.log)
    else t.db == s.db && t.log == s.log && w !in t.workers
  }

  lemma FinishTakesEffect(env: World, s: System, w: nat, message: string)
    requires Inv(env, s) && FinishStep(s, w, message).Some?
    ensures FinishTook(env, s, w, FinishStep(s, w, message).value)
  {
    var task := s.workers[w].task;
    WorkerKnown(env, s, w);
    if Holds(s.db, task.material, task.generation) && s.workers[w].phase.ok {
      PersistedIsIndexed(env, s, task.material, task.generation);
    }
  }

  lemma FinishKeeps(env: World, s: System, w: nat, message: string)
    requires Inv(env, s) && FinishStep(s, w, message).Some?
    ensures Inv(env, FinishStep(s, w, message).value)
    ensures FinishTook(env, s, w, FinishStep(s, w, message).value)
  {
    FinishTakesEffect(env, s, w, message);
    hide FinishTook;
    var worker := s.workers[w];
    var task, ok := worker.task, worker.phase.ok;
    var id, g := task.material, task.generation;
    var failure: Option<string> := if ok then None else Some(message);
    WorkerKnown(env, s, w);
    if Holds(s.db, id, g) {
      LogFinishKeeps(env, s, id, g, failure);
      var t := WithDb(s, Finish(s.db, id, g, failure).0).(log := s.log + [DidFinish(id, g, ok)]);
      if ok {
        RemoveWorkersKeeps(env, t, {w});
      } else {
        assert WorkerSound(env, t.db, t.log, t.attempts, worker);
        SetWorkerKeeps(env, t, w, worker.(phase := Alerting));
      }
    } else {
      RemoveWorkersKeeps(env, s, {w});
    }
  }

  lemma AlertKeeps(env: World, s: System, w: nat)
    requires Inv(env, s) && AlertStep(s, w).Some?
    ensures Inv(env, AlertStep(s, w).value)
  {
    var task := s.workers[w].task;
    var t := s.(workers := s.workers - {w});
    var e := DidAlert(task.material, task.generation);
    WorkerKnown(env, s, w);
    RemoveWorkersKeeps(env, s, {w});
    forall i | 0 <= i < |s.log| ensures !SameOccasion(s.log[i], e) {
      assert s.log[i] in s.log;
    }
    forall v | v in t.workers && t.workers[v].phase.Alerting?
      ensures t.workers[v].task.material != e.material || t.workers[v].task.generation != e.generation
    {
      assert !SameGeneration(s.workers[v].task, s.workers[w].task);
    }
    AppendKeeps(env, t, e);
  }

  // ---------------------------------------------------------------- attempts

  lemma CheckKeeps(env: World, s: System, a: nat)
    requires Inv(env, s) && CheckStep(s, a).Some?
    ensures Inv(env, CheckStep(s, a).value)
  {
    AttemptKnown(env, s, a);
    var task := s.attempts[a].task;
    var stage := if task.material !in s.db.materials then Answered(Failure)
                 else if Holds(s.db, task.material, task.generation) then Stage.Checked
                 else Answered(StaleOk);
    SetStageKeeps(env, s, a, stage);
  }

  ghost predicate NoBody(chunks: seq<ChunkRecord>) {
    forall i :: 0 <= i < |chunks| ==> chunks[i].kind != Body
  }

  lemma NoBodyAfter(env: World, chunks: seq<ChunkRecord>, rest: seq<ChunkRecord>, text: string)
    requires NoBody(rest) && chunks == BodyRecords(env.cfg, text) + rest
    ensures BuiltFrom(env, chunks, text)
  {
  }

  lemma NoBodyAppend(a: seq<ChunkRecord>, b: seq<ChunkRecord>)
    requires NoBody(a) && NoBody(b)
    ensures NoBody(a + b)
  {
  }

  /** A processed document is built from its own text. */
  lemma ProcessedIsBuilt(env: World, markdown: string, x: Extras)
    ensures BuiltFrom(env, Process(env.cfg, markdown, x.summary, x.questions, x.images).chunks, markdown)
  {
    var assets := Deduplicated(x.images);
    var bodies := BodyRecords(env.cfg, markdown);
    var head := [SignalRecord(Summary, 0, x.summary, None)];
    var asked, shown := QuestionRecords(x.questions), ImageRecords(assets);
    ImageRecordsSound(assets);
    NoBodyAppend(head, asked);
    NoBodyAppend(head + asked, shown);
    AppendAssociative(bodies, head, asked);
    AppendAssociative(bodies, head + asked, shown);
    NoBodyAfter(env, bodies + head + asked + shown, head + asked + shown, markdown);
  }

  lemma ComputeKeeps(env: World, s: System, a: nat, extras: Option<Extras>)
    requires Inv(env, s) && ComputeStep(env, s, a, extras).Some?
    ensures Inv(env, ComputeStep(env, s, a, extras).value)
  {
    AttemptKnown(env, s, a);
    var p := s.attempts[a].task.payload;
    var extracted := ExtractText(env, p.fileType, p.content, p.storageKey);
    if extracted.Some? && extras.Some? {
      var text, x := Clean(env, extracted.value), extras.value;
      StripIdempotent(env.scrub(extracted.value));
      ProcessedIsStorable(env.cfg, text, x.summary, x.questions, x.images);
      ProcessedIsBuilt(env, text, x);
      SetStageKeeps(env, s, a, Computed(Process(env.cfg, text, x.summary, x.questions, x.images)));
    } else {
      SetStageKeeps(env, s, a, Answered(Failure));
    }
  }

  /** What lets a persist go through: the row is still the one the task was taken from. */
  ghost predicate Fits(env: World, m: Material, p: Payload, doc: Parsed) {
    && m.status == Parsing
    && p.edit == m.edit && p.fileType == Deref(m.fileType) && p.storageKey == Deref(m.storageKey)
    && ParseTimes(env, p.fileType, p.storageKey, p.passes, p.edit) == Some(p.content)
    && ResultOf(env, p, doc)
  }

  lemma PersistedText(env: World, versions: Versions, m: Material, p: Payload, doc: Parsed)
    requires Fits(env, m, p, doc)
    ensures FromEdit(env, WithDocument(m, versions, doc, p.passes))
    ensures Indexed(env, WithDocument(m, versions, doc, p.passes))
  {
    assert HasBody(doc.chunks);
  }

  lemma PersistedServed(env: World, versions: Versions, m: Material, p: Payload, doc: Parsed)
    requires OnlyBodies(m.legacy) && HasBody(doc.chunks)
    ensures Served(WithDocument(m, versions, doc, p.passes))
  {
    if m.legacy != [] {
      assert m.legacy[0].kind == Body;
    }
  }

  lemma PersistRow(env: World, versions: Versions, m: Material, p: Payload, doc: Parsed)
    requires RowSound(env, versions.v2 == Active, m) && Fits(env, m, p, doc)
    ensures RowSound(env, versions.v2 == Active, WithDocument(m, versions, doc, p.passes))
    ensures RowEvolves(env, m, WithDocument(m, versions, doc, p.passes))
  {
    PersistedText(env, versions, m, p, doc);
    PersistedServed(env, versions, m, p, doc);
  }

  lemma CommitKeeps(env: World, s: System, a: nat, doc: Parsed)
    requires Inv(env, s) && a in s.attempts
    requires var task := s.attempts[a].task;
             && TaskSound(env, s.db, task) && ResultOf(env, task.payload, doc)
             && Holds(s.db, task.material, task.generation)
    ensures var task := s.attempts[a].task;
            && Persist(s.db, task, doc).Committed?
            && Inv(env, WithDb(s, Persist(s.db, task, doc).db).(
                          log := s.log + [DidPersist(task.material, task.generation)]))
  {
    var task := s.attempts[a].task;
    var id, g := task.material, task.generation;
    var n := WithDocument(s.db.materials[id], s.db.versions, doc, task.payload.passes);
    PersistRow(env, s.db.versions, s.db.materials[id], task.payload, doc);
    PersistedText(env, s.db.versions, s.db.materials[id], task.payload, doc);
    PersistedServed(env, s.db.versions, s.db.materials[id], task.payload, doc);
    OneRowKeeps(env, s, id, n);
    var t := WithDb(s, WithRow(s.db, id, n));
    assert PersistHolds(env, t.db, id, g);
    NoOccasionToPersist(t.log, id, g);
    AppendKeeps(env, t, DidPersist(id, g));
  }

  lemma NoOccasionToPersist(log: seq<Event>, id: nat, g: nat)
    ensures forall i :: 0 <= i < |log| ==> !SameOccasion(log[i], DidPersist(id, g))
  {
  }

  /** A persist commits for the held generation alone; any other one is answered and changes no table. */
  ghost predicate PersistAnswered(env: World, s: System, a: nat, t: System)
    requires a in s.attempts
  {
    var id, g := s.attempts[a].task.material, s.attempts[a].task.generation;
    && a in t.attempts
    && if Holds(s.db, id, g)
       then
         && t.log == s.log + [DidPersist(id, g)] && t.attempts[a].stage == Answered(ParsedOk)
         && id in t.db.materials && Indexed(env, t.db.materials[id]) && Served(t.db.materials[id])
       else
         && t.db == s.db && t.log == s.log
         && t.attempts[a].stage == Answered(if id in s.db.materials then StaleOk else Failure)
  }

  lemma PersistIsAnswered(env: World, s: System, a: nat)
    requires Inv(env, s) && PersistStep(s, a).Some?
    ensures PersistAnswered(env, s, a, PersistStep(s, a).value)
  {
    var task, doc := s.attempts[a].task, s.attempts[a].stage.doc;
    AttemptKnown(env, s, a);
    if Holds(s.db, task.material, task.generation) {
      var m := s.db.materials[task.material];
      assert RowSound(env, s.db.versions.v2 == Active, m);
      hide RowSound, FromEdit, Indexed, Served;
      PersistedText(env, s.db.versions, m, task.payload, doc);
      OnlyBodiesOf(env, s.db.versions.v2 == Active, m);
      PersistedServed(env, s.db.versions, m, task.payload, doc);
    }
  }

  lemma OnlyBodiesOf(env: World, active: bool, m: Material)
    requires RowSound(env, active, m)
    ensures OnlyBodies(m.legacy)
  {
  }

  lemma RefusedKeeps(env: World, s: System, a: nat)
    requires Inv(env, s) && PersistStep(s, a).Some?
    requires !Holds(s.db, s.attempts[a].task.material, s.attempts[a].task.generation)
    ensures Inv(env, PersistStep(s, a).value)
  {
    AttemptKnown(env, s, a);
    SetStageKeeps(env, s, a, Answered(if s.attempts[a].task.material in s.db.materials then StaleOk else Failure));
  }

  lemma CommittedKeeps(env: World, s: System, a: nat)
    requires Inv(env, s) && PersistStep(s, a).Some?
    requires Holds(s.db, s.attempts[a].task.material, s.attempts[a].task.generation)
    ensures Inv(env, PersistStep(s, a).value)
  {
    var task, doc := s.attempts[a].task, s.attempts[a].stage.doc;
    AttemptKnown(env, s, a);
    CommitKeeps(env, s, a, doc);
    var t := WithDb(s, Persist(s.db, task, doc).db).(log := s.log + [DidPersist(task.material, task.generation)]);
    AttemptKnown(env, t, a);
    SetStageKeeps(env, t, a, Answered(ParsedOk));
  }

  lemma PersistKeeps(env: World, s: System, a: nat)
    requires Inv(env, s) && PersistStep(s, a).Some?
    ensures Inv(env, PersistStep(s, a).value)
    ensures PersistAnswered(env, s, a, PersistStep(s, a).value)
  {
    PersistIsAnswered(env, s, a);
    hide Inv, PersistAnswered;
    if Holds(s.db, s.attempts[a].task.material, s.attempts[a].task.generation) {
      CommittedKeeps(env, s, a);
    } else {
      RefusedKeeps(env, s, a);
    }
  }

  // ---------------------------------------------------------------- one step, and runs

  lemma WorkerStepKeeps(env: World, s: System, action: Action)
    requires Inv(env, s) && Apply(env, s, action).Some?
    requires action.ClaimTask? || action.SendRequest? || action.LoseRequest? || action.CancelWorker? ||
             action.ReceiveAnswer? || action.FinishTask? || action.SendAlert? || action.ExitProcess?
    ensures Inv(env, Apply(env, s, action).value)
  {
    hide DbSound, LogSound, DoneJustified, AttemptsSound;
    match action
    case ClaimTask(id) => ClaimKeeps(env, s, id);
    case SendRequest(w) => SendKeeps(env, s, w);
    case LoseRequest(w) => FailureKeeps(env, s, w);
    case CancelWorker(w) =>
      WorkerKnown(env, s, w);
      SetWorkerKeeps(env, s, w, s.workers[w].(phase := Verdict(false)));
    case ReceiveAnswer(w) => ReceiveKeeps(env, s, w);
    case FinishTask(w, message) => FinishKeeps(env, s, w, message);
    case SendAlert(w) => AlertKeeps(env, s, w);
    case ExitProcess(lost) => RemoveWorkersKeeps(env, s, lost);
  }

  lemma AttemptStepKeeps(env: World, s: System, action: Action)
    requires Inv(env, s) && Apply(env, s, action).Some?
    requires action.CheckEarly? || action.Compute? || action.PersistResult? || action.AbortAttempt?
    ensures Inv(env, Apply(env, s, action).value)
  {
    hide DbSound, LogSound, DoneJustified, WorkersSound;
    match action
    case CheckEarly(a) => CheckKeeps(env, s, a);
    case Compute(a, extras) => ComputeKeeps(env, s, a, extras);
    case PersistResult(a) => PersistKeeps(env, s, a);
    case AbortAttempt(a) =>
      AttemptKnown(env, s, a);
      SetStageKeeps(env, s, a, Answered(Failure));
  }

  lemma TickKeeps(env: World, s: System, seconds: nat)
    requires Inv(env, s)
    ensures Inv(env, s.(clock := s.clock + seconds))
  {
  }

  /** Every action keeps the invariant. */
  lemma StepKeeps(env: World, s: System, action: Action)
    requires Inv(env, s) && Apply(env, s, action).Some?
    ensures Inv(env, Apply(env, s, action).value)
  {
    hide LogSound, DoneJustified, WorkersSound, AttemptsSound, DbSound;
    if TablesOnly(action) {
      TablesOnlyIsQuiet(env, s, action);
      QuietChangeKeeps(env, s, Apply(env, s, action).value.db);
    } else if action.CheckEarly? || action.Compute? || action.PersistResult? || action.AbortAttempt? {
      AttemptStepKeeps(env, s, action);
    } else if action.Tick? {
      TickKeeps(env, s, action.seconds);
    } else {
      WorkerStepKeeps(env, s, action);
    }
  }

  lemma InitialHolds(env: World, s: System)
    requires Initial(env, s)
    ensures Inv(env, s)
  {
    forall id | id in s.db.materials
      ensures RowSound(env, false, s.db.materials[id])
      ensures s.db.materials[id].status == Done ==> Served(s.db.materials[id])
    {
      var m := s.db.materials[id];
      assert MigratedRow(env, m);
      if m.status == Done {
        assert m.legacy[0].kind == Body;
      }
    }
  }

  /** The invariant holds in every state of every run. */
  lemma {:induction false} RunKeeps(env: World, s: System, actions: seq<Action>)
    requires Initial(env, s) && Run(env, s, actions).Some?
    ensures Inv(env, Run(env, s, actions).value)
    decreases |actions|
  {
    if actions == [] {
      InitialHolds(env, s);
    } else {
      hide Inv;
      var init := actions[..|actions| - 1];
      RunKeeps(env, s, init);
      StepKeeps(env, Run(env, s, init).value, actions[|actions| - 1]);
    }
  }
}
