/** What the invariant means for a reader: statements about every run of the protocol. */
module ParseTheorems {
  import opened Options
  import opened Text
  import opened Chunking
  import opened ChunkingProofs
  import opened Documents
  import opened Materials
  import opened ParseProtocol
  import opened ParseSafety
  import opened ParseSteps

  // ---------------------------------------------------------------- what is served

  /**
   * Whatever the interleaving of workers, attempts, edits, crashes and scripts, exactly one index version
   * is active and every done material has a body chunk under its own index version.
   */
  lemma {:induction false} DoneMaterialsAreServed(env: World, s: System, actions: seq<Action>)
    requires Initial(env, s) && Run(env, s, actions).Some?
    ensures var db := Run(env, s, actions).value.db;
            && OneActive(db.versions)
            && forall id :: id in db.materials && db.materials[id].status == Done ==>
                 HasBody(Visible(db.materials[id]))
  {
    RunKeeps(env, s, actions);
  }

  lemma SameTablesEvolve(env: World, db: Db)
    ensures Evolves(env, db, db)
  {
    forall id | id in db.materials ensures RowEvolves(env, db.materials[id], db.materials[id]) {
      SameRowEvolves(env, db.materials[id]);
    }
  }

  lemma FinishEvolves(env: World, s: System, w: nat, message: string)
    requires Inv(env, s) && FinishStep(s, w, message).Some?
    ensures Evolves(env, s.db, FinishStep(s, w, message).value.db)
  {
    var task, ok := s.workers[w].task, s.workers[w].phase.ok;
    var failure: Option<string> := if ok then None else Some(message);
    if Holds(s.db, task.material, task.generation) {
      FinishRow(env, s.db.versions.v2 == Active, s.db.materials[task.material], failure);
      OneRowEvolves(env, s.db, task.material, FinishedRow(s.db.materials[task.material], failure));
    } else {
      SameTablesEvolve(env, s.db);
    }
  }

  lemma PersistEvolves(env: World, s: System, a: nat)
    requires Inv(env, s) && PersistStep(s, a).Some?
    ensures Evolves(env, s.db, PersistStep(s, a).value.db)
  {
    var task, doc := s.attempts[a].task, s.attempts[a].stage.doc;
    AttemptKnown(env, s, a);
    if Holds(s.db, task.material, task.generation) {
      var m := s.db.materials[task.material];
      PersistRow(env, s.db.versions, m, task.payload, doc);
      OneRowEvolves(env, s.db, task.material, WithDocument(m, s.db.versions, doc, task.payload.passes));
    } else {
      SameTablesEvolve(env, s.db);
    }
  }

  lemma StepEvolves(env: World, s: System, action: Action)
    requires Inv(env, s) && Apply(env, s, action).Some?
    ensures Evolves(env, s.db, Apply(env, s, action).value.db)
  {
    if TablesOnly(action) {
      TablesOnlyIsQuiet(env, s, action);
    } else if action.FinishTask? {
      FinishEvolves(env, s, action.worker, action.message);
    } else if action.PersistResult? {
      PersistEvolves(env, s, action.attempt);
    } else if action.ClaimTask? {
      ClaimIsQuiet(env, s.db, action.material);
    } else {
      SameTablesEvolve(env, s.db);
    }
  }

  /** How a row may differ between two moments of one run. */
  ghost predicate RowGrew(m: Material, n: Material) {
    && m.generation <= n.generation
    && (m.generation == n.generation ==> Rank(m.status) <= Rank(n.status) && SameSource(m, n))
    && (Served(m) ==> Served(n))
  }

  ghost predicate Grew(db: Db, after: Db) {
    && db.nextId <= after.nextId
    && forall id :: id in after.materials && id < db.nextId ==>
         id in db.materials && RowGrew(db.materials[id], after.materials[id])
  }

  lemma StepGrew(env: World, db: Db, middle: Db, after: Db)
    requires Grew(db, middle) && Evolves(env, middle, after)
    ensures Grew(db, after)
  {
    forall id | id in after.materials && id < db.nextId
      ensures id in db.materials && RowGrew(db.materials[id], after.materials[id])
    {
      assert id in middle.materials;
      assert RowGrew(db.materials[id], middle.materials[id]);
      assert RowEvolves(env, middle.materials[id], after.materials[id]);
    }
  }

  lemma ConcatRuns(env: World, s: System, first: seq<Action>, second: seq<Action>)
    requires second != [] && Run(env, s, first + second).Some?
    ensures var init := first + second[..|second| - 1];
            && Run(env, s, init).Some?
            && Run(env, s, first + second) == Apply(env, Run(env, s, init).value, second[|second| - 1])
  {
    assert (first + second)[..|first + second| - 1] == first + second[..|second| - 1];
  }

  /**
   * Between any two moments of a run: generations never decrease, within a generation a row only moves
   * forward and keeps its edit, a served material stays served until it is deleted, and no id comes back.
   */
  lemma {:induction false} RowsOnlyGrow(env: World, s: System, first: seq<Action>, second: seq<Action>)
    requires Initial(env, s) && Run(env, s, first).Some? && Run(env, s, first + second).Some?
    ensures Grew(Run(env, s, first).value.db, Run(env, s, first + second).value.db)
    decreases |second|
  {
    if second == [] {
      RunKeeps(env, s, first);
      assert first + second == first;
    } else {
      var init := second[..|second| - 1];
      ConcatRuns(env, s, first, second);
      RowsOnlyGrow(env, s, first, init);
      var before := Run(env, s, first + init).value;
      RunKeeps(env, s, first + init);
      StepEvolves(env, before, second[|second| - 1]);
      StepGrew(env, Run(env, s, first).value.db, before.db, Run(env, s, first + second).value.db);
    }
  }

  /** Every entry into the queue carries a generation one higher; nothing else changes a generation. */
  lemma {:induction false} QueueEntriesAreFresh(env: World, s: System, actions: seq<Action>, action: Action, id: nat)
    requires Initial(env, s) && Run(env, s, actions).Some?
    requires var before := Run(env, s, actions).value;
             && Apply(env, before, action).Some?
             && id in before.db.materials && id in Apply(env, before, action).value.db.materials
    ensures var before := Run(env, s, actions).value;
            var m, n := before.db.materials[id], Apply(env, before, action).value.db.materials[id];
            && (m.status != Pending && n.status == Pending ==> n.generation == m.generation + 1)
            && (n.generation != m.generation ==> n.status == Pending && n.generation == m.generation + 1)
  {
    var before := Run(env, s, actions).value;
    RunKeeps(env, s, actions);
    StepEvolves(env, before, action);
    assert RowEvolves(env, before.db.materials[id], Apply(env, before, action).value.db.materials[id]);
  }

  // ---------------------------------------------------------------- who writes chunks

  ghost predicate WroteByRight(s: System, action: Action, id: nat, m: Material, n: Material) {
    && (n.v2 != m.v2 ==>
          && action.PersistResult? && action.attempt in s.attempts
          && s.attempts[action.attempt].task.material == id
          && Holds(s.db, id, s.attempts[action.attempt].task.generation))
    && (n.legacy != m.legacy ==> action.RetireLegacy? && MayRetire(s.db.versions, s.clock))
  }

  lemma TablesWrite(env: World, s: System, action: Action, id: nat)
    requires s.db.nextId !in s.db.materials && TablesOnly(action) && Apply(env, s, action).Some?
    requires id in s.db.materials && id in Apply(env, s, action).value.db.materials
    ensures WroteByRight(s, action, id, s.db.materials[id], Apply(env, s, action).value.db.materials[id])
  {
  }

  lemma {:induction false} StepWrites(env: World, s: System, action: Action, id: nat)
    requires s.db.nextId !in s.db.materials && Apply(env, s, action).Some?
    requires id in s.db.materials && id in Apply(env, s, action).value.db.materials
    ensures WroteByRight(s, action, id, s.db.materials[id], Apply(env, s, action).value.db.materials[id])
  {
    if TablesOnly(action) {
      TablesWrite(env, s, action, id);
    }
  }

  /** Chunk rows change only by a persist of the generation being parsed, or by retiring the legacy index. */
  lemma {:induction false} ChunksChangeOnlyUnderTheirWriter(env: World, s: System, actions: seq<Action>, action: Action, id: nat)
    requires Initial(env, s) && Run(env, s, actions).Some?
    requires var before := Run(env, s, actions).value;
             && Apply(env, before, action).Some?
             && id in before.db.materials && id in Apply(env, before, action).value.db.materials
    ensures var before := Run(env, s, actions).value;
            WroteByRight(before, action, id, before.db.materials[id],
                         Apply(env, before, action).value.db.materials[id])
  {
    RunKeeps(env, s, actions);
    StepWrites(env, Run(env, s, actions).value, action, id);
  }

  // ---------------------------------------------------------------- the life of a generation

  /** Whether an event may come next: claim, then persists, then one finish, then one alert after a failure. */
  ghost predicate MayFollow(log: seq<Event>, e: Event) {
    match e
    case DidClaim(id, g) => forall f :: f in log ==> f.material != id || f.generation != g
    case DidPersist(id, g) => DidClaim(id, g) in log && Unfinished(log, id, g)
    case DidFinish(id, g, ok) =>
      DidClaim(id, g) in log && Unfinished(log, id, g) && (ok ==> DidPersist(id, g) in log)
    case DidAlert(id, g) => DidFinish(id, g, false) in log && DidAlert(id, g) !in log
  }

  ghost predicate Unfinished(log: seq<Event>, id: nat, g: nat) {
    DidFinish(id, g, true) !in log && DidFinish(id, g, false) !in log
  }

  ghost predicate WellOrdered(log: seq<Event>) {
    forall i :: 0 <= i < |log| ==> MayFollow(log[..i], log[i])
  }

  /** Everything under way was claimed. */
  ghost predicate Claimed(s: System) {
    && (forall w :: w in s.workers ==>
          DidClaim(s.workers[w].task.material, s.workers[w].task.generation) in s.log)
    && (forall a :: a in s.attempts ==>
          DidClaim(s.attempts[a].task.material, s.attempts[a].task.generation) in s.log)
  }

  /** The events that one action adds. */
  ghost predicate LogsNext(s: System, t: System) {
    t.log == s.log || exists e :: MayFollow(s.log, e) && t.log == s.log + [e]
  }

  lemma LogsOne(s: System, t: System, e: Event)
    requires MayFollow(s.log, e) && t.log == s.log + [e]
    ensures LogsNext(s, t)
  {
  }

  lemma NothingBeforeTheClaim(env: World, s: System, id: nat, g: nat)
    requires Inv(env, s) && !Past(s.db, id, g)
    ensures MayFollow(s.log, DidClaim(id, g))
  {
    forall f | f in s.log ensures f.material != id || f.generation != g {
      var i :| 0 <= i < |s.log| && s.log[i] == f;
      EventKnown(env, s.db, s.log, i);
      if f.DidAlert? {
        var j :| 0 <= j < |s.log| && s.log[j] == DidFinish(f.material, f.generation, false);
        EventKnown(env, s.db, s.log, j);
      }
    }
  }

  lemma HeldIsUnfinished(env: World, s: System, id: nat, g: nat)
    requires Inv(env, s) && Holds(s.db, id, g)
    ensures Unfinished(s.log, id, g)
  {
    HeldIsOpen(env, s, id, g, true);
  }

  lemma ClaimLogs(env: World, s: System, id: nat)
    requires Inv(env, s)
    ensures LogsNext(s, ClaimStep(s, id))
  {
    var claimed := Claim(s.db, id).1;
    if claimed.Some? {
      ClaimedTask(env, s.db, id);
      NothingBeforeTheClaim(env, s, id, claimed.value.generation);
      LogsOne(s, ClaimStep(s, id), DidClaim(id, claimed.value.generation));
    }
  }

  lemma FinishLogs(env: World, s: System, w: nat, message: string)
    requires Inv(env, s) && Claimed(s) && FinishStep(s, w, message).Some?
    ensures LogsNext(s, FinishStep(s, w, message).value)
  {
    var task, ok := s.workers[w].task, s.workers[w].phase.ok;
    if Holds(s.db, task.material, task.generation) {
      WorkerKnown(env, s, w);
      HeldIsUnfinished(env, s, task.material, task.generation);
      LogsOne(s, FinishStep(s, w, message).value, DidFinish(task.material, task.generation, ok));
    }
  }

  lemma PersistLogs(env: World, s: System, a: nat)
    requires Inv(env, s) && Claimed(s) && PersistStep(s, a).Some?
    ensures LogsNext(s, PersistStep(s, a).value)
  {
    var task := s.attempts[a].task;
    if Holds(s.db, task.material, task.generation) {
      HeldIsUnfinished(env, s, task.material, task.generation);
      LogsOne(s, PersistStep(s, a).value, DidPersist(task.material, task.generation));
    }
  }

  lemma AlertLogs(env: World, s: System, w: nat)
    requires Inv(env, s) && AlertStep(s, w).Some?
    ensures LogsNext(s, AlertStep(s, w).value)
  {
    var task := s.workers[w].task;
    WorkerKnown(env, s, w);
    LogsOne(s, AlertStep(s, w).value, DidAlert(task.material, task.generation));
  }

  lemma {:induction false} StepLogs(env: World, s: System, action: Action)
    requires Inv(env, s) && Claimed(s) && Apply(env, s, action).Some?
    ensures LogsNext(s, Apply(env, s, action).value)
  {
    hide Inv, MayFollow;
    match action
    case ClaimTask(id) => ClaimLogs(env, s, id);
    case FinishTask(w, message) => FinishLogs(env, s, w, message);
    case PersistResult(a) => PersistLogs(env, s, a);
    case SendAlert(w) => AlertLogs(env, s, w);
    case _ =>
  }

  /** Actions on the tables leave workers, attempts and log alone. */
  lemma TablesOnlyElse(env: World, s: System, action: Action)
    requires TablesOnly(action)
    ensures Apply(env, s, action).Some?
    ensures Apply(env, s, action).value == WithDb(s, Apply(env, s, action).value.db)
  {
  }

  lemma ClaimClaims(s: System, id: nat)
    requires Claimed(s)
    ensures Claimed(ClaimStep(s, id))
  {
  }

  lemma SendClaims(s: System, w: nat)
    requires Claimed(s) && SendStep(s, w).Some?
    ensures Claimed(SendStep(s, w).value)
  {
  }

  /** Actions other than a claim start no task. */
  ghost predicate NoNewTasks(s: System, t: System) {
    && (forall w :: w in t.workers ==> w in s.workers && t.workers[w].task == s.workers[w].task)
    && (forall a :: a in t.attempts ==> a in s.attempts && t.attempts[a].task == s.attempts[a].task)
    && s.log <= t.log
  }

  lemma OldTasksClaimed(s: System, t: System)
    requires Claimed(s) && NoNewTasks(s, t)
    ensures Claimed(t)
  {
    assert forall e :: e in s.log ==> e in t.log;
  }

  lemma OthersStartNoTask(env: World, s: System, action: Action)
    requires !TablesOnly(action) && !action.ClaimTask? && !action.SendRequest? && Apply(env, s, action).Some?
    ensures NoNewTasks(s, Apply(env, s, action).value)
  {
    hide Process, Persist, Finish, ExtractText;
  }

  lemma {:induction false} StepClaims(env: World, s: System, action: Action)
    requires Claimed(s) && Apply(env, s, action).Some?
    ensures Claimed(Apply(env, s, action).value)
  {
    hide Claimed;
    if TablesOnly(action) {
      TablesOnlyElse(env, s, action);
      SameTasks(s, Apply(env, s, action).value.db);
    } else if action.ClaimTask? {
      ClaimClaims(s, action.material);
    } else if action.SendRequest? {
      SendClaims(s, action.worker);
    } else {
      OthersStartNoTask(env, s, action);
      OldTasksClaimed(s, Apply(env, s, action).value);
    }
  }

  lemma SameTasks(s: System, db: Db)
    requires Claimed(s)
    ensures Claimed(WithDb(s, db))
  {
  }

  lemma OrderExtends(log: seq<Event>, e: Event)
    requires WellOrdered(log) && MayFollow(log, e)
    ensures WellOrdered(log + [e])
  {
    forall i | 0 <= i < |log + [e]| ensures MayFollow((log + [e])[..i], (log + [e])[i]) {
      assert (log + [e])[..i] == log[..i];
      assert log[..|log|] == log;
    }
  }

  /**
   * In every run each generation is claimed once before anything else happens to it, persisted only until
   * it is finished, finished once, as done only after a persist, and alerted about once after a failure.
   */
  lemma {:induction false} GenerationsLiveOnce(env: World, s: System, actions: seq<Action>)
    requires Initial(env, s) && Run(env, s, actions).Some?
    ensures WellOrdered(Run(env, s, actions).value.log) && Claimed(Run(env, s, actions).value)
    decreases |actions|
  {
    if actions != [] {
      var init, last := actions[..|actions| - 1], actions[|actions| - 1];
      var before := Run(env, s, init).value;
      GenerationsLiveOnce(env, s, init);
      RunKeeps(env, s, init);
      StepLogs(env, before, last);
      StepClaims(env, before, last);
      if Apply(env, before, last).value.log != before.log {
        var e :| MayFollow(before.log, e) && Apply(env, before, last).value.log == before.log + [e];
        OrderExtends(before.log, e);
      }
    }
  }

  /**
   * A stale answer counted as success is harmless: when completing a task as done takes effect, a persist
   * of that same material and generation has committed before.
   */
  lemma DoneOnlyAfterPersist(env: World, s: System, actions: seq<Action>, w: nat, message: string)
    requires Initial(env, s) && Run(env, s, actions).Some?
    requires FinishStep(Run(env, s, actions).value, w, message).Some?
    ensures var before := Run(env, s, actions).value;
            var task := before.workers[w].task;
            before.workers[w].phase == Verdict(true) && Finish(before.db, task.material, task.generation, None).1 ==>
              && DidPersist(task.material, task.generation) in before.log
              && Indexed(env, before.db.materials[task.material])
  {
    var before := Run(env, s, actions).value;
    RunKeeps(env, s, actions);
    WorkerKnown(env, before, w);
    var task := before.workers[w].task;
    if before.workers[w].phase == Verdict(true) && Holds(before.db, task.material, task.generation) {
      PersistedIsIndexed(env, before, task.material, task.generation);
    }
  }

  // ---------------------------------------------------------------- edits

  /**
   * In every reachable state a done material that was persisted at its generation holds chunks built from
   * the stored content, and the stored content is what one or more parses make of the latest user edit.
   */
  lemma DoneMaterialsHoldTheLatestEdit(env: World, s: System, actions: seq<Action>, id: nat)
    requires Initial(env, s) && Run(env, s, actions).Some?
    requires id in Run(env, s, actions).value.db.materials
    requires Run(env, s, actions).value.db.materials[id].status == Done
    requires Run(env, s, actions).value.db.materials[id].v2 != []
    ensures var m := Run(env, s, actions).value.db.materials[id];
            && m.passes >= 1 && m.content.Some?
            && BuiltFrom(env, m.v2, m.content.value)
            && ParseTimes(env, Deref(m.fileType), Deref(m.storageKey), m.passes, m.edit) == m.content
  {
    var t := Run(env, s, actions).value;
    RunKeeps(env, s, actions);
    var i :| 0 <= i < |t.log| && t.log[i] == DidPersist(id, t.db.materials[id].generation);
    EventKnown(env, t.db, t.log, i);
  }

  // ---------------------------------------------------------------- what the served chunks were made of

  /** No action writes legacy chunks: a row keeps those of the migration, or has none. */
  lemma LegacyStep(env: World, s: System, action: Action, id: nat)
    requires Apply(env, s, action).Some? && id in Apply(env, s, action).value.db.materials
    ensures var legacy := Apply(env, s, action).value.db.materials[id].legacy;
            legacy == [] || (id in s.db.materials && legacy == s.db.materials[id].legacy)
  {
    if TablesOnly(action) {
      LegacyTablesStep(env, s, action, id);
    }
  }

  lemma LegacyTablesStep(env: World, s: System, action: Action, id: nat)
    requires TablesOnly(action) && Apply(env, s, action).Some?
    requires id in Apply(env, s, action).value.db.materials
    ensures var legacy := Apply(env, s, action).value.db.materials[id].legacy;
            legacy == [] || (id in s.db.materials && legacy == s.db.materials[id].legacy)
  {
  }

  lemma {:induction false} LegacyIsFromTheMigration(env: World, s: System, actions: seq<Action>, id: nat)
    requires Run(env, s, actions).Some? && id in Run(env, s, actions).value.db.materials
    ensures var legacy := Run(env, s, actions).value.db.materials[id].legacy;
            legacy == [] || (id in s.db.materials && legacy == s.db.materials[id].legacy)
    decreases |actions|
  {
    if actions != [] {
      var init := actions[..|actions| - 1];
      var before := Run(env, s, init).value;
      LegacyStep(env, before, actions[|actions| - 1], id);
      if id in before.db.materials {
        LegacyIsFromTheMigration(env, s, init, id);
      }
    }
  }

  /**
   * What a done material serves: under rag-v2 chunks built from the stored content, which comes from the
   * latest edit; under legacy the very chunks that the migration left, whatever was edited since.
   */
  lemma ServedText(env: World, s: System, actions: seq<Action>, id: nat)
    requires Initial(env, s) && Run(env, s, actions).Some?
    requires id in Run(env, s, actions).value.db.materials
    requires Run(env, s, actions).value.db.materials[id].status == Done
    ensures var m := Run(env, s, actions).value.db.materials[id];
            && (m.index == RagV2 ==> m.content.Some? && BuiltFrom(env, Visible(m), m.content.value))
            && (m.index == LegacyV1 ==>
                  id in s.db.materials && Visible(m) == s.db.materials[id].legacy && HasBody(Visible(m)))
  {
    var m := Run(env, s, actions).value.db.materials[id];
    DoneMaterialsAreServed(env, s, actions);
    LegacyIsFromTheMigration(env, s, actions, id);
    if m.v2 != [] {
      DoneMaterialsHoldTheLatestEdit(env, s, actions, id);
    }
  }

  // ---------------------------------------------------------------- rollout scripts

  /** The tables at the end of a run that starts after the migration. */
  ghost predicate Reached(env: World, db: Db) {
    exists s, actions :: Initial(env, s) && Run(env, s, actions).Some? && Run(env, s, actions).value.db == db
  }

  lemma ReachedIsSound(env: World, db: Db)
    requires Reached(env, db)
    ensures DbSound(env, db)
  {
    var s, actions :| Initial(env, s) && Run(env, s, actions).Some? && Run(env, s, actions).value.db == db;
    RunKeeps(env, s, actions);
  }

  /** Only the two guards can stop an activation, and nothing can stop a rollback: no statement breaks the index. */
  lemma ScriptsNeverBreakTheUniqueIndex(env: World, db: Db, percentage: nat, now: nat)
    ensures Rollback(db, now).Some?
    ensures Activate(env, db, percentage, now).Some? <==>
            (percentage == 10 || percentage == 50 || percentage == 100) &&
            forall id :: id in db.materials ==> ReadyForV2(db.materials[id])
  {
  }

  /** Everything an activation sets, except when the legacy index was first activated. */
  ghost predicate SameRollout(a: Db, b: Db) {
    && a.materials == b.materials
    && a.versions.v2 == b.versions.v2 && a.versions.legacy == b.versions.legacy
    && a.versions.v2Since == b.versions.v2Since
  }

  lemma StillReady(env: World, db: Db, p: nat, now: nat)
    requires Activate(env, db, p, now).Some?
    ensures var first := Activate(env, db, p, now).value;
            && first.materials.Keys == db.materials.Keys
            && forall id :: id in first.materials ==> ReadyForV2(first.materials[id])
  {
    var first := Activate(env, db, p, now).value;
    forall id | id in first.materials ensures ReadyForV2(first.materials[id]) {
      assert ReadyForV2(db.materials[id]);
    }
  }

  lemma ActivatedVersions(env: World, db: Db, p: nat, now: nat)
    requires (p == 10 || p == 50 || p == 100)
    requires forall id :: id in db.materials ==> ReadyForV2(db.materials[id])
    ensures Activate(env, db, p, now).Some?
    ensures var after := Activate(env, db, p, now).value;
            && after.versions.v2 == (if p == 100 then Active else Building)
            && after.versions.v2Since == (if p == 100 then Some(now) else None)
            && after.versions.legacy ==
               (if p != 100 then Active else if db.versions.legacy == Active then Retired else db.versions.legacy)
            && after.materials ==
               map id | id in db.materials :: Reassigned(env, id, db.materials[id], p)
  {
  }

  /** Only the last percentage counts for where materials and versions stand. */
  lemma LastActivationWins(env: World, db: Db, p: nat, q: nat, now: nat, later: nat)
    requires Reached(env, db)
    requires Activate(env, db, p, now).Some? && (q == 10 || q == 50 || q == 100)
    ensures var first := Activate(env, db, p, now).value;
            && Activate(env, first, q, later).Some? && Activate(env, db, q, later).Some?
            && SameRollout(Activate(env, first, q, later).value, Activate(env, db, q, later).value)
  {
    ReachedIsSound(env, db);
    var first := Activate(env, db, p, now).value;
    StillReady(env, db, p, now);
    ActivatedVersions(env, db, p, now);
    ActivatedVersions(env, db, q, later);
    ActivatedVersions(env, first, q, later);
    SameAssignments(env, db, first, p, q);
  }

  lemma SameAssignments(env: World, db: Db, first: Db, p: nat, q: nat)
    requires first.materials == map id | id in db.materials :: Reassigned(env, id, db.materials[id], p)
    ensures (map id | id in first.materials :: Reassigned(env, id, first.materials[id], q)) ==
            (map id | id in db.materials :: Reassigned(env, id, db.materials[id], q))
  {
  }

  /** Of two assignments by the script, the one with the larger percentage gives rag-v2 to no fewer materials. */
  lemma CohortsGrow(env: World, id: nat, m: Material, p: nat, q: nat)
    requires p <= q <= 100
    ensures Assigned(env, id, m, p) == RagV2 ==> Assigned(env, id, m, q) == RagV2
  {
  }

  /**
   * Running the same percentage again changes nothing, except that at 100 it restarts the clock that
   * retirement waits for; the operating manual calls every repetition idempotent.
   */
  lemma RepeatedActivation(env: World, db: Db, p: nat, now: nat, later: nat)
    requires Reached(env, db) && Activate(env, db, p, now).Some?
    ensures var first := Activate(env, db, p, now).value;
            && Activate(env, first, p, later).Some?
            && Activate(env, first, p, later).value.materials == first.materials
            && (Activate(env, first, p, later) == Some(first) <==> p != 100 || later == now)
  {
    LastActivationWins(env, db, p, p, now, later);
    var first := Activate(env, db, p, now).value;
    var again := Activate(env, first, p, later).value;
    if p != 100 || later == now {
      assert again.versions == first.versions;
    } else {
      assert again.versions.v2Since == Some(later);
    }
  }

  /** A rollback returns every material that has legacy chunks to them, whatever was activated before. */
  lemma RollbackUndoesActivation(env: World, db: Db, p: nat, now: nat, later: nat, id: nat)
    requires Reached(env, db) && Activate(env, db, p, now).Some? && id in db.materials
    ensures var after := Rollback(Activate(env, db, p, now).value, later);
            && after.Some?
            && after.value.versions.legacy == Active && after.value.versions.v2 == Building
            && (db.materials[id].legacy != [] ==> after.value.materials[id].index == LegacyV1)
            && (db.materials[id].legacy == [] ==> after.value.materials[id].index == RagV2)
            && Served(after.value.materials[id])
  {
    ReachedIsSound(env, db);
    var m := db.materials[id];
    assert ReadyForV2(m);
    if m.legacy != [] {
      assert m.legacy[0].kind == Body;
    }
  }

  /** After an activation and any wait, retirement leaves every material with the chunks it served before. */
  lemma RetiringChangesNothingServed(env: World, db: Db, now: nat, id: nat)
    requires Reached(env, db) && Retire(db, now).Some? && id in db.materials
    ensures Visible(Retire(db, now).value.materials[id]) == Visible(db.materials[id])
    ensures Retire(db, now).value.materials[id].legacy == []
  {
    ReachedIsSound(env, db);
    RetireRow(env, db.materials[id]);
  }

  // ---------------------------------------------------------------- fourteen days

  lemma StepClock(env: World, s: System, action: Action)
    requires Apply(env, s, action).Some?
    ensures s.clock <= Apply(env, s, action).value.clock
    ensures var v, w := s.db.versions, Apply(env, s, action).value.db.versions;
            w.v2 == Active ==> (v.v2 == Active && v.v2Since == w.v2Since) || w.v2Since == Some(s.clock)
  {
  }

  lemma {:induction false} PrefixesRun(env: World, s: System, actions: seq<Action>, k: nat)
    requires Run(env, s, actions).Some? && k <= |actions|
    ensures Run(env, s, actions[..k]).Some?
    ensures Run(env, s, actions[..k]).value.clock <= Run(env, s, actions).value.clock
    decreases |actions|
  {
    assert actions[..|actions|] == actions;
    if k < |actions| {
      var init := actions[..|actions| - 1];
      StepClock(env, Run(env, s, init).value, actions[|actions| - 1]);
      PrefixesRun(env, s, init, k);
      assert init[..k] == actions[..k];
    }
  }

  /**
   * Legacy chunks are deleted only after fourteen days of rag-v2 without a break: in every state of the run
   * within the fourteen days before, rag-v2 was the active version.
   */
  lemma {:induction false} ActiveSince(env: World, s: System, actions: seq<Action>, k: nat)
    requires Run(env, s, actions).Some? && k <= |actions| && Run(env, s, actions[..k]).Some?
    requires Run(env, s, actions).value.db.versions.v2 == Active
    requires Run(env, s, actions).value.db.versions.v2Since.Some?
    requires Run(env, s, actions).value.db.versions.v2Since.value < Run(env, s, actions[..k]).value.clock
    ensures Run(env, s, actions[..k]).value.db.versions.v2 == Active
    decreases |actions|
  {
    assert actions[..|actions|] == actions;
    if k < |actions| {
      var init := actions[..|actions| - 1];
      var before := Run(env, s, init).value;
      StepClock(env, before, actions[|actions| - 1]);
      PrefixesRun(env, s, init, k);
      assert init[..k] == actions[..k];
      ActiveSince(env, s, init, k);
    }
  }

  lemma RetiredOnlyAfterAFortnight(env: World, s: System, actions: seq<Action>, k: nat)
    requires Run(env, s, actions).Some? && k <= |actions|
    requires Retire(Run(env, s, actions).value.db, Run(env, s, actions).value.clock).Some?
    ensures Run(env, s, actions[..k]).Some?
    ensures var past, end := Run(env, s, actions[..k]).value, Run(env, s, actions).value;
            end.clock < past.clock + FORTNIGHT ==> past.db.versions.v2 == Active
  {
    PrefixesRun(env, s, actions, k);
    if Run(env, s, actions).value.clock < Run(env, s, actions[..k]).value.clock + FORTNIGHT {
      ActiveSince(env, s, actions, k);
    }
  }
}
