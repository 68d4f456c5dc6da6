/** How often the Agent is asked: at most three times for each generation, over every run. */
module ParseAttempts {
  import opened Documents
  import opened Materials
  import opened ParseProtocol
  import opened ParseSafety
  import opened ParseSteps
  import opened ParseTheorems

  function AttemptsIn(attempts: map<nat, Attempt>, id: nat, g: nat): set<nat> {
    set a | a in attempts && attempts[a].task.material == id && attempts[a].task.generation == g
  }

  /** The attempts made at a generation. */
  function AttemptsAt(s: System, id: nat, g: nat): set<nat> {
    AttemptsIn(s.attempts, id, g)
  }

  /** No more attempts than tries of the worker that makes them, and no more than three when it is gone. */
  ghost predicate Bounded(s: System) {
    && (forall id, g :: |AttemptsAt(s, id, g)| <= 3)
    && forall w :: w in s.workers ==>
         && s.workers[w].tries <= 3
         && |AttemptsAt(s, s.workers[w].task.material, s.workers[w].task.generation)| <= s.workers[w].tries
  }

  /** The attempts are at the same tasks, and the workers that are left have the same tasks and tries. */
  ghost predicate SameTries(s: System, t: System) {
    && (forall a :: a in t.attempts <==> a in s.attempts)
    && (forall a :: a in t.attempts ==> t.attempts[a].task == s.attempts[a].task)
    && forall w :: w in t.workers ==>
         w in s.workers && t.workers[w].task == s.workers[w].task && t.workers[w].tries == s.workers[w].tries
  }

  lemma SameTriesBounded(s: System, t: System)
    requires Bounded(s) && SameTries(s, t)
    ensures Bounded(t)
  {
    forall id, g ensures AttemptsAt(t, id, g) == AttemptsAt(s, id, g) {
    }
  }

  lemma {:induction false} OthersKeepTries(env: World, s: System, action: Action)
    requires !action.ClaimTask? && !action.SendRequest? && Apply(env, s, action).Some?
    ensures SameTries(s, Apply(env, s, action).value)
  {
    hide Process, Persist, Finish, ExtractText, Activate, Rollback, Retire, Reindex, RequeueInterrupted;
    if TablesOnly(action) {
      TablesOnlyElse(env, s, action);
    }
  }

  /** A generation that waits to be claimed has seen no attempt. */
  lemma NoAttemptBeforeTheClaim(env: World, s: System, id: nat)
    requires Inv(env, s) && Claim(s.db, id).1.Some?
    ensures AttemptsAt(s, id, Claim(s.db, id).1.value.generation) == {}
  {
    var g := Claim(s.db, id).1.value.generation;
    ClaimedTask(env, s.db, id);
    forall a | a in AttemptsAt(s, id, g) ensures false {
      AttemptKnown(env, s, a);
    }
  }

  lemma {:induction false} ClaimBounded(env: World, s: System, id: nat)
    requires Inv(env, s) && Bounded(s)
    ensures Bounded(ClaimStep(s, id))
  {
    if Claim(s.db, id).1.Some? {
      NoAttemptBeforeTheClaim(env, s, id);
      var t := ClaimStep(s, id);
      forall k, g ensures AttemptsAt(t, k, g) == AttemptsAt(s, k, g) {
      }
    }
  }

  lemma NextAttemptIsNew(env: World, s: System)
    requires Inv(env, s)
    ensures s.nextAttempt !in s.attempts
  {
  }

  lemma WorkersDiffer(env: World, s: System, v: nat, w: nat)
    requires Inv(env, s) && v in s.workers && w in s.workers && v != w
    ensures !SameGeneration(s.workers[v].task, s.workers[w].task)
  {
  }

  lemma OneMoreAttempt(attempts: map<nat, Attempt>, a: nat, attempt: Attempt, id: nat, g: nat)
    requires a !in attempts
    ensures |AttemptsIn(attempts[a := attempt], id, g)| ==
            |AttemptsIn(attempts, id, g)| +
              (if id == attempt.task.material && g == attempt.task.generation then 1 else 0)
  {
    if id == attempt.task.material && g == attempt.task.generation {
      assert AttemptsIn(attempts[a := attempt], id, g) == AttemptsIn(attempts, id, g) + {a};
    } else {
      assert AttemptsIn(attempts[a := attempt], id, g) == AttemptsIn(attempts, id, g);
    }
  }

  lemma {:induction false} AttemptsAfterSend(s: System, w: nat, id: nat, g: nat)
    requires SendStep(s, w).Some? && s.nextAttempt !in s.attempts
    ensures var task := s.workers[w].task;
            |AttemptsAt(SendStep(s, w).value, id, g)| ==
            |AttemptsAt(s, id, g)| + (if id == task.material && g == task.generation then 1 else 0)
  {
    hide AttemptsIn;
    OneMoreAttempt(s.attempts, s.nextAttempt, Attempt(s.workers[w].task, Started), id, g);
  }

  lemma {:induction false} SendBounded(env: World, s: System, w: nat)
    requires Inv(env, s) && Bounded(s) && SendStep(s, w).Some?
    ensures Bounded(SendStep(s, w).value)
  {
    hide Inv, AttemptsAt, AttemptsIn;
    var t, task := SendStep(s, w).value, s.workers[w].task;
    NextAttemptIsNew(env, s);
    forall id, g ensures |AttemptsAt(t, id, g)| <= 3 {
      AttemptsAfterSend(s, w, id, g);
    }
    forall v | v in t.workers
      ensures |AttemptsAt(t, t.workers[v].task.material, t.workers[v].task.generation)| <= t.workers[v].tries
    {
      AttemptsAfterSend(s, w, t.workers[v].task.material, t.workers[v].task.generation);
      if v != w {
        WorkersDiffer(env, s, v, w);
      }
    }
  }

  /** In every run the Agent is asked at most three times for each generation of a material. */
  lemma {:induction false} AtMostThreeAttempts(env: World, s: System, actions: seq<Action>)
    requires Initial(env, s) && Run(env, s, actions).Some?
    ensures Bounded(Run(env, s, actions).value)
    decreases |actions|
  {
    if actions == [] {
      forall id, g ensures AttemptsAt(s, id, g) == {} {
      }
    } else {
      hide Inv, Bounded, Run, Apply, SameTries;
      var init, last := actions[..|actions| - 1], actions[|actions| - 1];
      RunUnfolds(env, s, actions);
      var before := Run(env, s, init).value;
      AtMostThreeAttempts(env, s, init);
      RunKeeps(env, s, init);
      StepBounded(env, before, last);
    }
  }

  lemma RunUnfolds(env: World, s: System, actions: seq<Action>)
    requires actions != [] && Run(env, s, actions).Some?
    ensures Run(env, s, actions[..|actions| - 1]).Some?
    ensures Run(env, s, actions) ==
            Apply(env, Run(env, s, actions[..|actions| - 1]).value, actions[|actions| - 1])
  {
  }

  lemma {:induction false} StepBounded(env: World, s: System, action: Action)
    requires Inv(env, s) && Bounded(s) && Apply(env, s, action).Some?
    ensures Bounded(Apply(env, s, action).value)
  {
    hide Inv, Bounded, SameTries;
    if action.ClaimTask? {
      ClaimBounded(env, s, action.material);
    } else if action.SendRequest? {
      SendBounded(env, s, action.worker);
    } else {
      OthersKeepTries(env, s, action);
      SameTriesBounded(s, Apply(env, s, action).value);
    }
  }
}
