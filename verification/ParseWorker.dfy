/** The retry loop of a Backend worker. */
module ParseWorker {
  import opened Materials
  import opened ParseProtocol

  /**
   * Asks the Agent until an attempt succeeds, the tries are used up, or the worker is cancelled while it
   * backs off. The verdict is the outcome of the last attempt.
   */
  method ParseWithRetry(start: Worker, succeeds: nat -> bool, cancelled: nat -> bool) returns (worker: Worker)
    requires start.tries == 0 && start.phase == Ready
    ensures worker.task == start.task && worker.phase == Verdict(succeeds(worker.tries))
    ensures 1 <= worker.tries <= MAX_ATTEMPTS
    ensures forall k :: 1 <= k < worker.tries ==> !succeeds(k) && !cancelled(k)
    ensures succeeds(worker.tries) || cancelled(worker.tries) || worker.tries == MAX_ATTEMPTS
  {
    worker := start;
    while true
      invariant worker.task == start.task && worker.phase == Ready && worker.tries < MAX_ATTEMPTS
      invariant forall k :: 1 <= k <= worker.tries ==> !succeeds(k) && !cancelled(k)
      decreases MAX_ATTEMPTS - worker.tries
    {
      worker := worker.(tries := worker.tries + 1);
      if succeeds(worker.tries) {
        return worker.(phase := Verdict(true));
      }
      worker := AfterFailure(worker);
      if worker.phase.Verdict? {
        return;
      }
      if cancelled(worker.tries) {
        return worker.(phase := Verdict(false));
      }
    }
  }
}
