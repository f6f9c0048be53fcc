/**
 * The Postgres job queue (lib/queue/pg-queue.ts). A job is named by its
 * position in the table. The functions below are the single statements; the
 * class issues them the way one process does, and JobQueueRace interleaves
 * those of many workers.
 */
module JobQueue {
  import opened Common

  datatype Status = Pending | Processing | Completed | DeadLetter
  datatype Job = Job(queue: string, status: Status, runAt: int, attempts: nat, maxAttempts: int,
                     lockedBy: Option<nat>, lastError: Option<string>)
  datatype Claim = Claim(id: nat, attempts: nat, maxAttempts: int)

  const DEFAULT_MAX_ATTEMPTS := 5

  predicate Due(j: Job, queue: string, now: int) {
    j.queue == queue && j.status == Pending && j.runAt <= now
  }

  predicate Ended(j: Job) { j.status == Completed || j.status == DeadLetter }

  function Claimed(j: Job, worker: nat): Job { j.(status := Processing, lockedBy := Some(worker)) }

  function Succeeded(j: Job): Job { j.(status := Completed) }

  /** The write of `markFailed`, made from the counters it has read. */
  function Failed(j: Job, attempts: nat, maxAttempts: int, error: string, runAt: int): Job {
    if attempts + 1 >= maxAttempts
    then j.(status := DeadLetter, attempts := attempts + 1, lastError := Some(error))
    else j.(status := Pending, attempts := attempts + 1, lastError := Some(error), runAt := runAt, lockedBy := None)
  }

  /** How often the handler can still be started for this job. */
  function RunsLeft(j: Job): nat {
    if j.status != Pending then 0 else Max(1, j.maxAttempts - j.attempts)
  }

  // ---- One process --------------------------------------------------------

  class PgJobQueue {
    var jobs: seq<Job>

    constructor ()
      ensures jobs == []
    {
      jobs := [];
    }

    method Enqueue(queue: string, runAt: Option<int>, maxAttempts: Option<int>, now: int) returns (id: nat)
      modifies this
      ensures id == |old(jobs)| && |jobs| == id + 1 && jobs[..id] == old(jobs)
      ensures jobs[id] == Job(queue, Pending, if runAt.Some? then runAt.value else now, 0,
                              if maxAttempts.Some? then maxAttempts.value else 5, None, None)
    {
      id := |jobs|;
      jobs := jobs + [Job(queue, Pending, if runAt.Some? then runAt.value else now, 0,
                          if maxAttempts.Some? then maxAttempts.value else DEFAULT_MAX_ATTEMPTS, None, None)];
    }

    /** SELECT ... ORDER BY run_at LIMIT 1, then the claiming UPDATE. */
    method ClaimNext(queue: string, worker: nat, now: int) returns (claim: Option<Claim>)
      modifies this
      ensures claim.None? ==> jobs == old(jobs) && forall i :: 0 <= i < |jobs| ==> !Due(jobs[i], queue, now)
      ensures claim.Some? ==>
        var id := claim.value.id;
        && id < |old(jobs)| && Due(old(jobs)[id], queue, now)
        && (forall i :: 0 <= i < |old(jobs)| && Due(old(jobs)[i], queue, now) ==>
            old(jobs)[id].runAt <= old(jobs)[i].runAt)
        && claim.value == Claim(id, old(jobs)[id].attempts, old(jobs)[id].maxAttempts)
        && jobs == old(jobs)[id := Claimed(old(jobs)[id], worker)]
    {
      var best: Option<nat> := None;
      for i := 0 to |jobs|
        invariant jobs == old(jobs)
        invariant best.None? ==> forall k :: 0 <= k < i ==> !Due(jobs[k], queue, now)
        invariant best.Some? ==> best.value < i && Due(jobs[best.value], queue, now)
        invariant best.Some? ==>
          forall k :: 0 <= k < i && Due(jobs[k], queue, now) ==> jobs[best.value].runAt <= jobs[k].runAt
      {
        if Due(jobs[i], queue, now) && (best.None? || jobs[i].runAt < jobs[best.value].runAt) { best := Some(i); }
      }
      if best.None? { return None; }
      var job := jobs[best.value];
      jobs := jobs[best.value := Claimed(job, worker)];
      return Some(Claim(best.value, job.attempts, job.maxAttempts));
    }

    method MarkCompleted(id: nat)
      modifies this
      ensures jobs == if id < |old(jobs)| then old(jobs)[id := Succeeded(old(jobs)[id])] else old(jobs)
    {
      if id < |jobs| { jobs := jobs[id := Succeeded(jobs[id])]; }
    }

    method MarkFailed(id: nat, error: string, retryDelay: int, now: int)
      modifies this
      ensures jobs == if id < |old(jobs)|
                      then old(jobs)[id := Failed(old(jobs)[id], old(jobs)[id].attempts, old(jobs)[id].maxAttempts,
                                                  error, now + retryDelay)]
                      else old(jobs)
    {
      if id >= |jobs| { return; }
      var attempts := jobs[id].attempts + 1;
      if attempts >= jobs[id].maxAttempts {
        jobs := jobs[id := jobs[id].(status := DeadLetter, attempts := attempts, lastError := Some(error))];
        return;
      }
      jobs := jobs[id := jobs[id].(status := Pending, attempts := attempts, lastError := Some(error),
                                   runAt := now + retryDelay, lockedBy := None)];
    }

    /**
     * A worker alone on its queue, ticking until a claim finds nothing due; the
     * clock is read before and after each start. `handler` answers each start
     * of a job with an error or with None, and `arrivals[k]` is enqueued by
     * others during round k. Of the rows seen in the end, those due at the
     * beginning have ended, whatever became due meanwhile was served too, nothing
     * else was touched, and no job was started more often than its remaining
     * attempts allow.
     */
    method DrainQueue(queue: string, worker: nat, clock: nat -> int, handler: (nat, nat) -> Option<string>,
                      arrivals: seq<seq<Job>>)
      returns (starts: seq<nat>, ghost seen: seq<Job>)
      requires forall j: nat, k: nat :: j <= k ==> clock(j) <= clock(k)
      modifies this
      ensures seen == old(jobs) + Arrived(arrivals, |starts|) && |jobs| == |seen|
      ensures forall i :: 0 <= i < |jobs| ==>
        && !Due(jobs[i], queue, clock(2 * |starts|))
        && (Due(seen[i], queue, clock(0)) ==> jobs[i].status == Completed || jobs[i].status == DeadLetter)
        && (seen[i].queue != queue || seen[i].status != Pending ==> jobs[i] == seen[i])
      ensures forall i: nat ::
        multiset(starts)[i] <= if i < |seen| && seen[i].queue == queue && seen[i].status == Pending
                               then Max(1, seen[i].maxAttempts - seen[i].attempts) else 0
    {
      starts, seen := [], jobs;
      assert jobs + Arrived(arrivals, 0) == jobs && Draining(seen, jobs, starts, queue, clock(0), clock(0));
      while true
        invariant seen == old(jobs) + Arrived(arrivals, |starts|)
        invariant Draining(seen, jobs, starts, queue, clock(0), clock(2 * |starts|))
        decreases Max(0, |arrivals| - |starts|), Total(jobs, RunsLeft)
      {
        var n := |starts|;
        var more := if n < |arrivals| then arrivals[n] else [];
        var served := Round(queue, worker, clock(2 * n), clock(2 * n + 1), handler, more,
                            seen, starts, clock(0), clock(2 * n + 2));
        if served.None? {
          Drained(seen, jobs, starts, queue, clock(0), clock(2 * n));
          return;
        }
        hide Draining, Due, Ended, Waiting, RunsLeft, Arrived, Total;
        ArrivedStep(arrivals, n);
        Regroup(old(jobs), Arrived(arrivals, n), more);
        starts := starts + [served.value];
        seen := seen + more;
      }
    }

    /** One round, during which `more` is enqueued by others; `seen` and `starts` are those of the rounds before. */
    method Round(queue: string, worker: nat, now: int, later: int, handler: (nat, nat) -> Option<string>,
                 more: seq<Job>,
                 ghost seen: seq<Job>, ghost starts: seq<nat>, ghost start: int, ghost next: int)
      returns (served: Option<nat>)
      requires Draining(seen, jobs, starts, queue, start, now) && now <= later <= next
      modifies this
      ensures served.None? ==> jobs == old(jobs) && forall i :: 0 <= i < |jobs| ==> !Due(jobs[i], queue, now)
      ensures served.Some? ==> Draining(seen + more, jobs, starts + [served.value], queue, start, next)
      ensures served.Some? && more == [] ==> Total(jobs, RunsLeft) < old(Total(jobs, RunsLeft))
    {
      served := Tick(queue, worker, now, later, handler);
      if served.None? { return; }
      var id := served.value;
      OneServed(seen, old(jobs), jobs, starts, id, queue, start, now, next);
      TotalUpdate(old(jobs), id, jobs[id], RunsLeft);
      MoreArrived(seen, jobs, starts + [id], more, queue, start, next);
      jobs := jobs + more;
      assert more == [] ==> jobs == old(jobs)[id := jobs[id]];
    }

    /** One round of the worker loop: the claimed job, if any, is handled and its result recorded later. */
    method Tick(queue: string, worker: nat, now: int, later: int, handler: (nat, nat) -> Option<string>)
      returns (served: Option<nat>)
      modifies this
      ensures served.None? ==> jobs == old(jobs) && forall i :: 0 <= i < |jobs| ==> !Due(jobs[i], queue, now)
      ensures served.Some? ==>
        var id := served.value;
        && id < |old(jobs)| && |jobs| == |old(jobs)| && Due(old(jobs)[id], queue, now)
        && jobs == old(jobs)[id := Served(old(jobs)[id], worker, handler(id, old(jobs)[id].attempts), later)]
        && (Ended(jobs[id]) || Due(jobs[id], queue, later)) && RunsLeft(jobs[id]) < RunsLeft(old(jobs)[id])
    {
      var claim := ClaimNext(queue, worker, now);
      if claim.None? { return None; }
      var id := claim.value.id;
      var error := handler(id, claim.value.attempts);
      if error.None? { MarkCompleted(id); } else { MarkFailed(id, error.value, 0, later); }
      return Some(id);
    }
  }

  /** A job once it has been claimed, handled and its result recorded. */
  function Served(j: Job, worker: nat, error: Option<string>, now: int): Job {
    var claimed := Claimed(j, worker);
    if error.None? then Succeeded(claimed) else Failed(claimed, j.attempts, j.maxAttempts, error.value, now)
  }

  /** What others have enqueued in the first `n` rounds. */
  function Arrived(arrivals: seq<seq<Job>>, n: nat): seq<Job> {
    if n == 0 then [] else Arrived(arrivals, n - 1) + if n <= |arrivals| then arrivals[n - 1] else []
  }

  lemma ArrivedStep(arrivals: seq<seq<Job>>, n: nat)
    ensures Arrived(arrivals, n + 1) == Arrived(arrivals, n) + if n < |arrivals| then arrivals[n] else []
  {
  }

  predicate Waiting(j: Job, queue: string) { j.queue == queue && j.status == Pending }

  /** What draining from `start` until `now` may have done to a job that was `was`. */
  predicate Unserved(was: Job, j: Job, queue: string, start: int, now: int) {
    if Waiting(was, queue)
    then && (Ended(j) || (Waiting(j, queue) && RunsLeft(j) <= RunsLeft(was)))
         && (Due(was, queue, start) ==> Ended(j) || Due(j, queue, now))
    else j == was
  }

  /** What the rows seen so far have become, after `starts`. */
  ghost predicate Draining(seen: seq<Job>, jobs: seq<Job>, starts: seq<nat>, queue: string, start: int, now: int) {
    && |jobs| == |seen| && start <= now
    && (forall i :: 0 <= i < |jobs| ==> Unserved(seen[i], jobs[i], queue, start, now))
    && (forall i: nat :: multiset(starts)[i] <= if i < |seen| && Waiting(seen[i], queue)
                                               then RunsLeft(seen[i]) - RunsLeft(jobs[i]) else 0)
  }

  lemma OneServed(seen: seq<Job>, before: seq<Job>, after: seq<Job>, starts: seq<nat>, id: nat, queue: string,
                  start: int, now: int, later: int)
    requires Draining(seen, before, starts, queue, start, now) && now <= later && id < |before| == |after|
    requires after == before[id := after[id]] && Due(before[id], queue, now)
    requires (Ended(after[id]) || Due(after[id], queue, later)) && RunsLeft(after[id]) < RunsLeft(before[id])
    ensures Draining(seen, after, starts + [id], queue, start, later)
  {
    assert Unserved(seen[id], before[id], queue, start, now);
    forall i | 0 <= i < |after| ensures Unserved(seen[i], after[i], queue, start, later) {
      assert Unserved(seen[i], before[i], queue, start, now);
    }
    forall i: nat
      ensures multiset(starts + [id])[i] <= if i < |seen| && Waiting(seen[i], queue)
                                            then RunsLeft(seen[i]) - RunsLeft(after[i]) else 0
    {
      assert multiset(starts + [id]) == multiset(starts) + multiset{id};
    }
  }

  lemma MoreArrived(seen: seq<Job>, jobs: seq<Job>, starts: seq<nat>, more: seq<Job>, queue: string, start: int,
                    now: int)
    requires Draining(seen, jobs, starts, queue, start, now)
    ensures Draining(seen + more, jobs + more, starts, queue, start, now)
  {
  }

  lemma Drained(seen: seq<Job>, jobs: seq<Job>, starts: seq<nat>, queue: string, start: int, now: int)
    requires Draining(seen, jobs, starts, queue, start, now)
    requires forall i :: 0 <= i < |jobs| ==> !Due(jobs[i], queue, now)
    ensures forall i :: 0 <= i < |jobs| ==>
      && (Due(seen[i], queue, start) ==> jobs[i].status == Completed || jobs[i].status == DeadLetter)
      && (seen[i].queue != queue || seen[i].status != Pending ==> jobs[i] == seen[i])
    ensures forall i: nat ::
      multiset(starts)[i] <= if i < |seen| && seen[i].queue == queue && seen[i].status == Pending
                             then Max(1, seen[i].maxAttempts - seen[i].attempts) else 0
  {
    forall i | 0 <= i < |jobs|
      ensures (Due(seen[i], queue, start) ==> Ended(jobs[i])) && (!Waiting(seen[i], queue) ==> jobs[i] == seen[i])
    {
      assert Unserved(seen[i], jobs[i], queue, start, now);
    }
  }

  // ---- What becomes of a job ----------------------------------------------

  /**
   * A failure uses up one attempt, whose error is kept. With the last one the
   * job is dead; before that it waits, unlocked, and is due again exactly from
   * `runAt` on.
   */
  lemma FailureDecides(j: Job, attempts: nat, maxAttempts: int, error: string, runAt: int, later: int)
    ensures var j' := Failed(j, attempts, maxAttempts, error, runAt);
            && j'.queue == j.queue && j'.maxAttempts == j.maxAttempts
            && j'.attempts == attempts + 1 && j'.lastError == Some(error)
            && (j'.status == DeadLetter <==> attempts + 1 >= maxAttempts)
            && (j'.status == DeadLetter ==> j'.runAt == j.runAt && j'.lockedBy == j.lockedBy)
            && (j'.status == Pending <==> attempts + 1 < maxAttempts)
            && (j'.status == Pending ==> j'.runAt == runAt && j'.lockedBy.None?)
            && (Due(j', j.queue, later) <==> attempts + 1 < maxAttempts && runAt <= later)
  {
  }

  /** One round makes of a due job what its handler says, and the job remembers the worker unless it waits again. */
  lemma ServedExactly(j: Job, worker: nat, error: Option<string>, now: int)
    ensures var j' := Served(j, worker, error, now);
            && (j'.status == Completed <==> error.None?)
            && (j'.status == DeadLetter <==> error.Some? && j.attempts + 1 >= j.maxAttempts)
            && (j'.status == Pending <==> error.Some? && j.attempts + 1 < j.maxAttempts)
            && (error.None? ==> j' == j.(status := Completed, lockedBy := Some(worker)))
            && (error.Some? ==> j'.attempts == j.attempts + 1 && j'.lastError == error)
            && (j'.status == DeadLetter ==> j'.lockedBy == Some(worker))
  {
  }
}
