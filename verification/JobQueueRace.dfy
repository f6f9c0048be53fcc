/**
 * Many workers on one `job_queue` table, interleaved statement by statement:
 * the row-locking SELECT, the claiming UPDATE, the handler, and the separate
 * SELECT and UPDATE of `markFailed` are steps of their own. Other processes
 * may enqueue and the clock may advance between any two of them.
 */
module JobQueueRace {
  import opened Common
  import opened JobQueue

  datatype Phase =
    | Idle
    | Selected(id: nat)                       // row locked by SELECT ... FOR UPDATE SKIP LOCKED
    | Running(id: nat)                        // claim committed, handler started
    | Returned(id: nat)                       // handler returned, markCompleted not yet issued
    | Threw(id: nat, error: string)           // handler threw, markFailed not yet issued
    | Counted(id: nat, attempts: nat, maxAttempts: int, error: string)  // markFailed has read the counters

  /** `starts` counts the handler starts of each job; nothing reads it. */
  datatype System = System(jobs: seq<Job>, workers: seq<Phase>, now: int, starts: seq<nat>)

  predicate Owns(p: Phase, id: nat) { !p.Idle? && !p.Selected? && p.id == id }

  predicate RowLocked(s: System, id: nat) { Selected(id) in s.workers }

  /** What SELECT ... SKIP LOCKED LIMIT 1 may return: its snapshot may be older than the lock it takes. */
  predicate Selectable(s: System, queue: string, id: nat) {
    id < |s.jobs| && Due(s.jobs[id], queue, s.now) && !RowLocked(s, id)
  }

  /** What it returns when nothing changed in between: an earliest such row. */
  predicate Earliest(s: System, queue: string, id: nat) {
    && Selectable(s, queue, id)
    && forall i :: 0 <= i < |s.jobs| && Selectable(s, queue, i) ==> s.jobs[id].runAt <= s.jobs[i].runAt
  }

  // ---- Steps --------------------------------------------------------------

  function Move(s: System, w: nat, p: Phase): System
    requires w < |s.workers|
  {
    s.(workers := s.workers[w := p])
  }

  function Write(s: System, id: nat, j: Job): System
    requires id < |s.jobs|
  {
    s.(jobs := s.jobs[id := j])
  }

  /** One statement, or one handler result, of worker `w` serving `queue`. */
  ghost predicate WorkerStep(s: System, s': System, w: nat, queue: string)
    requires w < |s.workers|
  {
    match s.workers[w]
    case Idle => exists id: nat :: Selectable(s, queue, id) && s' == Move(s, w, Selected(id))
    case Selected(id) =>
      && id < |s.jobs| && id < |s.starts|
      && s' == Move(Write(s, id, Claimed(s.jobs[id], w)), w, Running(id)).(starts := s.starts[id := s.starts[id] + 1])
    case Running(id) => s' == Move(s, w, Returned(id)) || exists e: string :: s' == Move(s, w, Threw(id, e))
    case Returned(id) => id < |s.jobs| && s' == Move(Write(s, id, Succeeded(s.jobs[id])), w, Idle)
    case Threw(id, e) =>
      id < |s.jobs| && s' == Move(s, w, Counted(id, s.jobs[id].attempts, s.jobs[id].maxAttempts, e))
    case Counted(id, a, m, e) => id < |s.jobs| && s' == Move(Write(s, id, Failed(s.jobs[id], a, m, e, s.now)), w, Idle)
  }

  ghost predicate OutsideStep(s: System, s': System) {
    || (s'.now >= s.now && s' == s.(now := s'.now))
    || (exists q: string, runAt: int, m: int ::
          s' == s.(jobs := s.jobs + [Job(q, Pending, runAt, 0, m, None, None)], starts := s.starts + [0]))
  }

  ghost predicate Step(queues: seq<string>, s: System, s': System) {
    && |s.workers| == |queues|
    && (OutsideStep(s, s') || exists w :: 0 <= w < |queues| && WorkerStep(s, s', w, queues[w]))
  }

  function Start(queues: seq<string>, now: int): System {
    System([], seq(|queues|, _ => Idle), now, [])
  }

  ghost predicate Execution(queues: seq<string>, now: int, trace: seq<System>) {
    && trace != [] && trace[0] == Start(queues, now)
    && forall k :: 0 < k < |trace| ==> Step(queues, trace[k - 1], trace[k])
  }

  // ---- The invariant ------------------------------------------------------

  /** What the phase of worker `w` says about the row it is concerned with. */
  ghost predicate WorkerOk(s: System, w: nat)
    requires w < |s.workers|
  {
    var p := s.workers[w];
    && (p.Selected? ==> p.id < |s.jobs| && s.jobs[p.id].status == Pending)
    && (!p.Idle? && !p.Selected? ==>
          p.id < |s.jobs| && s.jobs[p.id].status == Processing && s.jobs[p.id].lockedBy == Some(w))
    && (p.Counted? ==> s.jobs[p.id].attempts == p.attempts && s.jobs[p.id].maxAttempts == p.maxAttempts)
  }

  ghost predicate JobOk(s: System, id: nat)
    requires id < |s.jobs| && |s.starts| == |s.jobs|
  {
    var j := s.jobs[id];
    && (j.status == Processing ==>
          j.lockedBy.Some? && j.lockedBy.value < |s.workers| && Owns(s.workers[j.lockedBy.value], id))
    && s.starts[id] == j.attempts + (if j.status == Processing || j.status == Completed then 1 else 0)
    && (j.status != DeadLetter ==> j.attempts == 0 || j.attempts < j.maxAttempts)
    && (j.status == DeadLetter ==> j.attempts == Max(1, j.maxAttempts))
  }

  ghost predicate Inv(s: System) {
    && |s.starts| == |s.jobs|
    && (forall w :: 0 <= w < |s.workers| ==> WorkerOk(s, w))
    && (forall id :: 0 <= id < |s.jobs| ==> JobOk(s, id))
    && (forall v, w :: 0 <= v < w < |s.workers| && s.workers[v].Selected? ==> s.workers[v] != s.workers[w])
  }

  lemma SelectKeepsInv(s: System, w: nat, id: nat, queue: string)
    requires Inv(s) && w < |s.workers| && s.workers[w].Idle? && Selectable(s, queue, id)
    ensures Inv(Move(s, w, Selected(id)))
  {
    var s' := Move(s, w, Selected(id));
    forall v | 0 <= v < |s.workers| ensures WorkerOk(s', v) && (v != w ==> s'.workers[v] != Selected(id)) {
      assert WorkerOk(s, v) && (v != w ==> s'.workers[v] == s.workers[v] && s.workers[v] in s.workers);
    }
    forall i | 0 <= i < |s.jobs| ensures JobOk(s', i) { assert JobOk(s, i); }
  }

  /** A step that rewrites the one row the worker is concerned with and its phase. */
  lemma RowStepKeepsInv(s: System, s': System, w: nat, id: nat)
    requires Inv(s) && w < |s.workers| && id < |s.jobs|
    requires s.workers[w] == Selected(id) || Owns(s.workers[w], id)
    requires |s'.jobs| == |s.jobs| && |s'.workers| == |s.workers| && |s'.starts| == |s.jobs|
    requires s'.jobs == s.jobs[id := s'.jobs[id]] && s'.workers == s.workers[w := s'.workers[w]]
    requires s'.starts == s.starts[id := s'.starts[id]]
    requires !s'.workers[w].Selected? && WorkerOk(s', w) && JobOk(s', id)
    ensures Inv(s')
  {
    forall v | 0 <= v < |s.workers| ensures WorkerOk(s', v) {
      assert WorkerOk(s, v) && WorkerOk(s, w);
    }
    forall i | 0 <= i < |s.jobs| ensures JobOk(s', i) { assert JobOk(s, i); }
  }

  lemma WorkerStepKeepsInv(s: System, s': System, w: nat, queue: string)
    requires Inv(s) && w < |s.workers| && WorkerStep(s, s', w, queue)
    ensures Inv(s')
  {
    assert WorkerOk(s, w);
    if s.workers[w].Idle? {
      var id: nat :| Selectable(s, queue, id) && s' == Move(s, w, Selected(id));
      SelectKeepsInv(s, w, id, queue);
    } else {
      assert JobOk(s, s.workers[w].id);
      RowStepKeepsInv(s, s', w, s.workers[w].id);
    }
  }

  lemma OutsideStepKeepsInv(s: System, s': System)
    requires Inv(s) && OutsideStep(s, s')
    ensures Inv(s')
  {
    forall w | 0 <= w < |s'.workers| ensures WorkerOk(s', w) { assert WorkerOk(s, w); }
    forall id | 0 <= id < |s'.jobs| ensures JobOk(s', id) { if id < |s.jobs| { assert JobOk(s, id); } }
  }

  lemma {:induction false} EveryStateOk(queues: seq<string>, now: int, trace: seq<System>, k: nat)
    requires Execution(queues, now, trace) && k < |trace|
    ensures Inv(trace[k]) && |trace[k].workers| == |queues|
  {
    if k > 0 {
      EveryStateOk(queues, now, trace, k - 1);
      var s, s' := trace[k - 1], trace[k];
      assert Step(queues, s, s');
      if OutsideStep(s, s') {
        OutsideStepKeepsInv(s, s');
      } else {
        var w :| 0 <= w < |queues| && WorkerStep(s, s', w, queues[w]);
        WorkerStepKeepsInv(s, s', w, queues[w]);
      }
    }
  }

  // ---- Safety -------------------------------------------------------------

  /** A processing job has exactly one owner, and what `markFailed` read is still what is stored. */
  lemma OneOwner(queues: seq<string>, now: int, trace: seq<System>, k: nat, id: nat)
    requires Execution(queues, now, trace) && k < |trace| && id < |trace[k].jobs|
    ensures var s := trace[k];
            && (s.jobs[id].status == Processing <==> exists w :: 0 <= w < |s.workers| && Owns(s.workers[w], id))
            && (forall v, w | 0 <= v < |s.workers| && 0 <= w < |s.workers| ::
                  Owns(s.workers[v], id) && Owns(s.workers[w], id) ==> v == w)
            && (forall w :: 0 <= w < |s.workers| && s.workers[w].Counted? && s.workers[w].id == id ==>
                  s.workers[w].attempts == s.jobs[id].attempts && s.workers[w].maxAttempts == s.jobs[id].maxAttempts)
  {
    EveryStateOk(queues, now, trace, k);
    var s := trace[k];
    assert JobOk(s, id);
    forall w | 0 <= w < |s.workers| && Owns(s.workers[w], id)
      ensures s.jobs[id].status == Processing && s.jobs[id].lockedBy == Some(w)
    {
      assert WorkerOk(s, w);
    }
    forall w | 0 <= w < |s.workers| && s.workers[w].Counted? && s.workers[w].id == id
      ensures s.workers[w].attempts == s.jobs[id].attempts && s.workers[w].maxAttempts == s.jobs[id].maxAttempts
    {
      assert WorkerOk(s, w);
    }
  }

  /** Rows only change at the hands of the worker that locked or owns them; ended rows never do. */
  lemma OnlyOwnerWrites(queues: seq<string>, now: int, trace: seq<System>, k: nat, id: nat)
    requires Execution(queues, now, trace) && k + 1 < |trace| && id < |trace[k].jobs|
    ensures var s, s' := trace[k], trace[k + 1];
            && id < |s'.jobs|
            && (Ended(s.jobs[id]) ==> s'.jobs[id] == s.jobs[id])
            && (s'.jobs[id] != s.jobs[id] ==>
                  exists w :: 0 <= w < |queues| && WorkerStep(s, s', w, queues[w])
                              && (s.workers[w] == Selected(id) || Owns(s.workers[w], id)))
  {
    EveryStateOk(queues, now, trace, k);
    var s, s' := trace[k], trace[k + 1];
    assert Step(queues, s, s');
    if !OutsideStep(s, s') {
      var w :| 0 <= w < |queues| && WorkerStep(s, s', w, queues[w]);
      assert WorkerOk(s, w);
    }
  }

  /** No job's handler is started more than max(1, max_attempts) times; a failed job still pending has attempts left. */
  lemma StartsBounded(queues: seq<string>, now: int, trace: seq<System>, k: nat, id: nat)
    requires Execution(queues, now, trace) && k < |trace| && id < |trace[k].jobs|
    ensures |trace[k].starts| == |trace[k].jobs|
    ensures trace[k].starts[id] <= Max(1, trace[k].jobs[id].maxAttempts)
    ensures trace[k].jobs[id].status == Pending && trace[k].jobs[id].attempts > 0 ==>
              trace[k].jobs[id].attempts < trace[k].jobs[id].maxAttempts
  {
    EveryStateOk(queues, now, trace, k);
    assert JobOk(trace[k], id);
  }

  /** A worker whose handler returned records it in this step. */
  ghost predicate RecordsSuccess(s: System, s': System, id: nat) {
    exists w :: 0 <= w < |s.workers| && s.workers[w] == Returned(id) && s'.workers == s.workers[w := Idle]
  }

  /** A worker whose handler threw records it in this step, as the job's last attempt or not. */
  ghost predicate RecordsFailure(s: System, s': System, id: nat, last: bool) {
    exists w :: 0 <= w < |s.workers| && s.workers[w].Counted? && s.workers[w].id == id
                && s'.workers == s.workers[w := Idle]
                && (last <==> s.workers[w].attempts + 1 >= s.workers[w].maxAttempts)
  }

  /** What a step makes of a job in other hands than the queue's: a new status means that its handler has ended. */
  lemma EndsExactly(queues: seq<string>, now: int, trace: seq<System>, k: nat, id: nat)
    requires Execution(queues, now, trace) && k + 1 < |trace| && id < |trace[k].jobs|
    ensures id < |trace[k + 1].jobs|
    ensures var s, s' := trace[k], trace[k + 1];
            var was, next := s.jobs[id].status, s'.jobs[id].status;
            && (was != Completed && next == Completed <==> RecordsSuccess(s, s', id))
            && (was != DeadLetter && next == DeadLetter <==> RecordsFailure(s, s', id, true))
            && (was != Pending && next == Pending <==> RecordsFailure(s, s', id, false))
  {
    EveryStateOk(queues, now, trace, k);
    var s, s' := trace[k], trace[k + 1];
    assert Step(queues, s, s');
    if OutsideStep(s, s') {
      SameWorkers(s, s', id);
    } else {
      var w :| 0 <= w < |queues| && WorkerStep(s, s', w, queues[w]);
      WorkerEnds(s, s', w, queues[w], id);
    }
  }

  lemma SameWorkers(s: System, s': System, id: nat)
    requires s'.workers == s.workers
    ensures !RecordsSuccess(s, s', id) && !RecordsFailure(s, s', id, true) && !RecordsFailure(s, s', id, false)
  {
  }

  lemma WorkerEnds(s: System, s': System, w: nat, queue: string, id: nat)
    requires Inv(s) && w < |s.workers| && WorkerStep(s, s', w, queue) && id < |s.jobs|
    ensures |s'.jobs| == |s.jobs|
    ensures var was, next := s.jobs[id].status, s'.jobs[id].status;
            && (was != Completed && next == Completed <==> RecordsSuccess(s, s', id))
            && (was != DeadLetter && next == DeadLetter <==> RecordsFailure(s, s', id, true))
            && (was != Pending && next == Pending <==> RecordsFailure(s, s', id, false))
  {
    assert WorkerOk(s, w);
    assert s'.workers == s.workers[w := s'.workers[w]] && s'.workers[w] != s.workers[w];
  }

  // ---- Progress -----------------------------------------------------------

  function JobWork(j: Job): nat {
    if Ended(j) then 0 else 6 * Max(1, j.maxAttempts - j.attempts)
  }

  function PhaseWork(p: Phase): nat {
    match p
    case Idle => 5
    case Selected(_) => 4
    case Running(_) => 3
    case Threw(_, _) => 2
    case Returned(_) => 1
    case Counted(_, _, _, _) => 1
  }

  function Work(s: System): nat { Total(s.jobs, JobWork) + Total(s.workers, PhaseWork) }

  lemma MoveWork(s: System, w: nat, p: Phase)
    requires w < |s.workers|
    ensures Work(Move(s, w, p)) == Work(s) - PhaseWork(s.workers[w]) + PhaseWork(p)
  {
    TotalUpdate(s.workers, w, p, PhaseWork);
  }

  lemma WriteWork(s: System, id: nat, j: Job)
    requires id < |s.jobs|
    ensures Work(Write(s, id, j)) == Work(s) - JobWork(s.jobs[id]) + JobWork(j)
  {
    TotalUpdate(s.jobs, id, j, JobWork);
  }

  /** Every step of every worker uses up work. */
  lemma WorkerStepDescends(s: System, s': System, w: nat, queue: string)
    requires Inv(s) && w < |s.workers| && WorkerStep(s, s', w, queue)
    ensures Work(s') < Work(s)
  {
    assert WorkerOk(s, w);
    var p := s.workers[w];
    var p' := s'.workers[w];
    if p.Selected? || p.Returned? || p.Counted? {
      var j := s'.jobs[p.id];
      assert JobOk(s, p.id);
      WriteWork(s, p.id, j);
      MoveWork(Write(s, p.id, j), w, p');
      if p.Selected? { assert Work(s') == Work(Move(Write(s, p.id, j), w, p')); }
    } else {
      MoveWork(s, w, p');
    }
  }

  lemma {:induction false} EarliestSelectable(s: System, queue: string, n: nat) returns (best: Option<nat>)
    requires n <= |s.jobs|
    ensures best.None? ==> forall i :: 0 <= i < n ==> !Selectable(s, queue, i)
    ensures best.Some? ==>
      && best.value < n && Selectable(s, queue, best.value)
      && forall i :: 0 <= i < n && Selectable(s, queue, i) ==> s.jobs[best.value].runAt <= s.jobs[i].runAt
  {
    best := None;
    if n > 0 {
      best := EarliestSelectable(s, queue, n - 1);
      if Selectable(s, queue, n - 1)
         && (best.None? || s.jobs[n - 1].runAt < s.jobs[best.value].runAt) {
        best := Some(n - 1);
      }
    }
  }

  ghost predicate WorkerCanStep(s: System, w: nat, queue: string)
    requires w < |s.workers|
  {
    exists s' :: OrderedStep(s, s', w, queue)
  }

  /** A step of a worker that takes an earliest job if it takes one. */
  ghost predicate OrderedStep(s: System, s': System, w: nat, queue: string)
    requires w < |s.workers|
  {
    && WorkerStep(s, s', w, queue)
    && (s.workers[w].Idle? ==> exists id :: Earliest(s, queue, id) && s' == Move(s, w, Selected(id)))
  }

  lemma BusyWorkerCanStep(s: System, w: nat, queue: string)
    requires Inv(s) && w < |s.workers| && !s.workers[w].Idle?
    ensures WorkerCanStep(s, w, queue)
  {
    assert WorkerOk(s, w);
    var p := s.workers[w];
    var s' := match p
      case Idle => s
      case Selected(id) =>
        Move(Write(s, id, Claimed(s.jobs[id], w)), w, Running(id)).(starts := s.starts[id := s.starts[id] + 1])
      case Running(id) => Move(s, w, Returned(id))
      case Returned(id) => Move(Write(s, id, Succeeded(s.jobs[id])), w, Idle)
      case Threw(id, e) => Move(s, w, Counted(id, s.jobs[id].attempts, s.jobs[id].maxAttempts, e))
      case Counted(id, a, m, e) => Move(Write(s, id, Failed(s.jobs[id], a, m, e, s.now)), w, Idle);
    assert OrderedStep(s, s', w, queue);
  }

  /**
   * When every job is due and its queue has a worker, the workers can only all
   * be out of steps once every job is completed or dead-lettered.
   */
  lemma StuckOnlyWhenDone(queues: seq<string>, s: System)
    requires Inv(s) && |s.workers| == |queues|
    requires AllServed(queues, s)
    requires forall w :: 0 <= w < |queues| ==> !WorkerCanStep(s, w, queues[w])
    ensures forall i :: 0 <= i < |s.jobs| ==> Ended(s.jobs[i])
  {
    forall w | 0 <= w < |queues| ensures s.workers[w].Idle? {
      if !s.workers[w].Idle? { BusyWorkerCanStep(s, w, queues[w]); }
    }
    forall i | 0 <= i < |s.jobs| ensures Ended(s.jobs[i]) {
      assert JobOk(s, i);
      if s.jobs[i].status == Pending {
        var w :| 0 <= w < |queues| && queues[w] == s.jobs[i].queue;
        var best := EarliestSelectable(s, queues[w], |s.jobs|);
        assert Selectable(s, queues[w], i);
        assert Earliest(s, queues[w], best.value);
        assert OrderedStep(s, Move(s, w, Selected(best.value)), w, queues[w]);
        assert WorkerCanStep(s, w, queues[w]);
      }
    }
  }

  ghost predicate SomeWorkerStep(queues: seq<string>, s: System, s': System) {
    |s.workers| == |queues| && exists w :: 0 <= w < |queues| && WorkerStep(s, s', w, queues[w])
  }

  /** A stretch of an execution in which only workers act. */
  ghost predicate WorkersOnly(queues: seq<string>, trace: seq<System>) {
    trace != [] && |trace[0].workers| == |queues| && forall k :: 0 < k < |trace| ==>
        SomeWorkerStep(queues, trace[k - 1], trace[k])
  }

  ghost predicate AllServed(queues: seq<string>, s: System) {
    forall i :: 0 <= i < |s.jobs| ==> s.jobs[i].runAt <= s.now && s.jobs[i].queue in queues
  }

  lemma {:induction false} WorkersDescend(queues: seq<string>, trace: seq<System>, k: nat)
    requires WorkersOnly(queues, trace) && Inv(trace[0]) && k < |trace| && AllServed(queues, trace[0])
    ensures Inv(trace[k]) && Work(trace[k]) + k <= Work(trace[0])
    ensures |trace[k].workers| == |queues| && |trace[k].jobs| == |trace[0].jobs| && AllServed(queues, trace[k])
  {
    if k > 0 {
      WorkersDescend(queues, trace, k - 1);
      assert SomeWorkerStep(queues, trace[k - 1], trace[k]);
      var w :| 0 <= w < |queues| && WorkerStep(trace[k - 1], trace[k], w, queues[w]);
      WorkerStepKeepsInv(trace[k - 1], trace[k], w, queues[w]);
      WorkerStepDescends(trace[k - 1], trace[k], w, queues[w]);
    }
  }

  /**
   * Once every job is due and served, whatever the handlers answer and however
   * the workers interleave, their run is bounded and, when no worker can go on,
   * every job is completed or dead-lettered.
   */
  lemma QueueDrains(queues: seq<string>, trace: seq<System>)
    requires WorkersOnly(queues, trace) && Inv(trace[0]) && AllServed(queues, trace[0])
    ensures |trace| <= Work(trace[0]) + 1
    ensures var s := trace[|trace| - 1];
            && |s.workers| == |queues| && |s.jobs| == |trace[0].jobs|
            && ((forall w :: 0 <= w < |queues| ==> !WorkerCanStep(s, w, queues[w])) ==>
                  forall i :: 0 <= i < |s.jobs| ==> Ended(s.jobs[i]))
  {
    var s := trace[|trace| - 1];
    WorkersDescend(queues, trace, |trace| - 1);
    if forall w :: 0 <= w < |queues| ==> !WorkerCanStep(s, w, queues[w]) { StuckOnlyWhenDone(queues, s); }
  }
}
