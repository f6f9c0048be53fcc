/**
 * The process-wide pool of the voice gateway (voice_gateway/db.py): any number
 * of tasks call `get_pool`, switching only where the code awaits.
 */
module PoolCreation {
  import opened Common

  /** The module globals, and the lazily created asyncio lock. */
  class PoolModule {
    var pool: Option<nat>
    var hasLock: bool

    constructor ()
      ensures pool == None && !hasLock
    {
      pool, hasLock := None, false;
    }

    /** One task running without a switch; `newPool` names what asyncpg.create_pool would return. */
    method GetPool(dsnSet: bool, newPool: Option<nat>) returns (result: Option<nat>)
      modifies this
      ensures old(pool).Some? ==> result == old(pool) && pool == old(pool) && hasLock == old(hasLock)
      ensures old(pool).None? ==> hasLock && result == pool && pool == if dsnSet then newPool else None
    {
      if pool.Some? { return pool; }
      if !hasLock { hasLock := true; }
      if pool.None? {
        if !dsnSet { return None; }
        pool := newPool;
      }
      return pool;
    }
  }

  datatype Phase =
    | Called                 // about to test the global
    | Queueing               // saw no pool; waiting for the lock
    | Creating               // holds the lock, re-checked, awaiting create_pool
    | Got(pool: nat)
    | Raised                 // DATABASE_URL unset, or create_pool failed

  /** `created` counts successful create_pool calls. */
  datatype System = System(pool: Option<nat>, holder: Option<nat>, created: nat, tasks: seq<Phase>)

  /** One uninterrupted stretch of task `i`; creation may succeed or fail. */
  ghost predicate TaskStep(s: System, s': System, i: nat)
    requires i < |s.tasks|
  {
    match s.tasks[i]
    case Called =>
      if s.pool.Some? then s' == s.(tasks := s.tasks[i := Got(s.pool.value)])
      else s' == s.(tasks := s.tasks[i := Queueing])
    case Queueing =>
      && s.holder.None?
      && if s.pool.Some? then s' == s.(tasks := s.tasks[i := Got(s.pool.value)])
         else s' == s.(tasks := s.tasks[i := Raised]) || s' == s.(tasks := s.tasks[i := Creating], holder := Some(i))
    case Creating =>
      || s' == s.(tasks := s.tasks[i := Got(s.created)], pool := Some(s.created), created := s.created + 1,
          holder := None)
      || s' == s.(tasks := s.tasks[i := Raised], holder := None)
    case Got(_) => false
    case Raised => false
  }

  ghost predicate Step(s: System, s': System) {
    exists i :: 0 <= i < |s.tasks| && TaskStep(s, s', i)
  }

  ghost predicate Execution(tasks: nat, trace: seq<System>) {
    && trace != [] && trace[0] == System(None, None, 0, seq(tasks, _ => Called))
    && forall k :: 0 < k < |trace| ==> Step(trace[k - 1], trace[k])
  }

  ghost predicate Inv(s: System) {
    && s.created == (if s.pool.Some? then 1 else 0)
    && (s.pool.Some? ==> s.pool.value == 0 && s.holder.None?)
    && (forall i :: 0 <= i < |s.tasks| ==> (s.tasks[i].Creating? <==> s.holder == Some(i)))
    && (s.holder.Some? ==> s.holder.value < |s.tasks|)
    && (forall i :: 0 <= i < |s.tasks| && s.tasks[i].Got? ==> s.pool == Some(s.tasks[i].pool))
  }

  lemma TaskStepKeepsInv(s: System, s': System, i: nat)
    requires Inv(s) && i < |s.tasks| && TaskStep(s, s', i)
    ensures Inv(s')
  {
  }

  /** However the tasks interleave, at most one pool is ever created and every task that gets one gets that one. */
  lemma {:induction false} OnePool(tasks: nat, trace: seq<System>, k: nat)
    requires Execution(tasks, trace) && k < |trace|
    ensures Inv(trace[k]) && trace[k].created <= 1
    ensures forall i, j ::
      0 <= i < |trace[k].tasks| && 0 <= j < |trace[k].tasks| && trace[k].tasks[i].Got? && trace[k].tasks[j].Got? ==>
        trace[k].tasks[i] == trace[k].tasks[j]
  {
    if k > 0 {
      OnePool(tasks, trace, k - 1);
      assert Step(trace[k - 1], trace[k]);
      var i :| 0 <= i < |trace[k - 1].tasks| && TaskStep(trace[k - 1], trace[k], i);
      TaskStepKeepsInv(trace[k - 1], trace[k], i);
    }
  }

  /** No task waits for ever: unless all have returned or raised, one can go on. */
  lemma SomeTaskGoesOn(tasks: nat, trace: seq<System>, k: nat, i: nat)
    requires Execution(tasks, trace) && k < |trace| && i < |trace[k].tasks|
    requires !trace[k].tasks[i].Got? && !trace[k].tasks[i].Raised?
    ensures exists s' :: Step(trace[k], s')
  {
    OnePool(tasks, trace, k);
    var s := trace[k];
    var j := if s.holder.Some? then s.holder.value else i;
    var s' := match s.tasks[j]
      case Called => s.(tasks := s.tasks[j := if s.pool.Some? then Got(s.pool.value) else Queueing])
      case Creating => s.(tasks := s.tasks[j := Raised], holder := None)
      case Queueing => s.(tasks := s.tasks[j := if s.pool.Some? then Got(s.pool.value) else Raised])
      case Got(_) => s
      case Raised => s;
    assert TaskStep(s, s', j);
    assert Step(s, s');
  }
}
