/**
 * The shared connection pool: the transaction wrapper (lib/db/tenant.ts) and
 * what happens when requests inside it ask for a second connection
 * (lib/providers/registry.ts, lib/calls/createCall.ts).
 */
module ConnectionPool {
  import opened Common

  // ---- withTenant ---------------------------------------------------------

  datatype Attempt<T> = Returned(db: T) | Threw(dirty: T)

  /** The transaction-local settings row-level security reads. */
  datatype Settings = Settings(org: string, user: string, role: string)

  /** A statement of the wrapper itself that fails, if any. */
  datatype Fault = NoFault | BeginFails | SettingFails | CommitFails

  /** A database with `free` idle connections; `settings` are those of the connection in use. */
  class TenantDb<T> {
    var db: T
    var free: nat
    var settings: Option<Settings>

    constructor (db: T, connections: nat)
      ensures this.db == db && free == connections && settings == None
    {
      this.db, free, settings := db, connections, None;
    }

    /**
     * Runs `fn` in its own transaction under the organisation, the user (empty
     * for none) and the role the tables give the organisation. The connection
     * and the settings are given back on every path, and the tables change only
     * if `fn` returns and COMMIT succeeds. With no idle connection the caller waits.
     */
    method WithTenant(org: string, user: Option<string>, roleOf: (T, string) -> Option<string>,
                      fn: (T, Settings) -> Attempt<T>, fault: Fault) returns (outcome: Option<bool>)
      modifies this
      ensures free == old(free)
      ensures outcome.None? <==> free == 0
      ensures outcome.None? ==> db == old(db) && settings == old(settings)
      ensures outcome.Some? ==> settings == None
      ensures outcome.Some? ==> var attempt := fn(old(db), SettingsFor(old(db), org, user, roleOf));
        && (outcome.value <==> fault.NoFault? && attempt.Returned?)
        && db == if outcome.value then attempt.db else old(db)
    {
      if free == 0 { return None; }
      free := free - 1;                                  // pool.connect()
      var saved := db;                                   // BEGIN
      var ok := false;
      if !fault.BeginFails? && !fault.SettingFails? {
        settings := Some(SettingsFor(db, org, user, roleOf));  // set_config(..., true), three times
        var attempt := fn(db, settings.value);
        ok := attempt.Returned? && !fault.CommitFails?;
        db := if attempt.Returned? then attempt.db else attempt.dirty;
      }
      if !ok { db := saved; }                            // ROLLBACK
      settings := None;                                  // reset by COMMIT and ROLLBACK alike
      free := free + 1;                                  // client.release()
      return Some(ok);
    }
  }

  function SettingsFor<T>(db: T, org: string, user: Option<string>, roleOf: (T, string) -> Option<string>): Settings {
    Settings(org, if user.Some? then user.value else "", if roleOf(db, org).Some? then roleOf(db, org).value else "")
  }

  // ---- Tasks sharing the pool ---------------------------------------------

  /**
   * What a transaction asks for besides its own connection: at most one row lock,
   * kept to its end, and then a number of further connections, one after another,
   * each given back before the next (`enqueueDueCampaignLeads` takes one for
   * every lead it enqueues).
   */
  datatype Task = Task(nested: nat, lock: Option<nat>)

  datatype Stage =
    | Idle                      // waits for its connection
    | Connected                 // holds one; takes its row lock, if it needs one
    | Working(left: nat)        // `left` nested uses to come
    | WantsSecond(left: nat)    // holds one, waits for another
    | HoldsTwo(left: nat)
    | Released

  function Connections(p: Stage): nat {
    if p.Idle? || p.Released? then 0 else if p.HoldsTwo? then 2 else 1
  }

  predicate Locking(p: Stage) { p.Working? || p.WantsSecond? || p.HoldsTwo? }

  predicate LockTaken(tasks: seq<Task>, ps: seq<Stage>, lock: Option<nat>)
    requires |ps| == |tasks|
  {
    lock.Some? && exists j :: 0 <= j < |ps| && tasks[j].lock == lock && Locking(ps[j])
  }

  /** What is idle, and where task `i` is, after its next step; None where it has to wait or is over. */
  function TaskNext(tasks: seq<Task>, free: nat, ps: seq<Stage>, i: nat): Option<(nat, Stage)>
    requires i < |ps| == |tasks|
  {
    match ps[i]
    case Idle => if free == 0 then None else Some((free - 1, Connected))
    case Connected => if LockTaken(tasks, ps, tasks[i].lock) then None else Some((free, Working(tasks[i].nested)))
    case Working(left) => if left == 0 then Some((free + 1, Released)) else Some((free, WantsSecond(left - 1)))
    case WantsSecond(left) => if free == 0 then None else Some((free - 1, HoldsTwo(left)))
    case HoldsTwo(left) => Some((free + 1, Working(left)))
    case Released => None
  }

  /** The task nests, or waits for the row lock of one that does. */
  predicate Endangered(tasks: seq<Task>, i: nat)
    requires i < |tasks|
  {
    || tasks[i].nested > 0
    || (tasks[i].lock.Some? && exists j :: 0 <= j < |tasks| && tasks[j].nested > 0 && tasks[j].lock == tasks[i].lock)
  }

  /** How many tasks are. */
  function EndangeredTasks(tasks: seq<Task>): nat { Total(Marks(tasks), Mark) }

  function Mark(marked: bool): nat { if marked then 1 else 0 }

  function Marks(tasks: seq<Task>): seq<bool> {
    seq(|tasks|, i requires 0 <= i < |tasks| => Endangered(tasks, i))
  }

  /** Only tasks that nest get as far as a second connection, and no further than their uses. */
  ghost predicate TasksOk(tasks: seq<Task>, ps: seq<Stage>) {
    |ps| == |tasks| && forall i :: 0 <= i < |ps| && Locking(ps[i]) ==>
                         ps[i].left <= tasks[i].nested && (!ps[i].Working? ==> tasks[i].nested > 0)
  }

  lemma TaskStepKept(tasks: seq<Task>, free: nat, ps: seq<Stage>, i: nat)
    requires TasksOk(tasks, ps) && i < |ps| && TaskNext(tasks, free, ps, i).Some?
    ensures var (free', p) := TaskNext(tasks, free, ps, i).value;
            && TasksOk(tasks, ps[i := p])
            && free' + Total(ps[i := p], Connections) == free + Total(ps, Connections)
  {
    TotalUpdate(ps, i, TaskNext(tasks, free, ps, i).value.1, Connections);
  }

  // ---- Tasks that have stopped --------------------------------------------

  ghost predicate TasksStopped(tasks: seq<Task>, free: nat, ps: seq<Stage>)
    requires |ps| == |tasks|
  {
    forall i :: 0 <= i < |ps| ==> TaskNext(tasks, free, ps, i).None?
  }

  lemma StoppedLocking(tasks: seq<Task>, free: nat, ps: seq<Stage>, i: nat)
    requires i < |ps| == |tasks| && TasksStopped(tasks, free, ps) && Locking(ps[i])
    ensures ps[i].WantsSecond?
  {
    assert TaskNext(tasks, free, ps, i).None?;
  }

  /** A stopped task that holds a connection waits for a second one, or for the row lock of one that does. */
  lemma StoppedHolder(tasks: seq<Task>, free: nat, ps: seq<Stage>, i: nat) returns (j: nat)
    requires i < |ps| == |tasks| && TasksStopped(tasks, free, ps) && Connections(ps[i]) > 0
    ensures j < |ps| && ps[j].WantsSecond? && (j == i || (tasks[i].lock.Some? && tasks[j].lock == tasks[i].lock))
    ensures Connections(ps[i]) == 1
  {
    assert TaskNext(tasks, free, ps, i).None?;
    if ps[i].Connected? {
      j :| 0 <= j < |ps| && tasks[j].lock == tasks[i].lock && Locking(ps[j]);
    } else {
      j := i;
    }
    StoppedLocking(tasks, free, ps, j);
  }

  lemma StoppedTask(tasks: seq<Task>, free: nat, ps: seq<Stage>, i: nat)
    requires TasksOk(tasks, ps) && TasksStopped(tasks, free, ps) && i < |ps| && !ps[i].Released?
    ensures free == 0 && Connections(ps[i]) <= 1
    ensures Connections(ps[i]) > 0 ==> Endangered(tasks, i)
  {
    assert TaskNext(tasks, free, ps, i).None?;
    if Connections(ps[i]) > 0 {
      var j := StoppedHolder(tasks, free, ps, i);
      assert TaskNext(tasks, free, ps, j).None?;
    }
  }

  lemma StoppedTasks(tasks: seq<Task>, free: nat, ps: seq<Stage>)
    requires TasksOk(tasks, ps) && TasksStopped(tasks, free, ps)
    ensures Total(ps, Connections) <= EndangeredTasks(tasks)
    ensures (exists i :: 0 <= i < |ps| && !ps[i].Released?) ==> free == 0
  {
    forall i | 0 <= i < |ps| ensures Connections(ps[i]) <= Mark(Marks(tasks)[i]) {
      if !ps[i].Released? { StoppedTask(tasks, free, ps, i); }
    }
    TotalAtMost(ps, Connections, Marks(tasks), Mark);
    if i :| 0 <= i < |ps| && !ps[i].Released? { StoppedTask(tasks, free, ps, i); }
  }

  // ---- Tasks that crowd the pool --------------------------------------------

  /** Each task that is connected waits: for a second connection, or for the row lock of one that does. */
  ghost predicate TasksCrowd(tasks: seq<Task>, ps: seq<Stage>) {
    && TasksOk(tasks, ps)
    && (forall i :: 0 <= i < |ps| ==> ps[i].Idle? || ps[i].WantsSecond? || ps[i].Connected?)
    && (forall i :: 0 <= i < |ps| && ps[i].Connected? ==> LockTaken(tasks, ps, tasks[i].lock))
  }

  lemma CrowdStopped(tasks: seq<Task>, ps: seq<Stage>)
    requires TasksCrowd(tasks, ps)
    ensures TasksStopped(tasks, 0, ps)
  {
  }

  /** Unless all endangered tasks are in the crowd, one that nests, or whose row lock is taken, is still outside. */
  lemma SomeoneOutside(tasks: seq<Task>, ps: seq<Stage>) returns (i: nat)
    requires TasksCrowd(tasks, ps) && Total(ps, Connections) < EndangeredTasks(tasks)
    ensures i < |ps| && ps[i].Idle? && (tasks[i].nested > 0 || LockTaken(tasks, ps, tasks[i].lock))
  {
    if k: nat :| k < |ps| && ps[k].Idle? && Endangered(tasks, k) {
      i := k;
      if tasks[k].nested == 0 && !LockTaken(tasks, ps, tasks[k].lock) {
        i :| 0 <= i < |tasks| && tasks[i].nested > 0 && tasks[i].lock == tasks[k].lock;
      }
    } else {
      forall i | 0 <= i < |ps| ensures Mark(Marks(tasks)[i]) <= Connections(ps[i]) {}
      TotalAtMost(Marks(tasks), Mark, ps, Connections);
      assert false;
    }
  }

  /** It joins in one step or three. */
  lemma JoinBehind(tasks: seq<Task>, free: nat, ps: seq<Stage>, i: nat)
    requires TasksCrowd(tasks, ps) && free > 0 && i < |ps| && ps[i].Idle? && LockTaken(tasks, ps, tasks[i].lock)
    ensures TaskNext(tasks, free, ps, i) == Some((free - 1, Connected)) && TasksCrowd(tasks, ps[i := Connected])
  {
    var after := ps[i := Connected];
    var j :| 0 <= j < |ps| && tasks[j].lock == tasks[i].lock && Locking(ps[j]);
    forall k | 0 <= k < |ps| && after[k].Connected? ensures LockTaken(tasks, after, tasks[k].lock) {
      if k == i {
        assert Locking(after[j]);
      } else {
        var l :| 0 <= l < |ps| && tasks[l].lock == tasks[k].lock && Locking(ps[l]);
        assert Locking(after[l]);
      }
    }
  }

  lemma JoinFirst(tasks: seq<Task>, free: nat, ps: seq<Stage>, i: nat)
    requires TasksCrowd(tasks, ps) && free > 0 && i < |ps| && ps[i].Idle?
    requires tasks[i].nested > 0 && !LockTaken(tasks, ps, tasks[i].lock)
    ensures var n := tasks[i].nested;
            && TaskNext(tasks, free, ps, i) == Some((free - 1, Connected))
            && TaskNext(tasks, free - 1, ps[i := Connected], i) == Some((free - 1, Working(n)))
            && TaskNext(tasks, free - 1, ps[i := Working(n)], i) == Some((free - 1, WantsSecond(n - 1)))
            && TasksCrowd(tasks, ps[i := WantsSecond(n - 1)])
  {
    var after := ps[i := WantsSecond(tasks[i].nested - 1)];
    forall k | 0 <= k < |ps| && after[k].Connected? ensures LockTaken(tasks, after, tasks[k].lock) {
      var l :| 0 <= l < |ps| && tasks[l].lock == tasks[k].lock && Locking(ps[l]);
      assert Locking(after[l]);
    }
  }
}
