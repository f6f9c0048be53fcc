/**
 * One connection pool, shared by the wallet calls of any number of
 * organisations and by any other tasks (lib/db/tenant.ts, lib/db/pool.ts). The
 * pool has no timeout: whoever finds it empty waits, holding what it holds.
 */
module SharedPool {
  import opened Common
  import opened ConnectionPool
  import opened Wallet
  import opened WalletCalls
  import opened WalletRace

  /** Everyone who uses the pool: the calls on each wallet, whose tables are given, and the other tasks. */
  datatype Load = Load(calls: seq<seq<Request>>, tables: seq<Tables>, tasks: seq<Task>)

  /** `free` connections are idle; the wallets' own field of that name is not used here. */
  datatype Shared = Shared(free: nat, wallets: seq<System>, stages: seq<Stage>)

  ghost predicate Shaped(load: Load, s: Shared) {
    && |s.wallets| == |load.calls| == |load.tables| && |s.stages| == |load.tasks|
    && forall w :: 0 <= w < |s.wallets| ==> |s.wallets[w].phases| == |load.calls[w]|
  }

  /** The next statement of call `i` on wallet `w`. */
  function CallNext(load: Load, s: Shared, w: nat, i: nat): Option<Shared>
    requires w < |s.wallets| && w < |load.calls| && i < |load.calls[w]| && i < |s.wallets[w].phases|
  {
    var next := Next(s.wallets[w].(free := s.free), i, load.calls[w][i]);
    if next.None? then None else Some(Shared(next.value.free, s.wallets[w := next.value], s.stages))
  }

  /** The next step of task `i`. */
  function StageNext(load: Load, s: Shared, i: nat): Option<Shared>
    requires i < |s.stages| == |load.tasks|
  {
    var next := TaskNext(load.tasks, s.free, s.stages, i);
    if next.None? then None else Some(s.(free := next.value.0, stages := s.stages[i := next.value.1]))
  }

  ghost predicate CallStep(load: Load, s: Shared, s': Shared, w: nat, i: nat) {
    Shaped(load, s) && w < |load.calls| && i < |load.calls[w]| && CallNext(load, s, w, i) == Some(s')
  }

  ghost predicate TaskStep(load: Load, s: Shared, s': Shared, i: nat) {
    Shaped(load, s) && i < |load.tasks| && StageNext(load, s, i) == Some(s')
  }

  ghost predicate Goes(load: Load, s: Shared, s': Shared) {
    (exists w, i :: CallStep(load, s, s', w, i)) || (exists i :: TaskStep(load, s, s', i))
  }

  function Begin(load: Load, size: nat): Shared
    requires |load.calls| == |load.tables|
  {
    Shared(size, seq(|load.calls|, w requires 0 <= w < |load.calls| => Start(load.calls[w], load.tables[w], size)),
           seq(|load.tasks|, _ => Idle))
  }

  ghost predicate Runs(load: Load, size: nat, trace: seq<Shared>) {
    && |load.calls| == |load.tables| && trace != [] && trace[0] == Begin(load, size)
    && forall k :: 0 < k < |trace| ==> Goes(load, trace[k - 1], trace[k])
  }

  // ---- What every state keeps ---------------------------------------------------

  function HeldIn(s: System): nat { Total(s.phases, Held) }

  /** Each wallet is as if its calls had run alone, in lock order; no connection is lost; tasks do what they said. */
  ghost predicate Kept(load: Load, size: nat, s: Shared) {
    && Shaped(load, s) && TasksOk(load.tasks, s.stages)
    && (forall w :: 0 <= w < |s.wallets| ==> Serial(load.calls[w], load.tables[w], s.wallets[w]))
    && s.free + Total(s.wallets, HeldIn) + Total(s.stages, Connections) == size
  }

  lemma FreeAside(rs: seq<Request>, db: Tables, s: System, free: nat)
    requires Serial(rs, db, s)
    ensures Serial(rs, db, s.(free := free))
  {
  }

  /** What a wallet call does to its own wallet. */
  lemma CallKeepsWallet(load: Load, s: Shared, s': Shared, w: nat, i: nat)
    requires CallStep(load, s, s', w, i) && Serial(load.calls[w], load.tables[w], s.wallets[w])
    ensures |s'.wallets| == |s.wallets| && s'.wallets == s.wallets[w := s'.wallets[w]] && s'.stages == s.stages
    ensures Serial(load.calls[w], load.tables[w], s'.wallets[w])
    ensures s'.free + HeldIn(s'.wallets[w]) == s.free + HeldIn(s.wallets[w])
  {
    var rs, before := load.calls[w], s.wallets[w].(free := s.free);
    FreeAside(rs, load.tables[w], s.wallets[w], s.free);
    assert Step(rs, before, s'.wallets[w]) by { assert Next(before, i, rs[i]) == Some(s'.wallets[w]); }
    StepKeepsSerial(rs, load.tables[w], before, s'.wallets[w]);
    NextKeepsConnections(before, i, rs[i]);
    TotalUpdate(before.phases, i, s'.wallets[w].phases[i], Held);
  }

  lemma CallKeeps(load: Load, size: nat, s: Shared, s': Shared, w: nat, i: nat)
    requires Kept(load, size, s) && CallStep(load, s, s', w, i)
    ensures Kept(load, size, s')
  {
    CallKeepsWallet(load, s, s', w, i);
    TotalUpdate(s.wallets, w, s'.wallets[w], HeldIn);
  }

  lemma TaskKeeps(load: Load, size: nat, s: Shared, s': Shared, i: nat)
    requires Kept(load, size, s) && TaskStep(load, s, s', i)
    ensures Kept(load, size, s')
  {
    TaskStepKept(load.tasks, s.free, s.stages, i);
  }

  lemma GoesKeeps(load: Load, size: nat, s: Shared, s': Shared)
    requires Kept(load, size, s) && Goes(load, s, s')
    ensures Kept(load, size, s')
  {
    if w, i :| CallStep(load, s, s', w, i) {
      CallKeeps(load, size, s, s', w, i);
    } else {
      var i :| TaskStep(load, s, s', i);
      TaskKeeps(load, size, s, s', i);
    }
  }

  lemma BeginKept(load: Load, size: nat)
    requires |load.calls| == |load.tables|
    ensures Kept(load, size, Begin(load, size))
  {
    var s := Begin(load, size);
    forall w | 0 <= w < |s.wallets|
      ensures Serial(load.calls[w], load.tables[w], s.wallets[w]) && HeldIn(s.wallets[w]) <= 0
    {
      TotalBound(s.wallets[w].phases, Held, 0);
      var alone := [s.wallets[w]];
      assert Execution(load.calls[w], load.tables[w], size, alone);
      EveryExecutionSerial(load.calls[w], load.tables[w], size, alone, 0);
    }
    TotalBound(s.wallets, HeldIn, 0);
    TotalBound(s.stages, Connections, 0);
  }

  /** However the pool is shared, every wallet stays explained by its lock order and every connection accounted for. */
  lemma {:induction false} EveryStateKept(load: Load, size: nat, trace: seq<Shared>, k: nat)
    requires Runs(load, size, trace) && k < |trace|
    ensures Kept(load, size, trace[k])
  {
    if k == 0 {
      BeginKept(load, size);
    } else {
      EveryStateKept(load, size, trace, k - 1);
      GoesKeeps(load, size, trace[k - 1], trace[k]);
    }
  }

  // ---- Every run is bounded -------------------------------------------------------

  function RankIn(s: System): nat { Total(s.phases, Rank) }

  function StageRank(t: Task, p: Stage): nat {
    match p
    case Idle => 3 * t.nested + 3
    case Connected => 3 * t.nested + 2
    case Working(left) => 3 * left + 1
    case WantsSecond(left) => 3 * left + 3
    case HoldsTwo(left) => 3 * left + 2
    case Released => 0
  }

  function StageRanks(tasks: seq<Task>, ps: seq<Stage>): seq<nat>
    requires |ps| == |tasks|
  {
    seq(|ps|, i requires 0 <= i < |ps| => StageRank(tasks[i], ps[i]))
  }

  function Itself(n: nat): nat { n }

  ghost function Work(load: Load, s: Shared): nat
    requires Shaped(load, s)
  {
    Total(s.wallets, RankIn) + Total(StageRanks(load.tasks, s.stages), Itself)
  }

  lemma CallDescends(load: Load, s: Shared, s': Shared, w: nat, i: nat)
    requires CallStep(load, s, s', w, i)
    ensures Shaped(load, s') && Work(load, s') < Work(load, s)
  {
    var before, after := s.wallets[w].(free := s.free), s'.wallets[w];
    NextDescends(before, i, load.calls[w][i]);
    TotalUpdate(before.phases, i, after.phases[i], Rank);
    TotalUpdate(s.wallets, w, after, RankIn);
  }

  lemma TaskDescends(load: Load, s: Shared, s': Shared, i: nat)
    requires TaskStep(load, s, s', i)
    ensures Shaped(load, s') && Work(load, s') < Work(load, s)
  {
    var before, after := StageRanks(load.tasks, s.stages), StageRanks(load.tasks, s'.stages);
    assert after == before[i := after[i]];
    TotalUpdate(before, i, after[i], Itself);
  }

  lemma GoesDescends(load: Load, s: Shared, s': Shared)
    requires Goes(load, s, s')
    ensures Shaped(load, s) && Shaped(load, s') && Work(load, s') < Work(load, s)
  {
    if w, i :| CallStep(load, s, s', w, i) {
      CallDescends(load, s, s', w, i);
    } else {
      var i :| TaskStep(load, s, s', i);
      TaskDescends(load, s, s', i);
    }
  }

  lemma {:induction false} WorkDescends(load: Load, size: nat, trace: seq<Shared>, k: nat)
    requires Runs(load, size, trace) && k < |trace|
    ensures Shaped(load, trace[k]) && Work(load, trace[k]) + k <= Work(load, trace[0])
  {
    if k > 0 {
      WorkDescends(load, size, trace, k - 1);
      GoesDescends(load, trace[k - 1], trace[k]);
    }
  }

  function CallSteps(rs: seq<Request>): nat { 8 * |rs| }

  function TaskSteps(t: Task): nat { 3 * t.nested + 3 }

  /** No run is longer than eight statements a call, and for a task three steps and three for each nested use. */
  lemma RunsBounded(load: Load, size: nat, trace: seq<Shared>)
    requires Runs(load, size, trace)
    ensures |trace| <= Total(load.calls, CallSteps) + Total(load.tasks, TaskSteps) + 1
  {
    var s := trace[0];
    WorkDescends(load, size, trace, |trace| - 1);
    forall w | 0 <= w < |s.wallets| ensures RankIn(s.wallets[w]) <= CallSteps(load.calls[w]) {
      TotalBound(s.wallets[w].phases, Rank, 8);
    }
    TotalAtMost(s.wallets, RankIn, load.calls, CallSteps);
    TotalAtMost(StageRanks(load.tasks, s.stages), Itself, load.tasks, TaskSteps);
  }

  // ---- Users that have stopped for ever -----------------------------------------------

  ghost predicate AllEnded(s: Shared) {
    && (forall w :: 0 <= w < |s.wallets| ==> AllOver(s.wallets[w]))
    && (forall i :: 0 <= i < |s.stages| ==> s.stages[i].Released?)
  }

  ghost predicate CanGo(load: Load, s: Shared) { exists s' :: Goes(load, s, s') }

  ghost predicate Stopped(load: Load, s: Shared) { !AllEnded(s) && !CanGo(load, s) }

  /** The calls in `order`, run one by one, leave a balance that the audited debit `call` overdraws. */
  datatype Plan = Plan(order: seq<nat>, call: nat)

  ghost predicate PlanOk(rs: seq<Request>, db: Tables, p: Plan) {
    && InRange(p.order, |rs|) && Distinct(p.order) && p.call < |rs| && p.call !in p.order
    && Audited(rs[p.call]) && Overdraws(RowOf(Run(db, Pick(rs, p.order)).0), rs[p.call])
  }

  /** How many calls can then wait for that one, itself included. */
  function Waiters(rs: seq<Request>, plan: Option<Plan>): nat {
    if plan.Some? && |plan.value.order| <= |rs| then |rs| - |plan.value.order| else 0
  }

  function AllWaiters(load: Load, plans: seq<Option<Plan>>): seq<nat>
    requires |plans| == |load.calls|
  {
    seq(|plans|, w requires 0 <= w < |plans| => Waiters(load.calls[w], plans[w]))
  }

  /**
   * On some wallets there is such a plan, and the calls that can then wait,
   * together with the tasks that nest or wait for one that does, are as many as
   * there are connections.
   */
  ghost predicate Fatal(load: Load, size: nat, plans: seq<Option<Plan>>) {
    && |plans| == |load.calls| == |load.tables|
    && (forall w :: 0 <= w < |plans| && plans[w].Some? ==> PlanOk(load.calls[w], load.tables[w], plans[w].value))
    && Total(AllWaiters(load, plans), Itself) + EndangeredTasks(load.tasks) >= size
  }

  /** A call holds the row lock of its wallet and waits for its second connection. */
  ghost predicate AuditWaits(s: System) {
    s.holder.Some? && s.holder.value < |s.phases| && s.phases[s.holder.value].NeedsSecond?
  }

  function PlanOf(s: System): Option<Plan> {
    if s.holder.Some? && s.holder.value < |s.phases| && s.phases[s.holder.value].NeedsSecond?
    then Some(Plan(Settled(s), s.holder.value)) else None
  }

  ghost predicate CallsStopped(rs: seq<Request>, free: nat, s: System) {
    |s.phases| == |rs| && forall i :: 0 <= i < |rs| ==> Next(s.(free := free), i, rs[i]).None?
  }

  lemma {:induction false} TotalWithout(ps: seq<Phase>, done: seq<nat>)
    requires InRange(done, |ps|) && Distinct(done)
    requires forall i :: 0 <= i < |ps| ==> Held(ps[i]) <= 1 && (i in done ==> Held(ps[i]) == 0)
    ensures Total(ps, Held) + |done| <= |ps|
    decreases |done|
  {
    if done == [] {
      TotalBound(ps, Held, 1);
    } else {
      var n := |done| - 1;
      LastMember(done);
      assert done[n] in done && done[n] !in done[..n];
      TotalUpdate(ps, done[n], Begun, Held);
      TotalWithout(ps[done[n] := Begun], done[..n]);
    }
  }

  lemma NobodyLocking(rs: seq<Request>, db: Tables, free: nat, s: System)
    requires Shape(rs, db, s) && CallsStopped(rs, free, s) && s.holder.None?
    ensures HeldIn(s) == 0 && (AllOver(s) || free == 0)
  {
    forall i | 0 <= i < |s.phases| ensures Held(s.phases[i]) == 0 && (Over(s.phases[i]) || free == 0) {
      assert Next(s.(free := free), i, rs[i]).None?;
    }
    TotalBound(s.phases, Held, 0);
  }

  lemma AuditLocking(rs: seq<Request>, db: Tables, free: nat, s: System)
    requires Serial(rs, db, s) && CallsStopped(rs, free, s) && s.holder.Some?
    ensures free == 0 && AuditWaits(s) && PlanOk(rs, db, Plan(Settled(s), s.holder.value))
    ensures HeldIn(s) + |Settled(s)| <= |rs|
  {
    var i, done := s.holder.value, Settled(s);
    HolderHolds(rs, db, s);
    assert Next(s.(free := free), i, rs[i]).None?;
    HolderLast(rs, db, s, i);
    forall k | 0 <= k < |done| ensures done[k] < |rs| && s.phases[done[k]].Finished? { assert done[k] in s.order; }
    TotalWithout(s.phases, done);
  }

  /** On a wallet whose calls have stopped nothing is held, or one call holds the row lock and waits for its audit. */
  lemma StoppedWallet(rs: seq<Request>, db: Tables, free: nat, s: System)
    requires Serial(rs, db, s) && CallsStopped(rs, free, s)
    ensures AllOver(s) || free == 0
    ensures PlanOf(s).Some? ==> AuditWaits(s) && PlanOk(rs, db, PlanOf(s).value)
    ensures HeldIn(s) <= Waiters(rs, PlanOf(s))
  {
    if s.holder.None? {
      NobodyLocking(rs, db, free, s);
    } else {
      AuditLocking(rs, db, free, s);
    }
  }

  lemma StoppedEverywhere(load: Load, size: nat, s: Shared)
    requires Kept(load, size, s) && Stopped(load, s)
    ensures TasksStopped(load.tasks, s.free, s.stages)
    ensures forall w :: 0 <= w < |s.wallets| ==> CallsStopped(load.calls[w], s.free, s.wallets[w])
  {
    forall i | 0 <= i < |s.stages| ensures TaskNext(load.tasks, s.free, s.stages, i).None? {
      if StageNext(load, s, i).Some? {
        assert TaskStep(load, s, StageNext(load, s, i).value, i);
        assert Goes(load, s, StageNext(load, s, i).value);
      }
    }
    forall w, i | 0 <= w < |s.wallets| && 0 <= i < |load.calls[w]|
      ensures Next(s.wallets[w].(free := s.free), i, load.calls[w][i]).None?
    {
      if CallNext(load, s, w, i).Some? {
        assert CallStep(load, s, CallNext(load, s, w, i).value, w, i);
        assert Goes(load, s, CallNext(load, s, w, i).value);
      }
    }
  }

  function PlansOf(s: Shared): seq<Option<Plan>> {
    seq(|s.wallets|, w requires 0 <= w < |s.wallets| => PlanOf(s.wallets[w]))
  }

  lemma StoppedHasPlans(load: Load, size: nat, s: Shared)
    requires Kept(load, size, s) && Stopped(load, s)
    ensures s.free == 0 && Fatal(load, size, PlansOf(s))
  {
    var plans := PlansOf(s);
    StoppedEverywhere(load, size, s);
    StoppedTasks(load.tasks, s.free, s.stages);
    forall w | 0 <= w < |s.wallets|
      ensures AllOver(s.wallets[w]) || s.free == 0
      ensures plans[w].Some? ==> PlanOk(load.calls[w], load.tables[w], plans[w].value)
      ensures HeldIn(s.wallets[w]) <= Itself(AllWaiters(load, plans)[w])
    {
      StoppedWallet(load.calls[w], load.tables[w], s.free, s.wallets[w]);
    }
    TotalAtMost(s.wallets, HeldIn, AllWaiters(load, plans), Itself);
  }

  /**
   * Whoever is stopped, no connection is idle, and a wallet call or a task inside a transaction
   * waits for a second one.
   */
  lemma StoppedIsNested(load: Load, size: nat, s: Shared)
    requires Kept(load, size, s) && size > 0 && Stopped(load, s)
    ensures s.free == 0
    ensures || (exists w :: 0 <= w < |s.wallets| && AuditWaits(s.wallets[w]))
            || (exists i :: 0 <= i < |s.stages| && s.stages[i].WantsSecond?)
  {
    StoppedHasPlans(load, size, s);
    StoppedEverywhere(load, size, s);
    if Total(s.wallets, HeldIn) > 0 {
      var w := TotalPositive(s.wallets, HeldIn);
      StoppedWallet(load.calls[w], load.tables[w], s.free, s.wallets[w]);
    } else {
      var i := TotalPositive(s.stages, Connections);
      i := StoppedHolder(load.tasks, s.free, s.stages, i);
    }
  }
}
