/**
 * When the users of a shared pool stop each other for ever. A rejected debit
 * that is audited holds its connection and the row lock of its wallet while it
 * asks the same pool for a second connection (lib/billing/wallet.ts,
 * lib/audit/log.ts); a task may nest in the same way (lib/providers/registry.ts).
 * All connections may be held by those, and by users that wait for their row locks.
 */
module PoolDeadlock {
  import opened Common
  import opened ConnectionPool
  import opened SharedPool
  import opened Wallet
  import opened WalletCalls
  import opened WalletRace

  // ---- Calls one by one ---------------------------------------------------------

  /** The calls in `order` have ended and no other call has begun. */
  ghost predicate Resting(rs: seq<Request>, s: System, order: seq<nat>) {
    && |s.phases| == |rs| && InRange(order, |rs|) && s.order == order && s.holder.None? && s.db.wallet.Some?
    && forall j :: 0 <= j < |rs| ==> if j in order then s.phases[j].Finished? else s.phases[j].Waiting?
  }

  /** The same, but call `i` is on its way. */
  ghost predicate Alone(rs: seq<Request>, s: System, order: seq<nat>, i: nat) {
    && |s.phases| == |rs| && InRange(order, |rs|) && i < |rs| && i !in order && s.db.wallet.Some?
    && (forall j :: 0 <= j < |rs| && j != i ==> if j in order then s.phases[j].Finished? else s.phases[j].Waiting?)
    && (if Holding(s.phases[i]) then s.holder == Some(i) && s.order == order + [i]
        else (s.phases[i].Begun? || s.phases[i].Waiting?) && s.holder.None? && s.order == order)
  }

  /** What one statement makes of a call that is on its way alone. */
  lemma AloneStep(rs: seq<Request>, s: System, order: seq<nat>, i: nat)
    requires Alone(rs, s, order, i) && Next(s, i, rs[i]).Some?
    ensures var s' := Next(s, i, rs[i]).value;
            Alone(rs, s', order, i) || Resting(rs, s', order + [i])
  {
    StepKinds(s, i, rs[i]);
    assert forall j :: j in order + [i] <==> j in order || j == i;
  }

  ghost predicate TasksIdle(s: Shared) { forall i :: 0 <= i < |s.stages| ==> s.stages[i].Idle? }

  ghost predicate AllResting(load: Load, s: Shared, orders: seq<seq<nat>>) {
    && Shaped(load, s) && |orders| == |s.wallets| && TasksIdle(s)
    && forall w :: 0 <= w < |s.wallets| ==> Resting(load.calls[w], s.wallets[w], orders[w])
  }

  ghost predicate OneAlone(load: Load, s: Shared, orders: seq<seq<nat>>, w: nat, i: nat) {
    && Shaped(load, s) && |orders| == |s.wallets| && TasksIdle(s) && w < |s.wallets|
    && (forall v :: 0 <= v < |s.wallets| && v != w ==> Resting(load.calls[v], s.wallets[v], orders[v]))
    && Alone(load.calls[w], s.wallets[w], orders[w], i)
  }

  lemma Extend(load: Load, size: nat, trace: seq<Shared>, s: Shared) returns (longer: seq<Shared>)
    requires Runs(load, size, trace) && Goes(load, trace[|trace| - 1], s)
    ensures Runs(load, size, longer) && longer[|longer| - 1] == s
  {
    longer := trace + [s];
  }

  lemma ExtendCall(load: Load, size: nat, trace: seq<Shared>, s: Shared, w: nat, i: nat) returns (longer: seq<Shared>)
    requires Runs(load, size, trace) && CallStep(load, trace[|trace| - 1], s, w, i)
    ensures Runs(load, size, longer) && longer[|longer| - 1] == s
  {
    longer := Extend(load, size, trace, s);
  }

  lemma ExtendTask(load: Load, size: nat, trace: seq<Shared>, s: Shared, i: nat) returns (longer: seq<Shared>)
    requires Runs(load, size, trace) && TaskStep(load, trace[|trace| - 1], s, i)
    ensures Runs(load, size, longer) && longer[|longer| - 1] == s
  {
    longer := Extend(load, size, trace, s);
  }

  /** Nobody can go on, if no call and no task can. */
  lemma NobodyGoes(load: Load, s: Shared)
    requires Shaped(load, s) && TasksStopped(load.tasks, s.free, s.stages)
    requires forall w :: 0 <= w < |s.wallets| ==> CallsStopped(load.calls[w], s.free, s.wallets[w])
    ensures !CanGo(load, s)
  {
    forall s' ensures !Goes(load, s, s') {
      forall w: nat, i: nat ensures !CallStep(load, s, s', w, i) {
        if w < |s.wallets| && i < |load.calls[w]| { assert CallsStopped(load.calls[w], s.free, s.wallets[w]); }
      }
      forall i: nat ensures !TaskStep(load, s, s', i) {
        if i < |s.stages| { assert TaskNext(load.tasks, s.free, s.stages, i).None?; }
      }
    }
  }

  lemma AloneCallsStop(rs: seq<Request>, s: System, order: seq<nat>, i: nat, free: nat)
    requires Alone(rs, s, order, i) && Next(s.(free := free), i, rs[i]).None?
    ensures free == 0 && CallsStopped(rs, 0, s) && !AllOver(s)
  {
    assert !Over(s.phases[i]);
  }

  lemma AloneStops(load: Load, s: Shared, orders: seq<seq<nat>>, w: nat, i: nat)
    requires OneAlone(load, s, orders, w, i) && CallNext(load, s, w, i).None?
    ensures Stopped(load, s)
  {
    AloneCallsStop(load.calls[w], s.wallets[w], orders[w], i, s.free);
    forall v | 0 <= v < |s.wallets| ensures CallsStopped(load.calls[v], 0, s.wallets[v]) {
      if v != w { assert Resting(load.calls[v], s.wallets[v], orders[v]); }
    }
    NobodyGoes(load, s);
  }

  lemma AloneGoes(load: Load, s: Shared, orders: seq<seq<nat>>, w: nat, i: nat) returns (s': Shared)
    requires OneAlone(load, s, orders, w, i) && CallNext(load, s, w, i).Some?
    ensures CallStep(load, s, s', w, i)
    ensures OneAlone(load, s', orders, w, i) || AllResting(load, s', orders[w := orders[w] + [i]])
    ensures Rank(s'.wallets[w].phases[i]) < Rank(s.wallets[w].phases[i])
  {
    s' := CallNext(load, s, w, i).value;
    var before, after, now := s.wallets[w].(free := s.free), s'.wallets[w], orders[w := orders[w] + [i]];
    AloneStep(load.calls[w], before, orders[w], i);
    NextDescends(before, i, load.calls[w][i]);
    assert forall v :: 0 <= v < |s.wallets| && v != w ==> s'.wallets[v] == s.wallets[v] && now[v] == orders[v];
    if Resting(load.calls[w], after, now[w]) {
      assert AllResting(load, s', now);
    } else {
      assert OneAlone(load, s', orders, w, i);
    }
  }

  /** A call that runs alone either ends or waits for ever for its second connection. */
  lemma {:induction false} RunAlone(load: Load, size: nat, trace: seq<Shared>, orders: seq<seq<nat>>, w: nat, i: nat)
    returns (longer: seq<Shared>)
    requires Runs(load, size, trace) && OneAlone(load, trace[|trace| - 1], orders, w, i)
    ensures Runs(load, size, longer)
    ensures var s := longer[|longer| - 1]; Stopped(load, s) || AllResting(load, s, orders[w := orders[w] + [i]])
    decreases Rank(trace[|trace| - 1].wallets[w].phases[i])
  {
    hide Stopped, AllResting, CallStep;
    var s := trace[|trace| - 1];
    if CallNext(load, s, w, i).None? {
      AloneStops(load, s, orders, w, i);
      longer := trace;
    } else {
      var s' := AloneGoes(load, s, orders, w, i);
      longer := ExtendCall(load, size, trace, s', w, i);
      if OneAlone(load, s', orders, w, i) { longer := RunAlone(load, size, longer, orders, w, i); }
    }
  }

  /** On wallet `w` the calls in `order` can be run one by one, unless one of them already stops for ever. */
  lemma {:induction false} RunOrder(load: Load, size: nat, trace: seq<Shared>, orders: seq<seq<nat>>, w: nat,
                                    order: seq<nat>)
    returns (longer: seq<Shared>)
    requires Runs(load, size, trace) && AllResting(load, trace[|trace| - 1], orders)
    requires w < |orders| && orders[w] == [] && InRange(order, |load.calls[w]|) && Distinct(order)
    ensures Runs(load, size, longer)
    ensures var s := longer[|longer| - 1]; Stopped(load, s) || AllResting(load, s, orders[w := order])
    decreases |order|
  {
    if order == [] {
      longer := trace;
      assert orders[w := order] == orders;
    } else {
      var n := |order| - 1;
      longer := RunOrder(load, size, trace, orders, w, order[..n]);
      var s, now := longer[|longer| - 1], orders[w := order[..n]];
      if AllResting(load, s, now) {
        LastMember(order);
        assert order[n] !in order[..n] && order == order[..n] + [order[n]];
        assert Resting(load.calls[w], s.wallets[w], now[w]);
        longer := RunAlone(load, size, longer, now, w, order[n]);
        assert now[w := now[w] + [order[n]]] == orders[w := order];
      }
    }
  }

  function OrderOf(plan: Option<Plan>): seq<nat> { if plan.Some? then plan.value.order else [] }

  /** The orders of the first `n` plans. */
  function Orders(plans: seq<Option<Plan>>, n: nat): seq<seq<nat>> {
    seq(|plans|, w requires 0 <= w < |plans| => if w < n then OrderOf(plans[w]) else [])
  }

  lemma BeginRests(load: Load, size: nat, plans: seq<Option<Plan>>)
    requires Fatal(load, size, plans) && forall w :: 0 <= w < |load.tables| ==> load.tables[w].wallet.Some?
    ensures AllResting(load, Begin(load, size), Orders(plans, 0))
  {
  }

  lemma PlannedOrder(load: Load, size: nat, plans: seq<Option<Plan>>, w: nat)
    requires Fatal(load, size, plans) && w < |plans|
    ensures w < |load.calls| && InRange(OrderOf(plans[w]), |load.calls[w]|) && Distinct(OrderOf(plans[w]))
  {
    if plans[w].Some? { assert PlanOk(load.calls[w], load.tables[w], plans[w].value); }
  }

  lemma OneMoreOrder(plans: seq<Option<Plan>>, n: nat)
    requires n < |plans|
    ensures Orders(plans, n)[n] == [] && Orders(plans, n)[n := OrderOf(plans[n])] == Orders(plans, n + 1)
  {
  }

  lemma RunPlan(load: Load, size: nat, plans: seq<Option<Plan>>, trace: seq<Shared>, n: nat)
    returns (longer: seq<Shared>)
    requires Fatal(load, size, plans) && n < |plans|
    requires Runs(load, size, trace) && AllResting(load, trace[|trace| - 1], Orders(plans, n))
    ensures Runs(load, size, longer)
    ensures var s := longer[|longer| - 1]; Stopped(load, s) || AllResting(load, s, Orders(plans, n + 1))
  {
    hide Stopped, AllResting, Fatal;
    PlannedOrder(load, size, plans, n);
    OneMoreOrder(plans, n);
    longer := RunOrder(load, size, trace, Orders(plans, n), n, OrderOf(plans[n]));
  }

  lemma {:induction false} RunOrders(load: Load, size: nat, plans: seq<Option<Plan>>, n: nat)
    returns (trace: seq<Shared>)
    requires Fatal(load, size, plans) && n <= |plans|
    requires forall w :: 0 <= w < |load.tables| ==> load.tables[w].wallet.Some?
    ensures Runs(load, size, trace)
    ensures var s := trace[|trace| - 1]; Stopped(load, s) || AllResting(load, s, Orders(plans, n))
  {
    if n == 0 {
      trace := [Begin(load, size)];
      BeginRests(load, size, plans);
    } else {
      hide Stopped, AllResting, Fatal;
      trace := RunOrders(load, size, plans, n - 1);
      if !Stopped(load, trace[|trace| - 1]) { trace := RunPlan(load, size, plans, trace, n - 1); }
    }
  }

  // ---- The crowd ------------------------------------------------------------------

  /** Call `p.call` waits with the row lock for its second connection; others are connected and wait for the lock. */
  ghost predicate Crowded(rs: seq<Request>, s: System, p: Plan) {
    && |s.phases| == |rs| && InRange(p.order, |rs|) && p.call < |rs| && p.call !in p.order
    && s.holder == Some(p.call) && s.phases[p.call].NeedsSecond? && s.db.wallet.Some?
    && forall j :: 0 <= j < |rs| && j != p.call ==>
         if j in p.order then s.phases[j].Finished? else s.phases[j].Waiting? || s.phases[j].Begun?
  }

  ghost predicate WalletReady(rs: seq<Request>, s: System, plan: Option<Plan>) {
    Resting(rs, s, OrderOf(plan)) || (plan.Some? && Crowded(rs, s, plan.value))
  }

  ghost predicate Crowd(load: Load, plans: seq<Option<Plan>>, s: Shared) {
    && Shaped(load, s) && |plans| == |s.wallets| && TasksCrowd(load.tasks, s.stages)
    && forall w :: 0 <= w < |s.wallets| ==> WalletReady(load.calls[w], s.wallets[w], plans[w])
  }

  lemma CrowdedStops(rs: seq<Request>, s: System, plan: Option<Plan>)
    requires WalletReady(rs, s, plan)
    ensures CallsStopped(rs, 0, s) && (AllOver(s) ==> HeldIn(s) == 0)
  {
    if AllOver(s) { TotalBound(s.phases, Held, 0); }
  }

  lemma CrowdStops(load: Load, size: nat, plans: seq<Option<Plan>>, s: Shared)
    requires Kept(load, size, s) && Crowd(load, plans, s) && size > 0 && s.free == 0
    ensures Stopped(load, s)
  {
    forall w | 0 <= w < |s.wallets|
      ensures CallsStopped(load.calls[w], 0, s.wallets[w]) && (AllOver(s.wallets[w]) ==> HeldIn(s.wallets[w]) == 0)
    {
      CrowdedStops(load.calls[w], s.wallets[w], plans[w]);
    }
    CrowdStopped(load.tasks, s.stages);
    NobodyGoes(load, s);
    if Total(s.wallets, HeldIn) > 0 {
      var w := TotalPositive(s.wallets, HeldIn);
      assert !AllOver(s.wallets[w]);
    } else {
      var i := TotalPositive(s.stages, Connections);
    }
  }

  lemma WalletChanges(load: Load, plans: seq<Option<Plan>>, s: Shared, w: nat, part: System, free: nat)
    requires Crowd(load, plans, s) && w < |s.wallets| && WalletReady(load.calls[w], part, plans[w])
    ensures Crowd(load, plans, Shared(free, s.wallets[w := part], s.stages))
  {
  }

  /** A call that is planned connects, takes the row lock and is refused. */
  lemma Refused(rs: seq<Request>, db: Tables, s: System, p: Plan, free: nat) returns (a: System, b: System, c: System)
    requires Serial(rs, db, s) && Resting(rs, s, p.order) && PlanOk(rs, db, p) && free > 0
    ensures Next(s.(free := free), p.call, rs[p.call]) == Some(a) && a.free == free - 1
    ensures Next(a, p.call, rs[p.call]) == Some(b) && b.free == free - 1
    ensures Next(b, p.call, rs[p.call]) == Some(c) && c.free == free - 1
    ensures |a.phases| == |b.phases| == |c.phases| == |rs| && Crowded(rs, c, p)
  {
    var row := s.db.wallet.value;
    a := Move(s, p.call, WalletRace.Begun).(free := free - 1);
    b := Take(a, p.call, row);
    c := Move(b, p.call, NeedsSecond(row));
  }

  lemma CallGoes(load: Load, s: Shared, w: nat, i: nat, part: System)
    requires Shaped(load, s) && w < |s.wallets| && i < |load.calls[w]| && |part.phases| == |load.calls[w]|
    requires Next(s.wallets[w].(free := s.free), i, load.calls[w][i]) == Some(part)
    ensures CallStep(load, s, Shared(part.free, s.wallets[w := part], s.stages), w, i)
    ensures Shaped(load, Shared(part.free, s.wallets[w := part], s.stages))
  {
  }

  /** The planned call joins the crowd. */
  lemma CallJoins(load: Load, size: nat, plans: seq<Option<Plan>>, trace: seq<Shared>, w: nat)
    returns (longer: seq<Shared>)
    requires Runs(load, size, trace) && Crowd(load, plans, trace[|trace| - 1]) && Fatal(load, size, plans)
    requires trace[|trace| - 1].free > 0 && w < |plans| && plans[w].Some?
    requires Resting(load.calls[w], trace[|trace| - 1].wallets[w], OrderOf(plans[w]))
    ensures Runs(load, size, longer) && Crowd(load, plans, longer[|longer| - 1])
    ensures longer[|longer| - 1].free == trace[|trace| - 1].free - 1
  {
    hide Next, Crowded, Resting, Serial, CallStep, Goes, TasksCrowd, PlanOk;
    var s, rs, p, free := trace[|trace| - 1], load.calls[w], plans[w].value, trace[|trace| - 1].free;
    assert PlanOk(rs, load.tables[w], p);
    EveryStateKept(load, size, trace, |trace| - 1);
    var a, b, c := Refused(rs, load.tables[w], s.wallets[w], p, free);
    var s1, s2 := Shared(free - 1, s.wallets[w := a], s.stages), Shared(free - 1, s.wallets[w := b], s.stages);
    var s3 := Shared(free - 1, s.wallets[w := c], s.stages);
    assert s1.wallets[w := b] == s2.wallets && s2.wallets[w := c] == s3.wallets;
    assert a.(free := free - 1) == a && b.(free := free - 1) == b;
    CallGoes(load, s, w, p.call, a);
    CallGoes(load, s1, w, p.call, b);
    CallGoes(load, s2, w, p.call, c);
    longer := ExtendCall(load, size, trace, s1, w, p.call);
    longer := ExtendCall(load, size, longer, s2, w, p.call);
    longer := ExtendCall(load, size, longer, s3, w, p.call);
    WalletChanges(load, plans, s, w, c, free - 1);
  }

  /** Another call of that wallet joins: it connects and waits for the row lock. */
  lemma WaiterJoins(load: Load, size: nat, plans: seq<Option<Plan>>, trace: seq<Shared>, w: nat, j: nat)
    returns (longer: seq<Shared>)
    requires Runs(load, size, trace) && Crowd(load, plans, trace[|trace| - 1])
    requires trace[|trace| - 1].free > 0 && w < |plans| && plans[w].Some? && j < |load.calls[w]|
    requires Crowded(load.calls[w], trace[|trace| - 1].wallets[w], plans[w].value)
    requires trace[|trace| - 1].wallets[w].phases[j].Waiting?
    ensures Runs(load, size, longer) && Crowd(load, plans, longer[|longer| - 1])
    ensures longer[|longer| - 1].free == trace[|trace| - 1].free - 1
  {
    var s := trace[|trace| - 1];
    var a := Move(s.wallets[w], j, WalletRace.Begun).(free := s.free - 1);
    CallGoes(load, s, w, j, a);
    longer := ExtendCall(load, size, trace, Shared(s.free - 1, s.wallets[w := a], s.stages), w, j);
    assert Crowded(load.calls[w], a, plans[w].value);
    WalletChanges(load, plans, s, w, a, s.free - 1);
  }

  lemma TaskJoins(load: Load, size: nat, plans: seq<Option<Plan>>, trace: seq<Shared>) returns (longer: seq<Shared>)
    requires Runs(load, size, trace) && Crowd(load, plans, trace[|trace| - 1]) && trace[|trace| - 1].free > 0
    requires Total(trace[|trace| - 1].stages, Connections) < EndangeredTasks(load.tasks)
    ensures Runs(load, size, longer) && Crowd(load, plans, longer[|longer| - 1])
    ensures longer[|longer| - 1].free == trace[|trace| - 1].free - 1
  {
    var s, free := trace[|trace| - 1], trace[|trace| - 1].free;
    var i := SomeoneOutside(load.tasks, s.stages);
    var a := s.(free := free - 1, stages := s.stages[i := Connected]);
    if LockTaken(load.tasks, s.stages, load.tasks[i].lock) {
      JoinBehind(load.tasks, free, s.stages, i);
      longer := ExtendTask(load, size, trace, a, i);
    } else {
      JoinFirst(load.tasks, free, s.stages, i);
      var n := load.tasks[i].nested;
      var b := a.(stages := s.stages[i := Working(n)]);
      var c := a.(stages := s.stages[i := WantsSecond(n - 1)]);
      assert a.stages[i := Working(n)] == b.stages && b.stages[i := WantsSecond(n - 1)] == c.stages;
      longer := ExtendTask(load, size, trace, a, i);
      longer := ExtendTask(load, size, longer, b, i);
      longer := ExtendTask(load, size, longer, c, i);
    }
  }

  lemma {:induction false} TotalOutside(ps: seq<Phase>, done: seq<nat>)
    requires InRange(done, |ps|) && forall i :: 0 <= i < |ps| && i !in done ==> Held(ps[i]) >= 1
    ensures Total(ps, Held) + |done| >= |ps|
    decreases |done|
  {
    if done == [] {
      AllPositive(ps);
    } else {
      var n := |done| - 1;
      LastMember(done);
      TotalUpdate(ps, done[n], WalletRace.Begun, Held);
      if Held(ps[done[n]]) == 0 {
        TotalOutside(ps[done[n] := WalletRace.Begun], done[..n]);
      } else {
        TotalOutside(ps, done[..n]);
      }
    }
  }

  lemma {:induction false} AllPositive(ps: seq<Phase>)
    requires forall i :: 0 <= i < |ps| ==> Held(ps[i]) >= 1
    ensures Total(ps, Held) >= |ps|
  {
    if ps != [] { AllPositive(ps[1..]); }
  }

  /** Room is left on the wallet for its planned call or for another to wait for it. */
  ghost predicate HasRoom(rs: seq<Request>, s: System, plan: Option<Plan>) {
    plan.Some? && (Resting(rs, s, plan.value.order) || exists j :: 0 <= j < |s.phases| && s.phases[j].Waiting?)
  }

  lemma NoRoom(rs: seq<Request>, s: System, plan: Option<Plan>)
    requires WalletReady(rs, s, plan) && !HasRoom(rs, s, plan)
    ensures HeldIn(s) >= Waiters(rs, plan)
  {
    if plan.Some? { TotalOutside(s.phases, plan.value.order); }
  }

  lemma NoCallOutside(load: Load, size: nat, plans: seq<Option<Plan>>, s: Shared)
    requires Kept(load, size, s) && Crowd(load, plans, s) && Fatal(load, size, plans) && s.free > 0
    requires forall w :: 0 <= w < |plans| ==> !HasRoom(load.calls[w], s.wallets[w], plans[w])
    ensures Total(s.stages, Connections) < EndangeredTasks(load.tasks)
  {
    forall w | 0 <= w < |plans| ensures Itself(AllWaiters(load, plans)[w]) <= HeldIn(s.wallets[w]) {
      NoRoom(load.calls[w], s.wallets[w], plans[w]);
    }
    TotalAtMost(AllWaiters(load, plans), Itself, s.wallets, HeldIn);
  }

  lemma RoomJoins(load: Load, size: nat, plans: seq<Option<Plan>>, trace: seq<Shared>, w: nat)
    returns (longer: seq<Shared>)
    requires Runs(load, size, trace) && Crowd(load, plans, trace[|trace| - 1]) && Fatal(load, size, plans)
    requires trace[|trace| - 1].free > 0 && w < |plans|
    requires HasRoom(load.calls[w], trace[|trace| - 1].wallets[w], plans[w])
    ensures Runs(load, size, longer) && Crowd(load, plans, longer[|longer| - 1])
    ensures longer[|longer| - 1].free == trace[|trace| - 1].free - 1
  {
    var s := trace[|trace| - 1];
    assert WalletReady(load.calls[w], s.wallets[w], plans[w]);
    if Resting(load.calls[w], s.wallets[w], OrderOf(plans[w])) {
      longer := CallJoins(load, size, plans, trace, w);
    } else {
      var j: nat :| j < |s.wallets[w].phases| && s.wallets[w].phases[j].Waiting?;
      longer := WaiterJoins(load, size, plans, trace, w, j);
    }
  }

  lemma SomeoneJoins(load: Load, size: nat, plans: seq<Option<Plan>>, trace: seq<Shared>) returns (longer: seq<Shared>)
    requires Runs(load, size, trace) && Crowd(load, plans, trace[|trace| - 1]) && Fatal(load, size, plans)
    requires trace[|trace| - 1].free > 0
    ensures Runs(load, size, longer) && Crowd(load, plans, longer[|longer| - 1])
    ensures longer[|longer| - 1].free == trace[|trace| - 1].free - 1
  {
    var s := trace[|trace| - 1];
    if w: nat :| w < |plans| && HasRoom(load.calls[w], s.wallets[w], plans[w]) {
      longer := RoomJoins(load, size, plans, trace, w);
    } else {
      hide Crowd, Fatal, Kept, HasRoom;
      EveryStateKept(load, size, trace, |trace| - 1);
      NoCallOutside(load, size, plans, s);
      longer := TaskJoins(load, size, plans, trace);
    }
  }

  lemma {:induction false} Fill(load: Load, size: nat, plans: seq<Option<Plan>>, trace: seq<Shared>)
    returns (longer: seq<Shared>)
    requires Runs(load, size, trace) && Crowd(load, plans, trace[|trace| - 1]) && Fatal(load, size, plans) && size > 0
    ensures Runs(load, size, longer) && Stopped(load, longer[|longer| - 1])
    decreases trace[|trace| - 1].free
  {
    var s := trace[|trace| - 1];
    if s.free == 0 {
      EveryStateKept(load, size, trace, |trace| - 1);
      CrowdStops(load, size, plans, s);
      longer := trace;
    } else {
      longer := SomeoneJoins(load, size, plans, trace);
      longer := Fill(load, size, plans, longer);
    }
  }

  ghost predicate Sticks(load: Load, size: nat, trace: seq<Shared>) {
    Runs(load, size, trace) && Stopped(load, trace[|trace| - 1])
  }

  lemma RestingCrowd(load: Load, plans: seq<Option<Plan>>, s: Shared)
    requires TasksOk(load.tasks, s.stages) && |plans| == |s.wallets| && AllResting(load, s, Orders(plans, |plans|))
    ensures Crowd(load, plans, s)
  {
    forall w | 0 <= w < |plans| ensures WalletReady(load.calls[w], s.wallets[w], plans[w]) {
      assert Resting(load.calls[w], s.wallets[w], Orders(plans, |plans|)[w]);
    }
  }

  lemma FatalSticks(load: Load, size: nat, plans: seq<Option<Plan>>) returns (trace: seq<Shared>)
    requires Fatal(load, size, plans) && size > 0
    requires forall w :: 0 <= w < |load.tables| ==> load.tables[w].wallet.Some?
    ensures Sticks(load, size, trace)
  {
    trace := RunOrders(load, size, plans, |plans|);
    if !Stopped(load, trace[|trace| - 1]) {
      EveryStateKept(load, size, trace, |trace| - 1);
      hide Stopped, Fatal, Crowd, AllResting;
      RestingCrowd(load, plans, trace[|trace| - 1]);
      trace := Fill(load, size, plans, trace);
    }
  }

  // ---- Exactly when ---------------------------------------------------------------

  lemma NeverStopped(load: Load, size: nat, trace: seq<Shared>)
    requires Sticks(load, size, trace)
    ensures Fatal(load, size, PlansOf(trace[|trace| - 1]))
  {
    EveryStateKept(load, size, trace, |trace| - 1);
    StoppedHasPlans(load, size, trace[|trace| - 1]);
  }

  /**
   * The users of a pool of `size` connections can stop each other for ever if
   * and only if, on some of the wallets, some calls run one by one leave a
   * balance that another, audited, debit overdraws, and the other calls on
   * those wallets, with the tasks that nest or share a row lock with one that
   * does, are at least as many as the connections.
   */
  lemma DeadlockExactly(load: Load, size: nat)
    requires |load.calls| == |load.tables| && size > 0
    requires forall w :: 0 <= w < |load.tables| ==> load.tables[w].wallet.Some?
    ensures (exists trace :: Sticks(load, size, trace)) <==> exists plans :: Fatal(load, size, plans)
  {
    if plans: seq<Option<Plan>> :| Fatal(load, size, plans) {
      var trace := FatalSticks(load, size, plans);
    }
    if trace :| Sticks(load, size, trace) {
      NeverStopped(load, size, trace);
    }
  }

  function One(t: Task): nat { 1 }

  function Calls(rs: seq<Request>): nat { |rs| }

  /** Fewer users than connections always end, whatever they are and whether or not the wallets exist. */
  lemma FewUsersEnd(load: Load, size: nat, trace: seq<Shared>)
    requires Runs(load, size, trace) && Total(load.calls, Calls) + Total(load.tasks, One) < size
    ensures |trace| <= Total(load.calls, CallSteps) + Total(load.tasks, TaskSteps) + 1
    ensures AllEnded(trace[|trace| - 1]) || CanGo(load, trace[|trace| - 1])
  {
    RunsBounded(load, size, trace);
    if Sticks(load, size, trace) {
      var plans := PlansOf(trace[|trace| - 1]);
      NeverStopped(load, size, trace);
      TotalAtMost(AllWaiters(load, plans), Itself, load.calls, Calls);
      TotalAtMost(Marks(load.tasks), Mark, load.tasks, One);
    }
  }

  /** No wallet call is audited and no task nests, whatever row locks they wait for. */
  ghost predicate NestsNowhere(load: Load) {
    && (forall w, i :: 0 <= w < |load.calls| && 0 <= i < |load.calls[w]| ==> !Audited(load.calls[w][i]))
    && forall i :: 0 <= i < |load.tasks| ==> load.tasks[i].nested == 0
  }

  lemma NobodyFatal(load: Load, size: nat, plans: seq<Option<Plan>>)
    requires NestsNowhere(load) && size > 0
    ensures !Fatal(load, size, plans)
  {
    if |plans| == |load.calls| == |load.tables|
       && forall w :: 0 <= w < |plans| && plans[w].Some? ==> PlanOk(load.calls[w], load.tables[w], plans[w].value)
    {
      TotalBound(AllWaiters(load, plans), Itself, 0);
      TotalBound(Marks(load.tasks), Mark, 0);
    }
  }

  lemma EndedHoldNothing(s: Shared)
    requires AllEnded(s)
    ensures Total(s.wallets, HeldIn) == 0 && Total(s.stages, Connections) == 0
  {
    forall w | 0 <= w < |s.wallets| ensures HeldIn(s.wallets[w]) <= 0 {
      assert AllOver(s.wallets[w]);
      TotalBound(s.wallets[w].phases, Held, 0);
    }
    TotalBound(s.wallets, HeldIn, 0);
    TotalBound(s.stages, Connections, 0);
  }

  /**
   * Call charges are not audited, and an outbound call passes its connection on
   * (calls/createCall.ts): where nobody nests everyone ends on any pool, and every
   * connection is given back.
   */
  lemma NobodyNests(load: Load, size: nat, trace: seq<Shared>)
    requires Runs(load, size, trace) && size > 0
    requires NestsNowhere(load)
    ensures |trace| <= Total(load.calls, CallSteps) + Total(load.tasks, TaskSteps) + 1
    ensures var s := trace[|trace| - 1]; if AllEnded(s) then s.free == size else CanGo(load, s)
  {
    var s := trace[|trace| - 1];
    RunsBounded(load, size, trace);
    EveryStateKept(load, size, trace, |trace| - 1);
    if AllEnded(s) { EndedHoldNothing(s); }
    hide AllEnded, CanGo, Fatal, Kept, Goes;
    if Sticks(load, size, trace) {
      NeverStopped(load, size, trace);
      NobodyFatal(load, size, PlansOf(s));
    }
  }

  /** Tasks alone: exactly when at least `size` of them nest or share a row lock with one that does. */
  lemma TasksExactly(tasks: seq<Task>, size: nat)
    requires size > 0
    ensures (exists trace :: Sticks(Load([], [], tasks), size, trace)) <==> EndangeredTasks(tasks) >= size
  {
    var load := Load([], [], tasks);
    DeadlockExactly(load, size);
    if EndangeredTasks(tasks) >= size { assert Fatal(load, size, []); }
    if plans: seq<Option<Plan>> :| Fatal(load, size, plans) { assert AllWaiters(load, plans) == []; }
  }

  ghost predicate FatalAlone(rs: seq<Request>, db: Tables, size: nat, p: Plan) {
    PlanOk(rs, db, p) && |p.order| + size <= |rs|
  }

  /**
   * The calls on one wallet alone: exactly when some at most |rs| - size of
   * them, run one by one, leave a balance that another, audited, debit overdraws.
   */
  lemma OneWalletExactly(rs: seq<Request>, db: Tables, size: nat)
    requires db.wallet.Some? && size > 0
    ensures (exists trace :: Sticks(Load([rs], [db], []), size, trace)) <==> exists p :: FatalAlone(rs, db, size, p)
  {
    var load := Load([rs], [db], []);
    DeadlockExactly(load, size);
    if p :| FatalAlone(rs, db, size, p) {
      assert AllWaiters(load, [Some(p)]) == [|rs| - |p.order|];
      assert Fatal(load, size, [Some(p)]);
    }
    if plans: seq<Option<Plan>> :| Fatal(load, size, plans) {
      assert AllWaiters(load, plans) == [Waiters(rs, plans[0])] && Marks([]) == [];
      assert Total(AllWaiters(load, plans), Itself) == Waiters(rs, plans[0]);
      assert FatalAlone(rs, db, size, plans[0].value);
    }
  }

  // ---- On the default pool of ten connections -----------------------------------------

  const SMALL_WALLET := Tables(Some(Row(50_000, 0)), [], [], [])

  /** A manual adjustment of 10, against a balance of 5, and `n` call charges. */
  function AdjustmentAnd(n: nat): seq<Request> {
    [Request(Debit, Adjustment, 100_000, None)] + seq(n, _ => Request(Debit, CallCharge, 10_000, None))
  }

  lemma AdjustmentFails(n: nat)
    ensures PlanOk(AdjustmentAnd(n), SMALL_WALLET, Plan([], 0))
  {
  }

  /** One adjustment and nine charges on one wallet can stop for ever. */
  lemma TenCallsStick() returns (trace: seq<Shared>)
    ensures Sticks(Load([AdjustmentAnd(9)], [SMALL_WALLET], []), 10, trace)
  {
    AdjustmentFails(9);
    assert FatalAlone(AdjustmentAnd(9), SMALL_WALLET, 10, Plan([], 0));
    OneWalletExactly(AdjustmentAnd(9), SMALL_WALLET, 10);
    trace :| Sticks(Load([AdjustmentAnd(9)], [SMALL_WALLET], []), 10, trace);
  }

  /** So can two organisations with five calls each, too few to stop alone. */
  lemma TwoOrganisationsStick() returns (trace: seq<Shared>)
    ensures Sticks(Load([AdjustmentAnd(4), AdjustmentAnd(4)], [SMALL_WALLET, SMALL_WALLET], []), 10, trace)
  {
    var load, plan := Load([AdjustmentAnd(4), AdjustmentAnd(4)], [SMALL_WALLET, SMALL_WALLET], []), Some(Plan([], 0));
    AdjustmentFails(4);
    var waiters: seq<nat> := [5, 5];
    assert AllWaiters(load, [plan, plan]) == waiters && waiters[1..] == [5];
    assert Total(waiters, Itself) == 5 + Total(waiters[1..], Itself) == 10;
    trace := FatalSticks(load, 10, [plan, plan]);
  }

  /** And so can ten ticks of the dialer, which enqueue while they hold the connection they selected with. */
  lemma TenTicksStick(leads: nat) returns (trace: seq<Shared>)
    requires leads > 0
    ensures Sticks(Load([], [], seq(10, _ => Task(leads, None))), 10, trace)
  {
    var tasks := seq(10, _ => Task(leads, None));
    TotalAtMost(tasks, One, Marks(tasks), Mark);
    TotalOfOnes(tasks);
    TasksExactly(tasks, 10);
    trace :| Sticks(Load([], [], tasks), 10, trace);
  }

  lemma {:induction false} TotalOfOnes(tasks: seq<Task>)
    ensures Total(tasks, One) == |tasks|
  {
    if tasks != [] { TotalOfOnes(tasks[1..]); }
  }
}
