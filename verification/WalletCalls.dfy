/**
 * What the interleaving of WalletRace means for the callers: answers and tables
 * are those of a serial run, calls take boundedly many steps, the pool's
 * connections are accounted for, and concurrent debits never overdraw. Also
 * exactly when a call is lost to the race to create a missing wallet.
 */
module WalletCalls {
  import opened Common
  import opened Wallet
  import opened WalletRace

  ghost predicate AllOver(s: System) {
    forall i :: 0 <= i < |s.phases| ==> Over(s.phases[i])
  }

  lemma HolderHolds(rs: seq<Request>, db: Tables, s: System)
    requires Shape(rs, db, s)
    ensures s.holder.Some? ==> s.holder.value < |s.phases| && Holding(s.phases[s.holder.value])
  {
  }

  /**
   * Refinement: once every call has ended, the database and each answer are
   * those of the calls run one after another in lock order; the only calls left
   * out are those that lost the race to create a missing wallet.
   */
  lemma InterleavingIsSerial(rs: seq<Request>, db: Tables, size: nat, trace: seq<System>, k: nat)
    requires Execution(rs, db, size, trace) && k < |trace| && AllOver(trace[k])
    ensures var s := trace[k];
            && |s.phases| == |rs| && InRange(s.order, |rs|) && Distinct(s.order)
            && (forall i :: 0 <= i < |rs| ==> (i in s.order <==> !s.phases[i].LostCreation?))
            && (db.wallet.Some? ==> forall i :: 0 <= i < |rs| ==> i in s.order)
            && var (base, outcomes) := Run(db, Pick(rs, s.order));
            && s.db == base && |outcomes| == |s.order|
            && (forall j :: 0 <= j < |outcomes| ==> s.phases[s.order[j]] == Finished(outcomes[j]))
  {
    EveryExecutionSerial(rs, db, size, trace, k);
    var s := trace[k];
    HolderHolds(rs, db, s);
  }

  /** The ledger discipline holds in every committed state, not only at the end. */
  lemma CommittedLedgerOk(rs: seq<Request>, db: Tables, size: nat, opening: int, trace: seq<System>, k: nat)
    requires Execution(rs, db, size, trace) && k < |trace| && LedgerOk(db, opening)
    ensures LedgerOk(trace[k].db, opening)
  {
    EveryExecutionSerial(rs, db, size, trace, k);
    var base := Run(db, Pick(rs, Settled(trace[k]))).0;
    RunKeepsLedger(db, opening, Pick(rs, Settled(trace[k])));
    assert trace[k].db.(audit := base.audit) == base;
    assert forall j :: 0 <= j < |base.ledger| ==> EntryOk(trace[k].db.ledger, j, opening);
  }

  /** So does the law of the alerts, and each answered alert is the one due at the balance answered with it. */
  lemma CommittedAlertsOk(rs: seq<Request>, db: Tables, size: nat, trace: seq<System>, k: nat)
    requires Execution(rs, db, size, trace) && k < |trace|
    ensures AlertsFollow(db, trace[k].db)
    ensures forall i :: 0 <= i < |trace[k].phases| && IsApplied(trace[k].phases[i]) ==>
              var o := trace[k].phases[i].outcome; AlertAt(o.alert, o.balanceAfter, RowOf(db).threshold)
  {
    EveryExecutionSerial(rs, db, size, trace, k);
    var base := Run(db, Pick(rs, Settled(trace[k]))).0;
    RunAlerts(db, Pick(rs, Settled(trace[k])));
    assert trace[k].db.(audit := base.audit) == base;
  }

  // ---- Progress -----------------------------------------------------------

  function Rank(p: Phase): nat {
    match p
    case Waiting => 8
    case Begun => 7
    case SawNoWallet => 6
    case Locked(_) => 5
    case NeedsSecond(_) => 4
    case Auditing(_) => 3
    case Affordable(_) => 4
    case Fresh(_) => 3
    case Updated(_) => 2
    case Entered(_) => 1
    case Rejecting(_) => 1
    case Finished(_) => 0
    case LostCreation => 0
  }

  lemma NextDescends(s: System, i: nat, r: Request)
    requires i < |s.phases| && Next(s, i, r).Some?
    ensures var s' := Next(s, i, r).value;
            |s'.phases| == |s.phases| && s'.phases == s.phases[i := s'.phases[i]]
                && Rank(s'.phases[i]) < Rank(s.phases[i])
  {
  }

  lemma StepDescends(rs: seq<Request>, s: System, s': System)
    requires Step(rs, s, s')
    ensures Total(s'.phases, Rank) < Total(s.phases, Rank)
  {
    var i :| 0 <= i < |rs| && Next(s, i, rs[i]) == Some(s');
    NextDescends(s, i, rs[i]);
    TotalUpdate(s.phases, i, s'.phases[i], Rank);
  }

  lemma {:induction false} ExecutionDescends(rs: seq<Request>, db: Tables, size: nat, trace: seq<System>, k: nat)
    requires Execution(rs, db, size, trace) && k < |trace|
    ensures Total(trace[k].phases, Rank) + k <= Total(trace[0].phases, Rank)
  {
    if k > 0 {
      ExecutionDescends(rs, db, size, trace, k - 1);
      StepDescends(rs, trace[k - 1], trace[k]);
    }
  }

  /** No execution is longer than eight statements a call. */
  lemma StepsBounded(rs: seq<Request>, db: Tables, size: nat, trace: seq<System>)
    requires Execution(rs, db, size, trace)
    ensures |trace| <= 8 * |rs| + 1
  {
    ExecutionDescends(rs, db, size, trace, |trace| - 1);
    TotalBound(trace[0].phases, Rank, 8);
  }

  // ---- The pool -----------------------------------------------------------

  /** How many connections a call holds. */
  function Held(p: Phase): nat {
    if p.Waiting? || Over(p) then 0 else if p.Auditing? then 2 else 1
  }

  /** Every connection is idle or held. */
  ghost predicate PoolOk(s: System, size: nat) { s.free + Total(s.phases, Held) == size }

  lemma NextKeepsConnections(s: System, i: nat, r: Request)
    requires i < |s.phases| && Next(s, i, r).Some?
    ensures var s' := Next(s, i, r).value;
            |s'.phases| == |s.phases| && s'.phases == s.phases[i := s'.phases[i]]
            && s'.free + Held(s'.phases[i]) == s.free + Held(s.phases[i])
  {
  }

  lemma StepKeepsPool(rs: seq<Request>, size: nat, s: System, s': System)
    requires PoolOk(s, size) && Step(rs, s, s')
    ensures PoolOk(s', size)
  {
    var i :| 0 <= i < |rs| && Next(s, i, rs[i]) == Some(s');
    NextKeepsConnections(s, i, rs[i]);
    TotalUpdate(s.phases, i, s'.phases[i], Held);
  }

  lemma {:induction false} EveryStatePooled(rs: seq<Request>, db: Tables, size: nat, trace: seq<System>, k: nat)
    requires Execution(rs, db, size, trace) && k < |trace|
    ensures PoolOk(trace[k], size)
  {
    if k == 0 {
      TotalBound(trace[0].phases, Held, 0);
    } else {
      EveryStatePooled(rs, db, size, trace, k - 1);
      assert Step(rs, trace[k - 1], trace[k]);
      StepKeepsPool(rs, size, trace[k - 1], trace[k]);
    }
  }

  // ---- Equal debits -------------------------------------------------------

  function CountApplied(outcomes: seq<Outcome>): nat {
    if outcomes == [] then 0
    else CountApplied(outcomes[..|outcomes| - 1]) + if outcomes[|outcomes| - 1].Applied? then 1 else 0
  }

  predicate PlainDebit(r: Request, d: int) { r.kind == Debit && r.amount == d && r.key.None? }

  lemma OneMoreDebit(balance: int, d: int, calls: nat, done: nat)
    requires balance >= 0 && d > 0 && done == Min(calls, balance / d)
    ensures var more := if balance - d * done - d >= 0 then 1 else 0;
            && done + more == Min(calls + 1, balance / d)
            && balance - d * done - (if more == 1 then d else 0) == balance - d * (done + more)
  {
    var q := balance / d;
    assert balance == d * q + balance % d;
    if done + 1 <= q { assert d * (done + 1) <= d * q; } else { assert d * (done + 1) >= d * (q + 1); }
  }

  lemma DebitAlone(db: Tables, r: Request, d: int)
    requires db.wallet.Some? && d > 0 && PlainDebit(r, d)
    ensures var (db', o) := Apply(db, r);
            && (o.Applied? <==> db.wallet.value.balance - d >= 0)
            && db'.wallet == Some(db.wallet.value.(balance := db.wallet.value.balance - if o.Applied? then d else 0))
  {
  }

  /** What `calls` equal debits leave of a wallet that began with `balance`. */
  ghost predicate Debited(balance: int, d: int, calls: nat, after: Tables, outcomes: seq<Outcome>)
    requires d > 0
  {
    && CountApplied(outcomes) == Min(calls, balance / d)
    && after.wallet.Some? && after.wallet.value.balance == balance - d * CountApplied(outcomes)
  }

  lemma {:induction false} SerialDebits(db: Tables, rs: seq<Request>, d: int)
    requires db.wallet.Some? && db.wallet.value.balance >= 0 && d > 0
    requires forall i :: 0 <= i < |rs| ==> PlainDebit(rs[i], d)
    ensures Debited(db.wallet.value.balance, d, |rs|, Run(db, rs).0, Run(db, rs).1)
  {
    if rs != [] {
      var init, r := rs[..|rs| - 1], rs[|rs| - 1];
      SerialDebits(db, init, d);
      assert rs == init + [r] && PlainDebit(r, d);
      DebitMore(Run(db, init).0, Run(db, init).1, r, d, db.wallet.value.balance, |init|);
      RunExtends(db, init, r);
    }
  }

  lemma DebitMore(before: Tables, outcomes: seq<Outcome>, r: Request, d: int, balance: int, calls: nat)
    requires balance >= 0 && d > 0 && PlainDebit(r, d) && Debited(balance, d, calls, before, outcomes)
    ensures Debited(balance, d, calls + 1, Apply(before, r).0, outcomes + [Apply(before, r).1])
  {
    DebitAlone(before, r, d);
    OneMoreDebit(balance, d, calls, CountApplied(outcomes));
    CountLast(outcomes, Apply(before, r).1);
  }

  lemma CountLast(outcomes: seq<Outcome>, o: Outcome)
    ensures CountApplied(outcomes + [o]) == CountApplied(outcomes) + if o.Applied? then 1 else 0
  {
    assert (outcomes + [o])[..|outcomes|] == outcomes;
  }

  ghost predicate IsApplied(p: Phase) { p.Finished? && p.outcome.Applied? }

  ghost function Winners(phases: seq<Phase>, order: seq<nat>): set<nat>
    requires InRange(order, |phases|)
  {
    set i | i in order && IsApplied(phases[i])
  }

  ghost function AllWinners(phases: seq<Phase>): set<nat> {
    set i | i in Below(|phases|) && IsApplied(phases[i])
  }

  lemma {:induction false} CountMatches(phases: seq<Phase>, order: seq<nat>, outcomes: seq<Outcome>)
    requires |order| == |outcomes| && InRange(order, |phases|) && Distinct(order)
    requires forall k :: 0 <= k < |order| ==> phases[order[k]] == Finished(outcomes[k])
    ensures |Winners(phases, order)| == CountApplied(outcomes)
  {
    if order == [] {
      assert Winners(phases, order) == {};
    } else {
      var n := |order| - 1;
      CountMatches(phases, order[..n], outcomes[..n]);
      LastMember(order);
      assert order[n] !in order[..n];
      assert phases[order[n]] == Finished(outcomes[n]);
      var before := Winners(phases, order[..n]);
      if outcomes[n].Applied? {
        assert Winners(phases, order) == before + {order[n]};
      } else {
        assert Winners(phases, order) == before;
      }
    }
  }

  /**
   * However N debits of the same amount d > 0 interleave, exactly min(N, balance div d)
   * of them succeed and the balance drops by d for each.
   */
  lemma ConcurrentDebits(rs: seq<Request>, db: Tables, size: nat, d: int, trace: seq<System>, k: nat)
    requires Execution(rs, db, size, trace) && k < |trace| && AllOver(trace[k])
    requires db.wallet.Some? && db.wallet.value.balance >= 0 && d > 0
    requires forall i :: 0 <= i < |rs| ==> PlainDebit(rs[i], d)
    ensures var s := trace[k];
            var winners := AllWinners(s.phases);
            && |winners| == Min(|rs|, db.wallet.value.balance / d)
            && RowOf(s.db).balance == db.wallet.value.balance - d * |winners|
  {
    InterleavingIsSerial(rs, db, size, trace, k);
    var s := trace[k];
    PermutationLength(s.order, |rs|);
    SerialDebits(db, Pick(rs, s.order), d);
    CountMatches(s.phases, s.order, Run(db, Pick(rs, s.order)).1);
    assert Winners(s.phases, s.order) == AllWinners(s.phases);
  }

  // ---- The missing wallet -------------------------------------------------

  lemma {:induction false} NothingCreated(db: Tables, rs: seq<Request>)
    requires db.wallet.None? && forall i :: 0 <= i < |rs| ==> Apply(db, rs[i]).0.wallet.None?
    ensures Run(db, rs).0.wallet.None? && Run(db, rs).0.ledger == db.ledger
  {
    if rs != [] {
      NothingCreated(db, rs[..|rs| - 1]);
      assert Apply(db, rs[|rs| - 1]).0.wallet.None?;
    }
  }

  ghost predicate CanLose(rs: seq<Request>, db: Tables, size: nat) {
    db.wallet.None? && size > 1 && |rs| > 1 && exists i :: 0 <= i < |rs| && Apply(db, rs[i]).1.Applied?
  }

  ghost predicate Loses(rs: seq<Request>, db: Tables, size: nat, trace: seq<System>, k: nat, j: nat) {
    Execution(rs, db, size, trace) && k < |trace| && j < |trace[k].phases| && trace[k].phases[j].LostCreation?
  }

  ghost predicate Linked(rs: seq<Request>, states: seq<System>) {
    forall k :: 0 < k < |states| ==> Step(rs, states[k - 1], states[k])
  }

  lemma LinkedJoin(rs: seq<Request>, a: seq<System>, b: seq<System>)
    requires Linked(rs, a) && Linked(rs, b) && a != [] && b != [] && Step(rs, a[|a| - 1], b[0])
    ensures Linked(rs, a + b)
  {
  }

  /** A run in which call `j` is refused although, alone, it would have been served. */
  lemma LosingRun(rs: seq<Request>, db: Tables, size: nat, i: nat, j: nat) returns (trace: seq<System>)
    requires i < |rs| && j < |rs| && i != j && db.wallet.None? && size > 1 && Apply(db, rs[i]).1.Applied?
    ensures |trace| == 12 && Loses(rs, db, size, trace, 11, j)
  {
    var looking := BothLook(rs, db, size, i, j);
    var d := looking[4];
    var e := Take(d, i, NEW_WALLET);
    assert Step(rs, d, e) by { assert Next(d, i, rs[i]) == Some(e); }
    var creating := Creating(rs, e, i, j);
    var created := Created(rs, creating[3], i, j);
    LinkedJoin(rs, looking, creating);
    LinkedJoin(rs, looking + creating, created);
    trace := looking + creating + created;
  }

  /** Both calls connect and find no wallet. */
  lemma BothLook(rs: seq<Request>, db: Tables, size: nat, i: nat, j: nat) returns (states: seq<System>)
    requires i < |rs| && j < |rs| && i != j && db.wallet.None? && size > 1
    ensures |states| == 5 && states[0] == Start(rs, db, size) && Linked(rs, states)
    ensures states[4] == Start(rs, db, size).(free := size - 2, phases := states[4].phases)
    ensures |states[4].phases| == |rs| && states[4].phases[i].SawNoWallet? && states[4].phases[j].SawNoWallet?
  {
    var s := Start(rs, db, size);
    var a := Move(s, i, Begun).(free := size - 1);
    var b := Move(a, j, Begun).(free := size - 2);
    var c := Move(b, i, SawNoWallet);
    var d := Move(c, j, SawNoWallet);
    assert Step(rs, s, a) by { assert Next(s, i, rs[i]) == Some(a); }
    assert Step(rs, a, b) by { assert Next(a, j, rs[j]) == Some(b); }
    assert Step(rs, b, c) by { assert Next(b, i, rs[i]) == Some(c); }
    assert Step(rs, c, d) by { assert Next(c, j, rs[j]) == Some(d); }
    states := [s, a, b, c, d];
  }

  /** From the lock on, `i` passes its checks on a wallet only it can see. */
  lemma Creating(rs: seq<Request>, e: System, i: nat, j: nat) returns (states: seq<System>)
    requires |e.phases| == |rs| && i < |rs| && j < |rs| && i != j && e.db.wallet.None?
    requires e.phases[i] == Locked(NEW_WALLET) && e.phases[j].SawNoWallet? && !Overdraws(NEW_WALLET, rs[i])
    requires !IsDuplicate(e.db.ledger, rs[i])
    ensures |states| == 4 && states[0] == e && Linked(rs, states) && states[3].db == e.db
    ensures var ps := states[3].phases; |ps| == |rs| && ps[i] == Updated(NEW_WALLET) && ps[j].SawNoWallet?
  {
    var f := Move(e, i, Affordable(NEW_WALLET));
    var g := Move(f, i, Fresh(NEW_WALLET));
    var h := Move(g, i, Updated(NEW_WALLET));
    assert Step(rs, e, f) by { assert Next(e, i, rs[i]) == Some(f); }
    assert Step(rs, f, g) by { assert Next(f, i, rs[i]) == Some(g); }
    assert Step(rs, g, h) by { assert Next(g, i, rs[i]) == Some(h); }
    states := [e, f, g, h];
  }

  /** `i` commits the new wallet, and `j` fails. */
  lemma Created(rs: seq<Request>, h: System, i: nat, j: nat) returns (states: seq<System>)
    requires |h.phases| == |rs| && i < |rs| && j < |rs| && i != j && Insertable(h.db.ledger, rs[i])
    requires h.phases[i] == Updated(NEW_WALLET) && h.phases[j].SawNoWallet?
    ensures |states| == 3 && Step(rs, h, states[0]) && Linked(rs, states)
    ensures |states[2].phases| == |rs| && states[2].phases[j].LostCreation?
  {
    var m := Move(h, i, Entered(NEW_WALLET));
    var n := End(m, i, Committed(h.db, NEW_WALLET, rs[i]),
        Applied(After(NEW_WALLET, rs[i]), AlertFor(NEW_WALLET, rs[i])));
    var o := Move(n, j, LostCreation).(free := n.free + 1);
    assert Step(rs, h, m) by { assert Next(h, i, rs[i]) == Some(m); }
    assert Step(rs, m, n) by { assert Next(m, i, rs[i]) == Some(n); }
    assert Step(rs, n, o) by { assert Next(n, j, rs[j]) == Some(o); }
    states := [m, n, o];
  }

  /**
   * The condition under which the lock protects every call: some call can be
   * lost to the creation race if and only if the wallet row is missing, two
   * calls can be connected at once, and one of several calls would create it.
   */
  lemma LostExactly(rs: seq<Request>, db: Tables, size: nat)
    requires db.wallet.None? ==> db.ledger == []
    ensures CanLose(rs, db, size) <==>
            exists trace: seq<System>, k: nat, j: nat :: Loses(rs, db, size, trace, k, j)
  {
    if CanLose(rs, db, size) {
      var i :| 0 <= i < |rs| && Apply(db, rs[i]).1.Applied?;
      var j := if i == 0 then 1 else 0;
      var trace := LosingRun(rs, db, size, i, j);
      assert Loses(rs, db, size, trace, 11, j);
    }
    if trace: seq<System>, k: nat, j: nat :| Loses(rs, db, size, trace, k, j) {
      LossNeedsCreator(rs, db, size, trace, k, j);
      if size <= 1 { LoneNeverLoses(rs, db, size, trace, k); }
    }
  }

  lemma LossNeedsCreator(rs: seq<Request>, db: Tables, size: nat, trace: seq<System>, k: nat, j: nat)
    requires db.wallet.None? ==> db.ledger == []
    requires Loses(rs, db, size, trace, k, j)
    ensures db.wallet.None? && |rs| > 1 && exists i :: 0 <= i < |rs| && Apply(db, rs[i]).1.Applied?
  {
    EveryExecutionSerial(rs, db, size, trace, k);
    var s := trace[k];
    var done := Settled(s);
    if m :| 0 <= m < |done| && Apply(db, rs[done[m]]).0.wallet.Some? {
      assert done[m] in s.order && done[m] != j;
      assert Apply(db, rs[done[m]]).1.Applied?;
    } else {
      SerialStaysEmpty(rs, db, s);
    }
  }

  lemma SerialStaysEmpty(rs: seq<Request>, db: Tables, s: System)
    requires Serial(rs, db, s) && db.wallet.None?
    requires forall m :: 0 <= m < |Settled(s)| ==> Apply(db, rs[Settled(s)[m]]).0.wallet.None?
    ensures s.db.wallet.None?
  {
    NothingCreated(db, Pick(rs, Settled(s)));
  }

  ghost predicate NobodyLost(s: System) {
    forall j :: 0 <= j < |s.phases| ==>
      !s.phases[j].LostCreation? && (s.phases[j].SawNoWallet? ==> s.db.wallet.None?)
  }

  /** With one connection nobody else moves while a call that found no wallet holds it. */
  lemma LoneStep(s: System, i: nat, r: Request, j: nat)
    requires PoolOk(s, 1) || PoolOk(s, 0)
    requires i < |s.phases| && j < |s.phases| && s.phases[j].SawNoWallet? && Next(s, i, r).Some?
    ensures i == j
  {
    if i != j {
      TotalOfTwo(s.phases, Held, i, j);
    }
  }

  lemma {:induction false} LoneNeverLoses(rs: seq<Request>, db: Tables, size: nat, trace: seq<System>, k: nat)
    requires Execution(rs, db, size, trace) && k < |trace| && size <= 1
    ensures NobodyLost(trace[k])
  {
    if k > 0 {
      LoneNeverLoses(rs, db, size, trace, k - 1);
      var s, s' := trace[k - 1], trace[k];
      assert Step(rs, s, s');
      var i :| 0 <= i < |rs| && Next(s, i, rs[i]) == Some(s');
      EveryStatePooled(rs, db, size, trace, k - 1);
      StepKinds(s, i, rs[i]);
      forall j | 0 <= j < |s.phases| && s.phases[j].SawNoWallet? ensures j == i { LoneStep(s, i, rs[i], j); }
    }
  }
}
