/**
 * Any number of concurrent `applyWalletTransaction` calls on one organisation,
 * interleaved statement by statement. A call's own writes stay private until it
 * commits; the row lock of SELECT ... FOR UPDATE is held from the read to the
 * end of the transaction. When the wallet row does not exist there is nothing
 * to lock: several calls may then try to create it and all but one fail on the
 * unique constraint of `wallets.org_id`.
 *
 * All calls share a pool of `size` connections. A call holds one from BEGIN to
 * its end, and a rejected debit that is audited takes a second one while it
 * still holds the first and the row lock. PoolDeadlock says when that sticks.
 */
module WalletRace {
  import opened Common
  import opened Wallet

  datatype Phase =
    | Waiting                      // for a connection
    | Begun                        // before SELECT ... FOR UPDATE
    | SawNoWallet                  // the SELECT returned no row
    | Locked(row: Row)             // the row is read and locked (or inserted by this call)
    | NeedsSecond(row: Row)        // an overdraft to be audited; waits for a second connection
    | Auditing(row: Row)           // holds both connections
    | Rejecting(row: Row)          // about to roll back an overdraft
    | Affordable(row: Row)         // passed the overdraft check
    | Fresh(row: Row)              // passed the duplicate lookup
    | Updated(row: Row)            // UPDATE wallets, not committed
    | Entered(row: Row)            // INSERT wallet_transactions accepted, not committed
    | Finished(outcome: Outcome)
    | LostCreation                 // its INSERT INTO wallets hit the unique constraint

  /** `free` connections are idle. `order` records who took the lock, in turn; nothing reads it. */
  datatype System = System(db: Tables, free: nat, holder: Option<nat>, phases: seq<Phase>, order: seq<nat>)

  predicate Holding(p: Phase) {
    !p.Waiting? && !p.Begun? && !p.SawNoWallet? && !p.Finished? && !p.LostCreation?
  }

  /** Only calls with another reason than a call charge are audited. */
  predicate Audited(r: Request) { r.reason != CallCharge }

  predicate Over(p: Phase) { p.Finished? || p.LostCreation? }

  // ---- Steps --------------------------------------------------------------

  function Move(s: System, i: nat, p: Phase): System
    requires i < |s.phases|
  {
    s.(phases := s.phases[i := p])
  }

  function Take(s: System, i: nat, row: Row): System
    requires i < |s.phases|
  {
    Move(s, i, Locked(row)).(holder := Some(i), order := s.order + [i])
  }

  function End(s: System, i: nat, db: Tables, o: Outcome): System
    requires i < |s.phases|
  {
    Move(s, i, Finished(o)).(holder := None, db := db, free := s.free + 1)
  }

  /** The next statement of call `i`; None where it has to wait or has ended. */
  function Next(s: System, i: nat, r: Request): Option<System>
    requires i < |s.phases|
  {
    match s.phases[i]
    case Waiting => if s.free == 0 then None else Some(Move(s, i, Begun).(free := s.free - 1))
    case Begun =>
      if s.db.wallet.None? then Some(Move(s, i, SawNoWallet))
      else if s.holder.Some? then None
      else Some(Take(s, i, s.db.wallet.value))
    case SawNoWallet =>
      if s.db.wallet.Some? then Some(Move(s, i, LostCreation).(free := s.free + 1))
      else if s.holder.Some? then None
      else Some(Take(s, i, NEW_WALLET))
    case Locked(row) =>
      Some(Move(s, i, if !Overdraws(row, r) then Affordable(row)
                      else if Audited(r) then NeedsSecond(row) else Rejecting(row)))
    case NeedsSecond(row) => if s.free == 0 then None else Some(Move(s, i, Auditing(row)).(free := s.free - 1))
    case Auditing(row) =>
      Some(Move(s, i, Rejecting(row)).(db := s.db.(audit := s.db.audit + RejectedRows(row, r)), free := s.free + 1))
    case Rejecting(row) => Some(End(s, i, s.db, InsufficientBalance))
    case Affordable(row) =>
      if IsDuplicate(s.db.ledger, r) then Some(End(s, i, s.db.(wallet := Some(row)), Replayed(row.balance)))
      else Some(Move(s, i, Fresh(row)))
    case Fresh(row) => Some(Move(s, i, Updated(row)))
    case Updated(row) =>
      if Insertable(s.db.ledger, r) then Some(Move(s, i, Entered(row)))
      else Some(End(s, i, s.db, RefusedByDatabase))
    case Entered(row) =>
      Some(End(s, i, Committed(s.db, row, r), Applied(After(row, r), AlertFor(row, r))))
    case Finished(_) => None
    case LostCreation => None
  }

  ghost predicate Step(rs: seq<Request>, s: System, s': System) {
    |s.phases| == |rs| && exists i :: 0 <= i < |rs| && Next(s, i, rs[i]) == Some(s')
  }

  function Start(rs: seq<Request>, db: Tables, size: nat): System {
    System(db, size, None, seq(|rs|, _ => Waiting), [])
  }

  ghost predicate Execution(rs: seq<Request>, db: Tables, size: nat, trace: seq<System>) {
    && trace != [] && trace[0] == Start(rs, db, size)
    && forall k :: 0 < k < |trace| ==> Step(rs, trace[k - 1], trace[k])
  }

  // ---- The serial run hidden in an execution ------------------------------

  /** The calls named by `order`, in that order. */
  function Pick(rs: seq<Request>, order: seq<nat>): seq<Request>
    requires forall k :: 0 <= k < |order| ==> order[k] < |rs|
  {
    seq(|order|, k requires 0 <= k < |order| => rs[order[k]])
  }

  ghost predicate InRange(order: seq<nat>, n: nat) {
    forall k :: 0 <= k < |order| ==> order[k] < n
  }

  /** The calls in `order` that have ended: all but the one holding the lock. */
  function Settled(s: System): seq<nat> {
    if s.holder.Some? && s.order != [] then s.order[..|s.order| - 1] else s.order
  }

  /** What the checks already passed say about the database as it is now. */
  ghost predicate HolderOk(base: Tables, db: Tables, p: Phase, r: Request) {
    && Holding(p) && p.row == RowOf(base)
    && (if p.Rejecting? then db == base.(audit := base.audit + RejectedRows(p.row, r)) else db == base)
    && (p.NeedsSecond? || p.Auditing? || p.Rejecting? ==> Overdraws(p.row, r))
    && (p.NeedsSecond? || p.Auditing? ==> Audited(r))
    && (p.Affordable? || p.Fresh? || p.Updated? || p.Entered? ==> !Overdraws(p.row, r))
    && (p.Fresh? || p.Updated? || p.Entered? ==> !IsDuplicate(base.ledger, r))
    && (p.Entered? ==> Insertable(base.ledger, r))
  }

  /** Who holds the lock, who has been in the queue for it, and who found no wallet. */
  ghost predicate Shape(rs: seq<Request>, db: Tables, s: System) {
    && |s.phases| == |rs|
    && InRange(s.order, |rs|) && Distinct(s.order)
    && (s.holder.Some? ==> s.order != [] && s.holder.value == s.order[|s.order| - 1])
    && (forall i :: 0 <= i < |rs| ==> (Holding(s.phases[i]) <==> s.holder == Some(i)))
    && (forall i :: 0 <= i < |rs| ==> (Holding(s.phases[i]) || s.phases[i].Finished? <==> i in s.order))
    && (forall i :: 0 <= i < |rs| && s.phases[i].LostCreation? ==> db.wallet.None? && s.db.wallet.Some?)
    && (forall i :: 0 <= i < |rs| && s.phases[i].SawNoWallet? ==> db.wallet.None?)
    && (db.wallet.Some? ==> s.db.wallet.Some?)
  }

  ghost predicate Answered(phases: seq<Phase>, order: seq<nat>, outcomes: seq<Outcome>)
    requires InRange(order, |phases|)
  {
    |outcomes| == |order| && forall k :: 0 <= k < |order| ==> phases[order[k]] == Finished(outcomes[k])
  }

  /** The committed database and every answer given so far are those of the serial run. */
  ghost predicate Explained(rs: seq<Request>, db: Tables, s: System)
    requires Shape(rs, db, s)
  {
    var done := Settled(s);
    var (base, outcomes) := Run(db, Pick(rs, done));
    && Answered(s.phases, done, outcomes)
    && (if s.holder.Some? then HolderOk(base, s.db, s.phases[s.holder.value], rs[s.holder.value]) else s.db == base)
  }

  ghost predicate Serial(rs: seq<Request>, db: Tables, s: System) {
    Shape(rs, db, s) && Explained(rs, db, s)
  }

  lemma PickExtends(rs: seq<Request>, order: seq<nat>, i: nat)
    requires InRange(order, |rs|) && i < |rs|
    ensures Pick(rs, order + [i]) == Pick(rs, order) + [rs[i]]
  {
  }

  lemma RunExtends(db: Tables, rs: seq<Request>, r: Request)
    ensures var (before, outcomes) := Run(db, rs);
            Run(db, rs + [r]) == (Apply(before, r).0, outcomes + [Apply(before, r).1])
  {
    assert (rs + [r])[..|rs|] == rs;
  }

  ghost predicate KeepsQueue(s: System, i: nat, s': System)
    requires i < |s.phases|
  {
    && |s'.phases| == |s.phases| && s'.phases == s.phases[i := s'.phases[i]] && s'.order == s.order
    && (s'.db.wallet == s.db.wallet || s'.db.wallet.Some?)
  }

  /** What a statement of the lock holder does: it ends the call or leaves lock and queue alone. */
  ghost predicate HolderStep(s: System, i: nat, s': System)
    requires i < |s.phases|
  {
    && KeepsQueue(s, i, s') && Holding(s.phases[i])
    && (if s'.phases[i].Finished? then s'.holder.None? else Holding(s'.phases[i]) && s'.holder == s.holder)
    && !s'.phases[i].Locked?
  }

  /** What any other statement does: it takes the lock, or leaves lock, queue and tables alone. */
  ghost predicate OutsiderStep(s: System, i: nat, s': System)
    requires i < |s.phases|
  {
    var p := s.phases[i];
    && !Holding(p) && !Over(p)
    && (|| (s.holder.None? && (p.Begun? || p.SawNoWallet?) && s' == Take(s, i, RowOf(s.db)))
        || (&& KeepsQueue(s, i, s') && s'.db == s.db && s'.holder == s.holder
            && (s'.phases[i].Begun? || s'.phases[i].SawNoWallet? || s'.phases[i].LostCreation?)
            && (s'.phases[i].SawNoWallet? ==> s.db.wallet.None?)
            && (s'.phases[i].LostCreation? ==> p.SawNoWallet? && s.db.wallet.Some?)))
  }

  lemma StepKinds(s: System, i: nat, r: Request)
    requires i < |s.phases| && Next(s, i, r).Some?
    ensures HolderStep(s, i, Next(s, i, r).value) || OutsiderStep(s, i, Next(s, i, r).value)
  {
    if Holding(s.phases[i]) { HolderSteps(s, i, r); } else { OutsiderSteps(s, i, r); }
  }

  lemma HolderSteps(s: System, i: nat, r: Request)
    requires i < |s.phases| && Holding(s.phases[i]) && Next(s, i, r).Some?
    ensures HolderStep(s, i, Next(s, i, r).value)
  {
  }

  lemma OutsiderSteps(s: System, i: nat, r: Request)
    requires i < |s.phases| && !Holding(s.phases[i]) && Next(s, i, r).Some?
    ensures OutsiderStep(s, i, Next(s, i, r).value)
  {
  }

  lemma StepKeepsShape(rs: seq<Request>, db: Tables, s: System, i: nat, s': System)
    requires Shape(rs, db, s) && i < |rs| && Next(s, i, rs[i]) == Some(s')
    ensures Shape(rs, db, s')
  {
    StepKinds(s, i, rs[i]);
    if s'.phases[i].Locked? { TakeKeepsShape(rs, db, s, i); } else { QueueKeepsShape(rs, db, s, i, s'); }
  }

  lemma TakeKeepsShape(rs: seq<Request>, db: Tables, s: System, i: nat)
    requires Shape(rs, db, s) && i < |rs| && s.holder.None? && (s.phases[i].Begun? || s.phases[i].SawNoWallet?)
    ensures Shape(rs, db, Take(s, i, RowOf(s.db)))
  {
    assert i !in s.order;
    assert forall j :: j in s.order + [i] <==> j in s.order || j == i;
  }

  lemma QueueKeepsShape(rs: seq<Request>, db: Tables, s: System, i: nat, s': System)
    requires Shape(rs, db, s) && i < |rs| && KeepsQueue(s, i, s') && !s.phases[i].Finished?
    requires var p, p' := s.phases[i], s'.phases[i];
             || (p'.Finished? && Holding(p) && s'.holder.None?)
             || (!p'.Finished? && s'.holder == s.holder && Holding(p) == Holding(p'))
    requires s'.phases[i].SawNoWallet? ==> s.db.wallet.None?
    requires s'.phases[i].LostCreation? ==> s.phases[i].SawNoWallet? && s.db.wallet.Some?
    ensures Shape(rs, db, s')
  {
  }

  /** Ending a transaction is exactly one serial call. */
  lemma EndIsApply(rs: seq<Request>, db: Tables, s: System, i: nat, s': System)
    requires Serial(rs, db, s) && i < |rs| && Next(s, i, rs[i]) == Some(s') && s'.phases[i].Finished?
    ensures Serial(rs, db, s')
  {
    StepKinds(s, i, rs[i]);
    StepKeepsShape(rs, db, s, i, s');
    EndMatches(Run(db, Pick(rs, Settled(s))).0, s, i, rs[i]);
    EndExplained(rs, db, s, i, s');
  }

  lemma EndExplained(rs: seq<Request>, db: Tables, s: System, i: nat, s': System)
    requires Serial(rs, db, s) && Shape(rs, db, s') && i < |rs| && s.holder == Some(i) && s'.holder.None?
    requires KeepsQueue(s, i, s') && s'.phases[i].Finished?
    requires (s'.db, s'.phases[i].outcome) == Apply(Run(db, Pick(rs, Settled(s))).0, rs[i])
    ensures Serial(rs, db, s')
  {
    var done := Settled(s);
    var outcomes, o := Run(db, Pick(rs, done)).1, s'.phases[i].outcome;
    HolderLast(rs, db, s, i);
    PickExtends(rs, done, i);
    RunExtends(db, Pick(rs, done), rs[i]);
    AnswersKept(s.phases, s'.phases, done, outcomes, i, o);
    SettledSerial(rs, db, s', outcomes + [o]);
  }

  lemma HolderLast(rs: seq<Request>, db: Tables, s: System, i: nat)
    requires Shape(rs, db, s) && s.holder == Some(i)
    ensures s.order == Settled(s) + [i] && i !in Settled(s)
  {
    var done := Settled(s);
    forall k | 0 <= k < |done| ensures done[k] != i { assert s.order[k] == done[k]; }
  }

  lemma AnswersKept(before: seq<Phase>, after: seq<Phase>, done: seq<nat>, outcomes: seq<Outcome>, i: nat, o: Outcome)
    requires i < |before| && after == before[i := Finished(o)] && i !in done
    requires InRange(done, |before|) && Answered(before, done, outcomes)
    ensures Answered(after, done + [i], outcomes + [o])
  {
    assert forall k :: 0 <= k < |done| ==> done[k] in done;
  }

  lemma SettledSerial(rs: seq<Request>, db: Tables, s: System, outcomes: seq<Outcome>)
    requires Shape(rs, db, s) && s.holder.None?
    requires Run(db, Pick(rs, s.order)) == (s.db, outcomes) && Answered(s.phases, s.order, outcomes)
    ensures Serial(rs, db, s)
  {
  }

  lemma EndMatches(base: Tables, s: System, i: nat, r: Request)
    requires i < |s.phases| && HolderOk(base, s.db, s.phases[i], r)
    requires Next(s, i, r).Some? && Next(s, i, r).value.phases[i].Finished?
    ensures var s' := Next(s, i, r).value; (s'.db, s'.phases[i].outcome) == Apply(base, r)
  {
  }

  lemma MoveMatches(base: Tables, s: System, i: nat, r: Request)
    requires i < |s.phases| && HolderOk(base, s.db, s.phases[i], r)
    requires Next(s, i, r).Some? && !Next(s, i, r).value.phases[i].Finished?
    ensures var s' := Next(s, i, r).value;
            s'.holder == s.holder && s'.order == s.order && HolderOk(base, s'.db, s'.phases[i], r)
  {
    if s.phases[i].Locked? && Overdraws(s.phases[i].row, r) && !Audited(r) {
      assert base.audit + RejectedRows(s.phases[i].row, r) == base.audit;
    }
  }

  /** The lock holder moves on: the serial run so far stays the same. */
  lemma HolderKeepsSerial(rs: seq<Request>, db: Tables, s: System, i: nat, s': System)
    requires Serial(rs, db, s) && Shape(rs, db, s') && s.holder == Some(i) && HolderStep(s, i, s')
    requires !s'.phases[i].Finished? && i < |rs|
    requires HolderOk(Run(db, Pick(rs, Settled(s))).0, s'.db, s'.phases[i], rs[i])
    ensures Serial(rs, db, s')
  {
    var (base, outcomes) := Run(db, Pick(rs, Settled(s)));
    HolderLast(rs, db, s, i);
    AnswersStay(s.phases, s'.phases, Settled(s), outcomes, i);
    SerialFrom(rs, db, s', base, outcomes);
  }

  lemma OutsiderKeepsSerial(rs: seq<Request>, db: Tables, s: System, i: nat, s': System)
    requires Serial(rs, db, s) && Shape(rs, db, s') && i < |rs| && OutsiderStep(s, i, s')
    ensures Serial(rs, db, s')
  {
    var (base, outcomes) := Run(db, Pick(rs, Settled(s)));
    OutsiderSettled(rs, db, s, i, s');
    AnswersStay(s.phases, s'.phases, Settled(s), outcomes, i);
    SerialFrom(rs, db, s', base, outcomes);
  }

  lemma OutsiderSettled(rs: seq<Request>, db: Tables, s: System, i: nat, s': System)
    requires Serial(rs, db, s) && i < |rs| && OutsiderStep(s, i, s')
    ensures i !in Settled(s) && Settled(s') == Settled(s) && |s'.phases| == |s.phases|
    ensures s'.phases == s.phases[i := s'.phases[i]]
    ensures s'.holder.Some? && s'.holder == s.holder
            ==> s'.holder.value < |s.phases| && s'.holder.value != i && s'.db == s.db
    ensures s'.holder.Some? && s.holder.None?
            ==> s'.holder == Some(i) && s'.db == s.db && s'.phases[i] == Locked(RowOf(s.db))
    ensures s'.holder.None? ==> s'.db == s.db && s.holder.None?
    ensures s.holder.Some? ==> s'.holder == s.holder
  {
    assert i !in s.order;
  }

  lemma AnswersStay(before: seq<Phase>, after: seq<Phase>, done: seq<nat>, outcomes: seq<Outcome>, i: nat)
    requires i < |before| && |after| == |before| && after == before[i := after[i]] && i !in done
    requires InRange(done, |before|) && Answered(before, done, outcomes)
    ensures Answered(after, done, outcomes)
  {
    forall k | 0 <= k < |done| ensures after[done[k]] == before[done[k]] { assert done[k] in done; }
  }

  lemma SerialFrom(rs: seq<Request>, db: Tables, s: System, base: Tables, outcomes: seq<Outcome>)
    requires Shape(rs, db, s) && Run(db, Pick(rs, Settled(s))) == (base, outcomes)
    requires Answered(s.phases, Settled(s), outcomes)
    requires if s.holder.Some? then HolderOk(base, s.db, s.phases[s.holder.value], rs[s.holder.value]) else s.db == base
    ensures Serial(rs, db, s)
  {
  }

  lemma StepKeepsSerial(rs: seq<Request>, db: Tables, s: System, s': System)
    requires Serial(rs, db, s) && Step(rs, s, s')
    ensures Serial(rs, db, s')
  {
    var i :| 0 <= i < |rs| && Next(s, i, rs[i]) == Some(s');
    StepKeepsShape(rs, db, s, i, s');
    StepKinds(s, i, rs[i]);
    if OutsiderStep(s, i, s') {
      OutsiderKeepsSerial(rs, db, s, i, s');
    } else if s'.phases[i].Finished? {
      EndIsApply(rs, db, s, i, s');
    } else {
      MoveMatches(Run(db, Pick(rs, Settled(s))).0, s, i, rs[i]);
      HolderKeepsSerial(rs, db, s, i, s');
    }
  }

  /** Every state of every execution is explained by the lock order. */
  lemma {:induction false} EveryExecutionSerial(rs: seq<Request>, db: Tables, size: nat, trace: seq<System>, k: nat)
    requires Execution(rs, db, size, trace) && k < |trace|
    ensures Serial(rs, db, trace[k])
  {
    if k > 0 {
      EveryExecutionSerial(rs, db, size, trace, k - 1);
      StepKeepsSerial(rs, db, trace[k - 1], trace[k]);
    }
  }
}
