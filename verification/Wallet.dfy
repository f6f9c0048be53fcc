/**
 * The wallet ledger of one organisation (lib/billing/wallet.ts, with the
 * constraints of migration 012). Money is counted in units of 0.0001, the
 * scale of the numeric(14,4) columns.
 *
 * `Apply` is what one call does when it runs alone; `WalletDb` is the
 * statement-by-statement transaction, proved to do exactly that. WalletRace
 * proves the same of any number of interleaved calls.
 */
module Wallet {
  import opened Common

  datatype Kind = Credit | Debit
  datatype Reason = CallCharge | ManualTopup | Refund | Adjustment
  datatype Request = Request(kind: Kind, reason: Reason, amount: int, key: Option<string>)

  datatype Row = Row(balance: int, threshold: int)
  datatype Entry = Entry(kind: Kind, reason: Reason, amount: int, balanceAfter: int, key: Option<string>)
  datatype Alert = LowBalance | ZeroBalance
  datatype AlertRow = AlertRow(alert: Alert, balanceAfter: int)
  datatype AuditRow =
    | Moved(kind: Kind, reason: Reason, amount: int, balanceAfter: int)
    | DebitRejected(reason: Reason, amount: int, balance: int)

  datatype Tables = Tables(wallet: Option<Row>, ledger: seq<Entry>, alerts: seq<AlertRow>, audit: seq<AuditRow>)

  datatype Outcome =
    | Applied(balanceAfter: int, alert: Option<Alert>)
    | Replayed(balance: int)
    | InsufficientBalance
    | RefusedByDatabase  // a CHECK or UNIQUE violation: the driver throws and withTenant rolls back

  // ---- One call running alone ---------------------------------------------

  const NEW_WALLET := Row(0, 0)

  function RowOf(db: Tables): Row {
    if db.wallet.Some? then db.wallet.value else NEW_WALLET
  }

  function Signed(kind: Kind, amount: int): int {
    if kind == Credit then amount else -amount
  }

  function After(row: Row, r: Request): int { row.balance + Signed(r.kind, r.amount) }

  predicate Overdraws(row: Row, r: Request) { r.kind == Debit && After(row, r) < 0 }

  predicate HasKey(ledger: seq<Entry>, key: Option<string>) {
    key.Some? && exists i :: 0 <= i < |ledger| && ledger[i].key == key
  }

  /** The duplicate lookup is skipped for a missing key and for the empty one. */
  predicate IsDuplicate(ledger: seq<Entry>, r: Request) {
    r.key.Some? && r.key.value != "" && HasKey(ledger, r.key)
  }

  /** CHECK (amount > 0) and the unique index on (wallet_id, idempotency_key). */
  predicate Insertable(ledger: seq<Entry>, r: Request) {
    r.amount > 0 && !HasKey(ledger, r.key)
  }

  function EntryFor(row: Row, r: Request): Entry {
    Entry(r.kind, r.reason, r.amount, After(row, r), r.key)
  }

  function AlertFor(row: Row, r: Request): Option<Alert> {
    if After(row, r) <= 0 then Some(ZeroBalance)
    else if After(row, r) <= row.threshold then Some(LowBalance)
    else None
  }

  function AlertRows(row: Row, r: Request): seq<AlertRow> {
    if AlertFor(row, r).Some? then [AlertRow(AlertFor(row, r).value, After(row, r))] else []
  }

  function MovedRows(row: Row, r: Request): seq<AuditRow> {
    if r.reason == CallCharge then [] else [Moved(r.kind, r.reason, r.amount, After(row, r))]
  }

  function RejectedRows(row: Row, r: Request): seq<AuditRow> {
    if r.reason == CallCharge then [] else [DebitRejected(r.reason, r.amount, row.balance)]
  }

  function Committed(db: Tables, row: Row, r: Request): Tables {
    Tables(Some(row.(balance := After(row, r))), db.ledger + [EntryFor(row, r)],
           db.alerts + AlertRows(row, r), db.audit + MovedRows(row, r))
  }

  function Apply(db: Tables, r: Request): (Tables, Outcome) {
    var row := RowOf(db);
    if Overdraws(row, r) then (db.(audit := db.audit + RejectedRows(row, r)), InsufficientBalance)
    else if IsDuplicate(db.ledger, r) then (db.(wallet := Some(row)), Replayed(row.balance))
    else if !Insertable(db.ledger, r) then (db, RefusedByDatabase)
    else (Committed(db, row, r), Applied(After(row, r), AlertFor(row, r)))
  }

  /** A sequence of calls, each running after the previous one has finished. */
  function Run(db: Tables, rs: seq<Request>): (Tables, seq<Outcome>) {
    if rs == [] then (db, [])
    else
      var (before, outcomes) := Run(db, rs[..|rs| - 1]);
      var (after, last) := Apply(before, rs[|rs| - 1]);
      (after, outcomes + [last])
  }

  // ---- The transaction ----------------------------------------------------

  class WalletDb {
    var wallet: Option<Row>
    var ledger: seq<Entry>
    var alerts: seq<AlertRow>
    var audit: seq<AuditRow>

    function Contents(): Tables
      reads this
    {
      Tables(wallet, ledger, alerts, audit)
    }

    constructor (opening: Option<Row>)
      ensures Contents() == Tables(opening, [], [], [])
    {
      wallet, ledger, alerts, audit := opening, [], [], [];
    }

    method GetOrCreateWallet() returns (row: Row)
      modifies this
      ensures row == RowOf(old(Contents()))
      ensures Contents() == old(Contents()).(wallet := Some(row))
    {
      if wallet.Some? { return wallet.value; }
      wallet := Some(NEW_WALLET);
      return NEW_WALLET;
    }

    method ApplyWalletTransaction(r: Request) returns (outcome: Outcome)
      modifies this
      ensures (Contents(), outcome) == Apply(old(Contents()), r)
    {
      var savedWallet, savedLedger := wallet, ledger;  // BEGIN
      var row := GetOrCreateWallet();
      var balanceAfter := row.balance + if r.kind == Credit then r.amount else -r.amount;

      if r.kind == Debit && balanceAfter < 0 {
        if r.reason != CallCharge {
          audit := audit + [DebitRejected(r.reason, r.amount, row.balance)];  // its own connection
        }
        wallet := savedWallet;  // ROLLBACK
        assert audit == old(audit) + RejectedRows(row, r);
        return InsufficientBalance;
      }
      if r.key.Some? && r.key.value != "" {
        if HasKey(ledger, r.key) { return Replayed(row.balance); }  // COMMIT
      }
      wallet := Some(row.(balance := balanceAfter));
      if !Insertable(ledger, r) {
        wallet, ledger := savedWallet, savedLedger;  // ROLLBACK
        return RefusedByDatabase;
      }
      ledger := ledger + [Entry(r.kind, r.reason, r.amount, balanceAfter, r.key)];

      var alert: Option<Alert> := None;
      if balanceAfter <= 0 { alert := Some(ZeroBalance); }
      else if balanceAfter <= row.threshold { alert := Some(LowBalance); }
      if alert.Some? { alerts := alerts + [AlertRow(alert.value, balanceAfter)]; }
      if r.reason != CallCharge { audit := audit + [Moved(r.kind, r.reason, r.amount, balanceAfter)]; }
      assert alerts == old(alerts) + AlertRows(row, r) && audit == old(audit) + MovedRows(row, r);
      return Applied(balanceAfter, alert);  // COMMIT
    }
  }

  // ---- Ledger discipline --------------------------------------------------

  function Sum(ledger: seq<Entry>): int {
    if ledger == [] then 0
    else Sum(ledger[..|ledger| - 1]) + Signed(ledger[|ledger| - 1].kind, ledger[|ledger| - 1].amount)
  }

  /** Every committed state of a wallet that was opened with `opening`. */
  ghost predicate LedgerOk(db: Tables, opening: int) {
    && (db.wallet.None? ==> opening == 0 && db.ledger == [])
    && RowOf(db).balance == opening + Sum(db.ledger)
    && (opening >= 0 ==> RowOf(db).balance >= 0)
    && (forall k :: 0 <= k < |db.ledger| ==> EntryOk(db.ledger, k, opening))
    && KeysUnique(db.ledger)
  }

  ghost predicate KeysUnique(ledger: seq<Entry>) {
    forall j, k :: 0 <= j < k < |ledger| && ledger[k].key.Some? ==> ledger[j].key != ledger[k].key
  }

  ghost predicate EntryOk(ledger: seq<Entry>, k: nat, opening: int)
    requires k < |ledger|
  {
    && ledger[k].amount > 0
    && ledger[k].balanceAfter == opening + Sum(ledger[..k + 1])
    && (opening >= 0 ==> ledger[k].balanceAfter >= 0)
  }

  lemma LedgerExtends(ledger: seq<Entry>, e: Entry, opening: int)
    requires forall k :: 0 <= k < |ledger| ==> EntryOk(ledger, k, opening)
    requires e.amount > 0 && e.balanceAfter == opening + Sum(ledger) + Signed(e.kind, e.amount)
    requires opening >= 0 ==> e.balanceAfter >= 0
    ensures Sum(ledger + [e]) == Sum(ledger) + Signed(e.kind, e.amount)
    ensures forall k :: 0 <= k < |ledger| + 1 ==> EntryOk(ledger + [e], k, opening)
  {
    var ledger' := ledger + [e];
    assert ledger'[..|ledger|] == ledger && ledger'[..|ledger| + 1] == ledger';
    forall k | 0 <= k < |ledger| + 1 ensures EntryOk(ledger', k, opening) {
      if k < |ledger| { assert EntryOk(ledger, k, opening) && ledger'[..k + 1] == ledger[..k + 1]; }
    }
  }

  lemma KeysExtend(ledger: seq<Entry>, e: Entry)
    requires KeysUnique(ledger) && !HasKey(ledger, e.key)
    ensures KeysUnique(ledger + [e])
  {
    var ledger' := ledger + [e];
    forall j, k | 0 <= j < k < |ledger'| && ledger'[k].key.Some? ensures ledger'[j].key != ledger'[k].key {
      assert ledger'[j] == ledger[j];
      if k < |ledger| { assert ledger'[k] == ledger[k]; }
    }
  }

  lemma ApplyKeepsLedger(db: Tables, opening: int, r: Request)
    requires LedgerOk(db, opening)
    ensures LedgerOk(Apply(db, r).0, opening)
  {
    if Apply(db, r).1.Applied? {
      var e := EntryFor(RowOf(db), r);
      LedgerExtends(db.ledger, e, opening);
      KeysExtend(db.ledger, e);
      assert Apply(db, r).0 == Committed(db, RowOf(db), r);
    }
  }

  lemma {:induction false} RunKeepsLedger(db: Tables, opening: int, rs: seq<Request>)
    requires LedgerOk(db, opening)
    ensures LedgerOk(Run(db, rs).0, opening) && |Run(db, rs).1| == |rs|
  {
    if rs != [] {
      RunKeepsLedger(db, opening, rs[..|rs| - 1]);
      ApplyKeepsLedger(Run(db, rs[..|rs| - 1]).0, opening, rs[|rs| - 1]);
    }
  }

  /** So it holds in every run of a wallet that is opened with some balance, or on demand. */
  lemma OpenedLedgerOk(opening: Option<Row>, rs: seq<Request>)
    ensures LedgerOk(Run(Tables(opening, [], [], []), rs).0, if opening.Some? then opening.value.balance else 0)
  {
    RunKeepsLedger(Tables(opening, [], [], []), if opening.Some? then opening.value.balance else 0, rs);
  }

  /**
   * A request whose key is already in the ledger moves no money; which of the
   * three answers it gets depends on the balance and on the key being empty.
   */
  lemma ReplayMovesNothing(db: Tables, r: Request)
    requires db.wallet.Some? && HasKey(db.ledger, r.key)
    ensures var (db', o) := Apply(db, r);
            && db'.wallet == db.wallet && db'.ledger == db.ledger && db'.alerts == db.alerts
            && (o == InsufficientBalance <==> r.kind == Debit && r.amount > db.wallet.value.balance)
            && (o == RefusedByDatabase <==> o != InsufficientBalance && r.key == Some(""))
            && (o != InsufficientBalance && o != RefusedByDatabase
                ==> o == Replayed(db.wallet.value.balance) && db' == db)
  {
  }

  /** Exactly when a call moves money. */
  lemma AppliedExactly(db: Tables, r: Request)
    ensures Apply(db, r).1.Applied? <==>
            r.amount > 0 && !HasKey(db.ledger, r.key) && (r.kind == Debit ==> r.amount <= RowOf(db).balance)
    ensures !Apply(db, r).1.Applied? ==>
            var db' := Apply(db, r).0; RowOf(db') == RowOf(db) && db'.ledger == db.ledger && db'.alerts == db.alerts
  {
  }

  lemma {:induction false} KeysStay(db: Tables, rs: seq<Request>, key: Option<string>, i: nat)
    requires i < |rs| && rs[i].key == key && key.Some?
    ensures |Run(db, rs).1| == |rs|
    ensures Run(db, rs).1[i].Applied? ==> HasKey(Run(db, rs).0.ledger, key)
  {
    var n := |rs| - 1;
    RunLength(db, rs[..n]);
    var before := Run(db, rs[..n]).0;
    if i < n {
      KeysStay(db, rs[..n], key, i);
      if HasKey(before.ledger, key) {
        var j :| 0 <= j < |before.ledger| && before.ledger[j].key == key;
        assert Run(db, rs).0.ledger[j].key == key;
      }
    } else {
      var ledger := Run(db, rs).0.ledger;
      if Run(db, rs).1[i].Applied? { assert ledger[|ledger| - 1].key == key; }
    }
  }

  lemma {:induction false} RunLength(db: Tables, rs: seq<Request>)
    ensures |Run(db, rs).1| == |rs|
  {
    if rs != [] { RunLength(db, rs[..|rs| - 1]); }
  }

  /** In any run at most one call with a given key moves money. */
  lemma {:induction false} KeyAppliedOnce(db: Tables, rs: seq<Request>, i: nat, j: nat)
    requires i < j < |rs| && rs[i].key == rs[j].key && rs[i].key.Some?
    ensures |Run(db, rs).1| == |rs|
    ensures !(Run(db, rs).1[i].Applied? && Run(db, rs).1[j].Applied?)
    decreases |rs|
  {
    var n := |rs| - 1;
    RunLength(db, rs);
    RunLength(db, rs[..n]);
    if j < n {
      KeyAppliedOnce(db, rs[..n], i, j);
    } else {
      KeysStay(db, rs[..n], rs[i].key, i);
    }
  }

  // ---- Alerts and the audit trail -----------------------------------------

  /** The alert due at a balance: none above the threshold. */
  ghost predicate AlertAt(alert: Option<Alert>, balance: int, threshold: int) {
    && (alert == Some(ZeroBalance) <==> balance <= 0)
    && (alert == Some(LowBalance) <==> 0 < balance <= threshold)
  }

  /** What a call that moves money leaves behind, table by table, and answers. */
  lemma AppliedWrites(db: Tables, r: Request)
    requires Apply(db, r).1.Applied?
    ensures
      var (db', o) := Apply(db, r);
      var was := if db.wallet.Some? then db.wallet.value else Row(0, 0);
      var balance := if r.kind == Credit then was.balance + r.amount else was.balance - r.amount;
      && o.balanceAfter == balance && AlertAt(o.alert, balance, was.threshold)
      && db'.wallet == Some(Row(balance, was.threshold))
      && db'.ledger == db.ledger + [Entry(r.kind, r.reason, r.amount, balance, r.key)]
      && db'.alerts == db.alerts + (if o.alert.Some? then [AlertRow(o.alert.value, balance)] else [])
      && db'.audit == db.audit + (if r.reason == CallCharge then [] else [Moved(r.kind, r.reason, r.amount, balance)])
  {
  }

  /**
   * What the other three answers mean. A debit the balance does not cover
   * leaves only its rejection, and that not for a call charge; a replay may
   * create the wallet row.
   */
  lemma UnappliedWrites(db: Tables, r: Request)
    ensures
      var (db', o) := Apply(db, r);
      var balance := if db.wallet.Some? then db.wallet.value.balance else 0;
      && (o == InsufficientBalance <==> r.kind == Debit && r.amount > balance)
      && (o == InsufficientBalance ==>
            db' == db.(audit := db.audit + if r.reason == CallCharge then []
                                           else [DebitRejected(r.reason, r.amount, balance)]))
      && (o.Replayed? <==>
            o != InsufficientBalance && r.key.Some? && r.key.value != "" && exists i ::
              0 <= i < |db.ledger| && db.ledger[i].key == r.key)
      && (o.Replayed? ==> o.balance == balance && db' == db.(wallet := Some(RowOf(db))))
      && (o == RefusedByDatabase ==> db' == db)
  {
  }

  /** The alerts of a ledger: an entry has one if it left the balance at or below the threshold. */
  ghost function AlertsOf(ledger: seq<Entry>, threshold: int): seq<AlertRow> {
    if ledger == [] then []
    else
      var balance := ledger[|ledger| - 1].balanceAfter;
      AlertsOf(ledger[..|ledger| - 1], threshold)
      + if balance <= 0 then [AlertRow(ZeroBalance, balance)]
        else if balance <= threshold then [AlertRow(LowBalance, balance)]
        else []
  }

  /** The alerts raised since `was` are those of the ledger entries made since, and no more. */
  ghost predicate AlertsFollow(was: Tables, db: Tables) {
    && |was.ledger| <= |db.ledger| && db.ledger[..|was.ledger|] == was.ledger
    && RowOf(db).threshold == RowOf(was).threshold
    && db.alerts == was.alerts + AlertsOf(db.ledger[|was.ledger|..], RowOf(was).threshold)
  }

  lemma ApplyFollows(was: Tables, db: Tables, r: Request)
    requires AlertsFollow(was, db)
    ensures AlertsFollow(was, Apply(db, r).0)
    ensures var o := Apply(db, r).1; o.Applied? ==> AlertAt(o.alert, o.balanceAfter, RowOf(was).threshold)
  {
    if Apply(db, r).1.Applied? {
      AppliedWrites(db, r);
      var made, made' := db.ledger[|was.ledger|..], Apply(db, r).0.ledger[|was.ledger|..];
      assert made'[..|made'| - 1] == made;
    }
  }

  /** In any run, every alert raised and every alert answered is the one due at its balance. */
  lemma {:induction false} RunAlerts(db: Tables, rs: seq<Request>)
    ensures AlertsFollow(db, Run(db, rs).0)
    ensures |Run(db, rs).1| == |rs|
    ensures forall i :: 0 <= i < |rs| && Run(db, rs).1[i].Applied? ==>
              AlertAt(Run(db, rs).1[i].alert, Run(db, rs).1[i].balanceAfter, RowOf(db).threshold)
  {
    if rs == [] {
      assert db.ledger[|db.ledger|..] == [];
    } else {
      RunAlerts(db, rs[..|rs| - 1]);
      ApplyFollows(db, Run(db, rs[..|rs| - 1]).0, rs[|rs| - 1]);
    }
  }
}
