/**
 * Moves of leads whose transactions overlap. A move is dated when its
 * transaction begins, reads the lead's stage without a lock some statements
 * later, and writes what it read later still (crm/pipeline.ts, db/tenant.ts).
 */
module LeadRace {
  import opened Common
  import opened LeadHistory

  /**
   * A move as others can interleave with it: BEGIN, which fixes now(); its two
   * SELECTs; its UPDATE and INSERT, visible to others together when it commits.
   */
  datatype MoveStep = Begin(task: nat) | ReadStage(task: nat, lead: nat, to: nat) | WriteMove(task: nat)
  datatype Open = Begun(at: nat) | Read(at: nat, lead: nat, from: Option<nat>, to: nat)
  datatype Moves = Moves(leads: Leads, open: map<nat, Open>)

  /** Every step takes time; a transaction whose SELECTs find nothing throws and is over. */
  function AfterStep(s: Moves, stages: nat, step: MoveStep): Moves {
    var now := s.leads.now;
    match step
    case Begin(task) => Moves(s.leads.(now := now + 1), s.open[task := Begun(now)])
    case ReadStage(task, lead, to) =>
      if task in s.open && s.open[task].Begun? && lead in s.leads.current && to < stages
      then Moves(s.leads.(now := now + 1), s.open[task := Read(s.open[task].at, lead, s.leads.current[lead], to)])
      else Moves(s.leads.(now := now + 1), s.open - {task})
    case WriteMove(task) =>
      if task in s.open && s.open[task].Read?
      then
        var r := s.open[task];
        Moves(Moved(s.leads, r.lead, r.from, r.to, r.at), s.open - {task})
      else Moves(s.leads.(now := now + 1), s.open - {task})
  }

  /** What can be told before anything runs: the stages the leads are in, how many stages exist, and the steps. */
  datatype Schedule = Schedule(first: map<nat, Option<nat>>, stages: nat, steps: seq<MoveStep>)

  predicate Goes(sch: Schedule, trace: seq<Moves>, k: nat)
    requires k < |sch.steps| && |trace| == |sch.steps| + 1
  {
    trace[k + 1] == AfterStep(trace[k], sch.stages, sch.steps[k])
  }

  /** The states the steps lead through, none of the tasks having begun before. */
  ghost predicate Run(sch: Schedule, trace: seq<Moves>) {
    && |trace| == |sch.steps| + 1 && trace[0].open == map[] && trace[0].leads.current == sch.first
    && forall k :: 0 <= k < |sch.steps| ==> Goes(sch, trace, k)
  }

  // ---- Told from the steps alone ------------------------------------------------------

  /** A read that finds both the lead and the stage. */
  predicate Finds(sch: Schedule, step: MoveStep) {
    step.ReadStage? && step.lead in sch.first && step.to < sch.stages
  }

  /** The steps at which a transaction began and read. */
  datatype Txn = Txn(begin: nat, read: nat)

  ghost predicate Proper(sch: Schedule, t: Txn) {
    && t.begin < t.read < |sch.steps| && sch.steps[t.begin].Begin? && Finds(sch, sch.steps[t.read])
  }

  /** What a task has open: a transaction that has begun, or has also read. */
  datatype Status = Idle | Started(begin: nat) | Ready(t: Txn)

  function StatusOf(sch: Schedule, task: nat, k: nat): (r: Status)
    requires k <= |sch.steps|
    ensures r.Started? ==> r.begin < k && sch.steps[r.begin].Begin?
    ensures r.Ready? ==> Proper(sch, r.t) && r.t.read < k
  {
    if k == 0 then Idle
    else
      var step := sch.steps[k - 1];
      if step.task != task then StatusOf(sch, task, k - 1)
      else if step.Begin? then Started(k - 1)
      else
        var before := StatusOf(sch, task, k - 1);
        if before.Started? && Finds(sch, step) then Ready(Txn(before.begin, k - 1)) else Idle
  }

  /** The transaction that step `j` writes and commits, if any. */
  function TxnOf(sch: Schedule, j: nat): (t: Option<Txn>)
    requires j < |sch.steps|
    ensures t.Some? ==> Proper(sch, t.value) && t.value.read < j
  {
    var status := StatusOf(sch, sch.steps[j].task, j);
    if sch.steps[j].WriteMove? && status.Ready? then Some(status.t) else None
  }

  function LeadOf(sch: Schedule, t: Txn): nat
    requires Proper(sch, t)
  {
    sch.steps[t.read].lead
  }

  function TargetOf(sch: Schedule, t: Txn): nat
    requires Proper(sch, t)
  {
    sch.steps[t.read].to
  }

  /** Step `m` writes a move of the lead. */
  predicate Writes(sch: Schedule, m: nat, lead: nat)
    requires m < |sch.steps|
  {
    TxnOf(sch, m).Some? && LeadOf(sch, TxnOf(sch, m).value) == lead
  }

  /** Where the lead stands after `k` steps: the target of the last move written for it. */
  function StageBy(sch: Schedule, lead: nat, k: nat): Option<nat>
    requires lead in sch.first && k <= |sch.steps|
  {
    if k == 0 then sch.first[lead]
    else if Writes(sch, k - 1, lead) then Some(TargetOf(sch, TxnOf(sch, k - 1).value))
    else StageBy(sch, lead, k - 1)
  }

  /** Of the moves of the lead that began by step `b` and are written within `k` steps, the one begun last. */
  function LastBegun(sch: Schedule, lead: nat, k: nat, b: nat): (t: Option<Txn>)
    requires k <= |sch.steps|
    ensures t.Some? ==> Proper(sch, t.value) && LeadOf(sch, t.value) == lead && t.value.begin <= b
  {
    if k == 0 then None
    else
      var before := LastBegun(sch, lead, k - 1, b);
      if !Writes(sch, k - 1, lead) then before
      else
        var t := TxnOf(sch, k - 1).value;
        if t.begin <= b && (before.None? || before.value.begin <= t.begin) then Some(t) else before
  }

  /** The stage the listing shows for the lead at step `b`, once `k` steps are done. */
  function ShownBy(sch: Schedule, lead: nat, k: nat, b: nat): Option<nat>
    requires lead in sch.first && k <= |sch.steps|
  {
    var t := LastBegun(sch, lead, k, b);
    if t.None? then sch.first[lead] else Some(TargetOf(sch, t.value))
  }

  /** No move of the lead written within `k` steps began after step `b`. */
  ghost predicate NoneBegunLater(sch: Schedule, lead: nat, k: nat, b: nat)
    requires k <= |sch.steps|
  {
    forall m :: 0 <= m < k && Writes(sch, m, lead) ==> TxnOf(sch, m).value.begin <= b
  }

  /** The move written at `j` leaves the stage its lead is still, or again, in. */
  predicate StillThere(sch: Schedule, j: nat)
    requires j < |sch.steps|
  {
    var t := TxnOf(sch, j);
    t.Some? ==>
      StageBy(sch, LeadOf(sch, t.value), t.value.read) == StageBy(sch, LeadOf(sch, t.value), j)
  }

  /**
   * ... and no move of its lead that began later is written already, or else
   * the move goes from a stage to that same stage, which is also the stage
   * shown for the time it began.
   */
  ghost predicate InPlace(sch: Schedule, j: nat)
    requires j < |sch.steps|
  {
    var t := TxnOf(sch, j);
    t.Some? ==>
      var lead, to := LeadOf(sch, t.value), TargetOf(sch, t.value);
      && StillThere(sch, j)
      && (|| NoneBegunLater(sch, lead, j, t.value.begin)
          || StageBy(sch, lead, j) == Some(to) == ShownBy(sch, lead, j, t.value.begin))
  }

  // ---- What a run does, step by step ----------------------------------------------------

  lemma {:induction false} ClockExactly(sch: Schedule, trace: seq<Moves>, k: nat)
    requires Run(sch, trace) && k <= |sch.steps|
    ensures trace[k].leads.now == trace[0].leads.now + k
  {
    if k > 0 {
      ClockExactly(sch, trace, k - 1);
      assert Goes(sch, trace, k - 1);
    }
  }

  /** The leads that exist never change, and `k` steps have led each where the steps say. */
  lemma {:induction false} CurrentExactly(sch: Schedule, trace: seq<Moves>, lead: nat, k: nat)
    requires Run(sch, trace) && k <= |sch.steps|
    ensures lead in trace[k].leads.current <==> lead in sch.first
    ensures lead in sch.first ==> trace[k].leads.current[lead] == StageBy(sch, lead, k)
    decreases k
  {
    if k > 0 {
      CurrentExactly(sch, trace, lead, k - 1);
      OpenExactly(sch, trace, sch.steps[k - 1].task, k - 1);
      assert Goes(sch, trace, k - 1);
    }
  }

  ghost predicate OpenIs(sch: Schedule, trace: seq<Moves>, task: nat, k: nat)
    requires Run(sch, trace) && k <= |sch.steps|
  {
    var open, now := trace[k].open, trace[0].leads.now;
    match StatusOf(sch, task, k)
    case Idle => task !in open
    case Started(begin) => task in open && open[task] == Begun(now + begin)
    case Ready(t) =>
      var lead := LeadOf(sch, t);
      && task in open
      && open[task] == Read(now + t.begin, lead, StageBy(sch, lead, t.read), TargetOf(sch, t))
  }

  /** What a task has open: when it began and, once it has read, the stage it then saw. */
  lemma {:induction false} OpenExactly(sch: Schedule, trace: seq<Moves>, task: nat, k: nat)
    requires Run(sch, trace) && k <= |sch.steps|
    ensures OpenIs(sch, trace, task, k)
    decreases k
  {
    if k > 0 {
      OpenExactly(sch, trace, task, k - 1);
      ClockExactly(sch, trace, k - 1);
      assert Goes(sch, trace, k - 1);
      if sch.steps[k - 1].ReadStage? { CurrentExactly(sch, trace, sch.steps[k - 1].lead, k - 1); }
    }
  }

  /** What step `j` does to the tables. */
  lemma StepWrites(sch: Schedule, trace: seq<Moves>, j: nat)
    requires Run(sch, trace) && j < |sch.steps|
    ensures var s, t := trace[j].leads, TxnOf(sch, j);
            trace[j + 1].leads
            == if t.None? then s.(now := s.now + 1)
               else
                 var lead := LeadOf(sch, t.value);
                 Moved(s, lead, StageBy(sch, lead, t.value.read), TargetOf(sch, t.value),
                       trace[0].leads.now + t.value.begin)
  {
    OpenExactly(sch, trace, sch.steps[j].task, j);
    assert Goes(sch, trace, j);
  }

  function ListedAt(trace: seq<Moves>, lead: nat, k: nat): seq<Move>
    requires k < |trace|
  {
    Listed(MovesOf(trace[k].leads.history, lead))
  }

  /** What step `j` does to the listing of a lead. */
  lemma StepLists(sch: Schedule, trace: seq<Moves>, lead: nat, j: nat) returns (m: Move)
    requires Run(sch, trace) && j < |sch.steps|
    ensures !Writes(sch, j, lead) ==> MovesOf(trace[j + 1].leads.history, lead) == MovesOf(trace[j].leads.history, lead)
    ensures Writes(sch, j, lead) ==>
      && MovesOf(trace[j + 1].leads.history, lead) == MovesOf(trace[j].leads.history, lead) + [m]
      && ListedAt(trace, lead, j + 1) == Placed(ListedAt(trace, lead, j), m)
      && m.to == TargetOf(sch, TxnOf(sch, j).value) && m.at == trace[0].leads.now + TxnOf(sch, j).value.begin
  {
    StepWrites(sch, trace, j);
    var s, t := trace[j].leads, TxnOf(sch, j);
    m := Move(lead, None, 0, 0);
    if t.Some? {
      var to, at := TargetOf(sch, t.value), trace[0].leads.now + t.value.begin;
      m := Move(LeadOf(sch, t.value), StageBy(sch, LeadOf(sch, t.value), t.value.read), to, at);
      MovesOfAppend(s.history, m, lead);
      ListedAppend(MovesOf(s.history, lead), m);
    }
  }

  /** Whether a move began later than `b` can be told from the steps; the moves of before the run began earlier. */
  lemma {:induction false} NoneLaterExactly(sch: Schedule, trace: seq<Moves>, lead: nat, k: nat, b: nat)
    requires Run(sch, trace) && PastOnly(trace[0].leads) && k <= |sch.steps|
    ensures NoneLater(MovesOf(trace[k].leads.history, lead), trace[0].leads.now + b)
            <==> NoneBegunLater(sch, lead, k, b)
  {
    hide StatusOf, Listed, MovesOf;
    if k == 0 {
      NothingLater(trace[0].leads, lead, trace[0].leads.now + b);
    } else {
      NoneLaterExactly(sch, trace, lead, k - 1, b);
      var m := StepLists(sch, trace, lead, k - 1);
      assert Writes(sch, k - 1, lead) ==> m in MovesOf(trace[k].leads.history, lead);
      assert NoneBegunLater(sch, lead, k, b)
             <==> NoneBegunLater(sch, lead, k - 1, b)
                  && (Writes(sch, k - 1, lead) ==> TxnOf(sch, k - 1).value.begin <= b);
    }
  }

  /** The last move shown is the transaction's, or without one an earlier move. */
  ghost predicate LastMatches(sch: Schedule, now: nat, last: Option<Move>, t: Option<Txn>, earlier: Option<Move>)
    requires t.Some? ==> Proper(sch, t.value)
  {
    if t.None? then last == earlier
    else last.Some? && last.value.to == TargetOf(sch, t.value) && last.value.at == now + t.value.begin
  }

  lemma LastStep(sch: Schedule, now: nat, last: Option<Move>, before: Option<Txn>, earlier: Option<Move>, m: Move,
                 t: Txn, b: nat)
    requires Proper(sch, t) && (before.Some? ==> Proper(sch, before.value))
    requires LastMatches(sch, now, last, before, earlier) && (earlier.Some? ==> earlier.value.at < now)
    requires m.to == TargetOf(sch, t) && m.at == now + t.begin
    ensures LastMatches(sch, now,
                        if m.at <= now + b && (last.None? || last.value.at <= m.at) then Some(m) else last,
                        if t.begin <= b && (before.None? || before.value.begin <= t.begin) then Some(t) else before,
                        earlier)
  {
  }

  function LastAt(trace: seq<Moves>, lead: nat, k: nat, at: nat): Option<Move>
    requires k < |trace|
  {
    LastShown(ListedAt(trace, lead, k), at)
  }

  lemma LastBegunStep(sch: Schedule, lead: nat, k: nat, b: nat)
    requires k < |sch.steps| && Writes(sch, k, lead)
    ensures var before, t := LastBegun(sch, lead, k, b), TxnOf(sch, k).value;
            LastBegun(sch, lead, k + 1, b)
            == if t.begin <= b && (before.None? || before.value.begin <= t.begin) then Some(t) else before
  {
  }

  lemma LastWritten(sch: Schedule, trace: seq<Moves>, lead: nat, k: nat, at: nat) returns (m: Move)
    requires Run(sch, trace) && k < |sch.steps| && Writes(sch, k, lead)
    ensures m.to == TargetOf(sch, TxnOf(sch, k).value) && m.at == trace[0].leads.now + TxnOf(sch, k).value.begin
    ensures var last := LastAt(trace, lead, k, at);
            LastAt(trace, lead, k + 1, at)
            == if m.at <= at && (last.None? || last.value.at <= m.at) then Some(m) else last
  {
    m := StepLists(sch, trace, lead, k);
    ListedIsSorted(MovesOf(trace[k].leads.history, lead));
    PlacedLast(ListedAt(trace, lead, k), m, at);
  }

  ghost predicate LastIs(sch: Schedule, trace: seq<Moves>, lead: nat, k: nat, b: nat)
    requires Run(sch, trace) && k <= |sch.steps|
  {
    var now := trace[0].leads.now;
    LastMatches(sch, now, LastAt(trace, lead, k, now + b), LastBegun(sch, lead, k, b), LastAt(trace, lead, 0, now + b))
  }

  lemma LastKept(sch: Schedule, trace: seq<Moves>, lead: nat, k: nat, b: nat)
    requires Run(sch, trace) && PastOnly(trace[0].leads) && k < |sch.steps|
    requires Writes(sch, k, lead) && LastIs(sch, trace, lead, k, b)
    ensures LastIs(sch, trace, lead, k + 1, b)
  {
    hide LastBegun, LastShown, Listed, MovesOf, StatusOf;
    var now, before := trace[0].leads.now, LastBegun(sch, lead, k, b);
    var last, earlier := LastAt(trace, lead, k, now + b), LastAt(trace, lead, 0, now + b);
    var m := LastWritten(sch, trace, lead, k, now + b);
    LastBegunStep(sch, lead, k, b);
    EarlierPast(trace[0].leads, lead, now + b);
    LastStep(sch, now, last, before, earlier, m, TxnOf(sch, k).value, b);
  }

  lemma {:induction false} LastExactly(sch: Schedule, trace: seq<Moves>, lead: nat, k: nat, b: nat)
    requires Run(sch, trace) && PastOnly(trace[0].leads) && k <= |sch.steps|
    ensures LastIs(sch, trace, lead, k, b)
  {
    if k > 0 {
      LastExactly(sch, trace, lead, k - 1, b);
      if Writes(sch, k - 1, lead) {
        LastKept(sch, trace, lead, k - 1, b);
      } else {
        var m := StepLists(sch, trace, lead, k - 1);
      }
    }
  }

  lemma EarlierPast(s: Leads, lead: nat, at: nat)
    requires PastOnly(s)
    ensures var last := LastShown(Listed(MovesOf(s.history, lead)), at); last.Some? ==> last.value.at < s.now
  {
    var moves := MovesOf(s.history, lead);
    var last := LastShown(Listed(moves), at);
    if last.Some? {
      ListedMembers(moves, last.value);
      MovesAreRows(s.history, lead, last.value);
    }
  }

  /** The stage shown for the time of a step can be told from the steps. */
  lemma ShownExactly(sch: Schedule, trace: seq<Moves>, begun: map<nat, Option<nat>>, lead: nat, k: nat, b: nat)
    requires Run(sch, trace) && HistoryOk(trace[0].leads, begun) && lead in begun && k <= |sch.steps|
    ensures ShownAt(trace[k].leads, lead, begun[lead], trace[0].leads.now + b) == ShownBy(sch, lead, k, b)
  {
    var at := trace[0].leads.now + b;
    LastExactly(sch, trace, lead, k, b);
    ShownIsLast(ListedAt(trace, lead, k), begun[lead], at);
    ShownIsLast(ListedAt(trace, lead, 0), begun[lead], at);
    assert ListOk(trace[0].leads, lead, begun[lead]);
    ShownNow(trace[0].leads, lead, begun[lead], at);
  }

  // ---- When the histories stay right ------------------------------------------------------

  /** The move that step `j` writes. */
  lemma WrittenBy(sch: Schedule, trace: seq<Moves>, j: nat) returns (m: Move)
    requires Run(sch, trace) && j < |sch.steps| && TxnOf(sch, j).Some?
    ensures var t, s := TxnOf(sch, j).value, trace[j].leads;
            && m.lead == LeadOf(sch, t) && m.to == TargetOf(sch, t) && m.at == trace[0].leads.now + t.begin <= s.now
            && m.lead in s.current && s.current[m.lead] == StageBy(sch, m.lead, j)
            && trace[j + 1].leads == Moved(s, m.lead, m.from, m.to, m.at)
            && (StillThere(sch, j) <==> m.from == s.current[m.lead])
  {
    var t := TxnOf(sch, j).value;
    var lead := LeadOf(sch, t);
    m := Move(lead, StageBy(sch, lead, t.read), TargetOf(sch, t), trace[0].leads.now + t.begin);
    StepWrites(sch, trace, j);
    CurrentExactly(sch, trace, lead, j);
    ClockExactly(sch, trace, j);
  }

  /** ... fits in exactly when the step is in place. */
  lemma FitsExactly(sch: Schedule, trace: seq<Moves>, begun: map<nat, Option<nat>>, j: nat) returns (m: Move)
    requires Run(sch, trace) && HistoryOk(trace[0].leads, begun) && j < |sch.steps| && TxnOf(sch, j).Some?
    ensures m.lead in begun && m.lead in trace[j].leads.current && m.at <= trace[j].leads.now
    ensures trace[j + 1].leads == Moved(trace[j].leads, m.lead, m.from, m.to, m.at)
    ensures InPlace(sch, j) <==> Fits(trace[j].leads, begun[m.lead], m.lead, m.from, m.to, m.at)
  {
    hide StatusOf, Listed, MovesOf, StageBy, ShownBy;
    m := WrittenBy(sch, trace, j);
    NoneLaterExactly(sch, trace, m.lead, j, TxnOf(sch, j).value.begin);
    ShownExactly(sch, trace, begun, m.lead, j, TxnOf(sch, j).value.begin);
  }

  lemma StepInPlaceExactly(sch: Schedule, trace: seq<Moves>, begun: map<nat, Option<nat>>, j: nat)
    requires Run(sch, trace) && HistoryOk(trace[0].leads, begun) && j < |sch.steps| && HistoryOk(trace[j].leads, begun)
    ensures HistoryOk(trace[j + 1].leads, begun) <==> InPlace(sch, j)
  {
    if TxnOf(sch, j).Some? {
      var m := FitsExactly(sch, trace, begun, j);
      MoveKeepsListExactly(trace[j].leads, begun, m.lead, m.from, m.to, m.at);
    } else {
      StepWrites(sch, trace, j);
      OnlyTimePasses(trace[j].leads, begun);
    }
  }

  lemma OnlyTimePasses(s: Leads, begun: map<nat, Option<nat>>)
    ensures HistoryOk(s, begun) ==> HistoryOk(s.(now := s.now + 1), begun)
    ensures WrittenOk(s, begun) <==> WrittenOk(s.(now := s.now + 1), begun)
  {
    forall lead: nat | lead in s.current && lead in begun
      ensures ListOk(s.(now := s.now + 1), lead, begun[lead]) == ListOk(s, lead, begun[lead])
      ensures WritingOk(s.(now := s.now + 1), lead, begun[lead]) == WritingOk(s, lead, begun[lead])
    {
    }
  }

  ghost predicate ListedUpTo(trace: seq<Moves>, begun: map<nat, Option<nat>>, n: nat) {
    forall k: nat :: k <= n && k < |trace| ==> HistoryOk(trace[k].leads, begun)
  }

  ghost predicate InPlaceUpTo(sch: Schedule, n: nat)
    requires n <= |sch.steps|
  {
    forall j: nat :: j < n ==> InPlace(sch, j)
  }

  lemma {:induction false} ListedExactlyUpTo(sch: Schedule, trace: seq<Moves>, begun: map<nat, Option<nat>>, n: nat)
    requires Run(sch, trace) && HistoryOk(trace[0].leads, begun) && n <= |sch.steps|
    ensures ListedUpTo(trace, begun, n) <==> InPlaceUpTo(sch, n)
  {
    hide HistoryOk, InPlace;
    if n > 0 {
      ListedExactlyUpTo(sch, trace, begun, n - 1);
      ListedLast(trace, begun, n);
      InPlaceLast(sch, n);
      if ListedUpTo(trace, begun, n - 1) { StepInPlaceExactly(sch, trace, begun, n - 1); }
    }
  }

  lemma ListedLast(trace: seq<Moves>, begun: map<nat, Option<nat>>, n: nat)
    requires 0 < n < |trace|
    ensures ListedUpTo(trace, begun, n) <==> ListedUpTo(trace, begun, n - 1) && HistoryOk(trace[n].leads, begun)
    ensures ListedUpTo(trace, begun, n - 1) ==> HistoryOk(trace[n - 1].leads, begun)
  {
  }

  lemma InPlaceLast(sch: Schedule, n: nat)
    requires 0 < n <= |sch.steps|
    ensures InPlaceUpTo(sch, n) <==> InPlaceUpTo(sch, n - 1) && InPlace(sch, n - 1)
  {
  }

  /**
   * Over any interleaving of moves every lead's listed history is a chain in
   * every state if and only if each move is written in place, told from the
   * order of the steps alone.
   */
  lemma ChainsExactly(sch: Schedule, trace: seq<Moves>, begun: map<nat, Option<nat>>)
    requires Run(sch, trace) && HistoryOk(trace[0].leads, begun)
    ensures ListedUpTo(trace, begun, |sch.steps|) <==> InPlaceUpTo(sch, |sch.steps|)
  {
    ListedExactlyUpTo(sch, trace, begun, |sch.steps|);
  }

  lemma StepStillThereExactly(sch: Schedule, trace: seq<Moves>, begun: map<nat, Option<nat>>, j: nat)
    requires Run(sch, trace) && j < |sch.steps| && WrittenOk(trace[j].leads, begun)
    ensures WrittenOk(trace[j + 1].leads, begun) <==> StillThere(sch, j)
  {
    if TxnOf(sch, j).Some? {
      var m := WrittenBy(sch, trace, j);
      MoveKeepsChainExactly(trace[j].leads, begun, m.lead, m.from, m.to, m.at);
    } else {
      StepWrites(sch, trace, j);
      OnlyTimePasses(trace[j].leads, begun);
    }
  }

  ghost predicate WrittenUpTo(trace: seq<Moves>, begun: map<nat, Option<nat>>, n: nat) {
    forall k: nat :: k <= n && k < |trace| ==> WrittenOk(trace[k].leads, begun)
  }

  ghost predicate StillThereUpTo(sch: Schedule, n: nat)
    requires n <= |sch.steps|
  {
    forall j: nat :: j < n ==> StillThere(sch, j)
  }

  lemma WrittenLast(trace: seq<Moves>, begun: map<nat, Option<nat>>, n: nat)
    requires 0 < n < |trace|
    ensures WrittenUpTo(trace, begun, n) <==> WrittenUpTo(trace, begun, n - 1) && WrittenOk(trace[n].leads, begun)
    ensures WrittenUpTo(trace, begun, n - 1) ==> WrittenOk(trace[n - 1].leads, begun)
  {
  }

  lemma StillThereLast(sch: Schedule, n: nat)
    requires 0 < n <= |sch.steps|
    ensures StillThereUpTo(sch, n) <==> StillThereUpTo(sch, n - 1) && StillThere(sch, n - 1)
  {
  }

  /** In the order of writing it is enough that each lead still is, or is again, in the stage that was read. */
  lemma {:induction false} WritingChainsExactly(sch: Schedule, trace: seq<Moves>, begun: map<nat, Option<nat>>, n: nat)
    requires Run(sch, trace) && WrittenOk(trace[0].leads, begun) && n <= |sch.steps|
    ensures WrittenUpTo(trace, begun, n) <==> StillThereUpTo(sch, n)
  {
    hide WrittenOk, StillThere;
    if n > 0 {
      WritingChainsExactly(sch, trace, begun, n - 1);
      WrittenLast(trace, begun, n);
      StillThereLast(sch, n);
      if WrittenUpTo(trace, begun, n - 1) { StepStillThereExactly(sch, trace, begun, n - 1); }
    }
  }

  // ---- What is enough, and what is not ------------------------------------------------------

  lemma {:induction false} UndisturbedStays(sch: Schedule, lead: nat, i: nat, j: nat)
    requires lead in sch.first && i <= j <= |sch.steps| && forall m :: i <= m < j ==> !Writes(sch, m, lead)
    ensures StageBy(sch, lead, i) == StageBy(sch, lead, j)
  {
    if i < j { UndisturbedStays(sch, lead, i, j - 1); }
  }

  /** A move is in place when no other move of its lead is written from its BEGIN to its own writing. */
  lemma UndisturbedInPlace(sch: Schedule, j: nat)
    requires j < |sch.steps| && TxnOf(sch, j).Some?
    requires var t := TxnOf(sch, j).value; forall m :: t.begin <= m < j ==> !Writes(sch, m, LeadOf(sch, t))
    ensures InPlace(sch, j)
  {
    var t := TxnOf(sch, j).value;
    UndisturbedStays(sch, LeadOf(sch, t), t.read, j);
  }

  /** Two overlapping moves of a lead to new stages: both claim to leave the same stage. */
  lemma OverlappingMoves(lead: nat, a: nat, b: nat, c: nat, stages: nat) returns (trace: seq<Moves>)
    requires a < stages && b < stages && c < stages && a != b
    ensures var steps := [Begin(0), Begin(1), ReadStage(0, lead, b), ReadStage(1, lead, c), WriteMove(0), WriteMove(1)];
            Run(Schedule(map[lead := Some(a)], stages, steps), trace)
    ensures trace[6].leads.history == [Move(lead, Some(a), b, 0), Move(lead, Some(a), c, 1)]
    ensures HistoryOk(trace[0].leads, map[lead := Some(a)]) && !HistoryOk(trace[6].leads, map[lead := Some(a)])
  {
    var begun := map[lead := Some(a)];
    var steps := [Begin(0), Begin(1), ReadStage(0, lead, b), ReadStage(1, lead, c), WriteMove(0), WriteMove(1)];
    var s := Leads(begun, [], 0);
    trace := OverlappingRun(s, lead, b, c, Schedule(begun, stages, steps));
    TwoMoves(trace[6].leads, lead, begun, trace[6].leads.history[0], trace[6].leads.history[1]);
  }

  lemma OverlappingRun(s: Leads, lead: nat, b: nat, c: nat, sch: Schedule) returns (trace: seq<Moves>)
    requires sch.first == s.current && s.now == 0 && lead in s.current && b < sch.stages && c < sch.stages
    requires sch.steps == [Begin(0), Begin(1), ReadStage(0, lead, b), ReadStage(1, lead, c), WriteMove(0), WriteMove(1)]
    ensures Run(sch, trace) && trace[0].leads == s
    ensures var at := s.current[lead]; trace[6].leads == Moved(Moved(s.(now := 4), lead, at, b, 0), lead, at, c, 1)
  {
    var at := s.current[lead];
    var first, second := Read(0, lead, at, b), Read(1, lead, at, c);
    var half := Moved(s.(now := 4), lead, at, b, 0);
    trace := [Moves(s, map[]), Moves(s.(now := 1), map[0 := Begun(0)]),
              Moves(s.(now := 2), map[0 := Begun(0), 1 := Begun(1)]),
              Moves(s.(now := 3), map[0 := first, 1 := Begun(1)]),
              Moves(s.(now := 4), map[0 := first, 1 := second]), Moves(half, map[1 := second]),
              Moves(Moved(half, lead, at, c, 1), map[])];
    assert trace[4].open - {0} == trace[5].open && trace[5].open - {1} == trace[6].open;
    assert Goes(sch, trace, 0) && Goes(sch, trace, 1) && Goes(sch, trace, 2);
    assert Goes(sch, trace, 3) && Goes(sch, trace, 4) && Goes(sch, trace, 5);
  }

  /**
   * Two moves, each right as written: the one that began first but read and
   * wrote last is listed before the one it follows.
   */
  lemma LateMove(lead: nat, a: nat, b: nat, c: nat, stages: nat) returns (trace: seq<Moves>)
    requires a < stages && b < stages && c < stages && a != b
    ensures var steps := [Begin(0), Begin(1), ReadStage(1, lead, b), WriteMove(1), ReadStage(0, lead, c), WriteMove(0)];
            Run(Schedule(map[lead := Some(a)], stages, steps), trace)
    ensures Listed(MovesOf(trace[6].leads.history, lead)) == [Move(lead, Some(b), c, 0), Move(lead, Some(a), b, 1)]
    ensures var begun := map[lead := Some(a)];
            HistoryOk(trace[0].leads, begun) && WrittenOk(trace[6].leads, begun) && !HistoryOk(trace[6].leads, begun)
  {
    var begun := map[lead := Some(a)];
    var steps := [Begin(0), Begin(1), ReadStage(1, lead, b), WriteMove(1), ReadStage(0, lead, c), WriteMove(0)];
    var s := Leads(begun, [], 0);
    trace := LateRun(s, lead, b, c, Schedule(begun, stages, steps));
    TwoMoves(trace[6].leads, lead, begun, trace[6].leads.history[0], trace[6].leads.history[1]);
  }

  lemma LateRun(s: Leads, lead: nat, b: nat, c: nat, sch: Schedule) returns (trace: seq<Moves>)
    requires sch.first == s.current && s.now == 0 && lead in s.current && b < sch.stages && c < sch.stages
    requires sch.steps == [Begin(0), Begin(1), ReadStage(1, lead, b), WriteMove(1), ReadStage(0, lead, c), WriteMove(0)]
    ensures Run(sch, trace) && trace[0].leads == s
    ensures var half := Moved(s.(now := 3), lead, s.current[lead], b, 1);
            trace[6].leads == Moved(half.(now := 5), lead, Some(b), c, 0)
  {
    var first, second := Read(0, lead, Some(b), c), Read(1, lead, s.current[lead], b);
    var half := Moved(s.(now := 3), lead, s.current[lead], b, 1);
    trace := [Moves(s, map[]), Moves(s.(now := 1), map[0 := Begun(0)]),
              Moves(s.(now := 2), map[0 := Begun(0), 1 := Begun(1)]),
              Moves(s.(now := 3), map[0 := Begun(0), 1 := second]),
              Moves(half, map[0 := Begun(0)]), Moves(half.(now := 5), map[0 := first]),
              Moves(Moved(half.(now := 5), lead, Some(b), c, 0), map[])];
    assert trace[3].open - {1} == trace[4].open && trace[5].open - {0} == trace[6].open;
    assert Goes(sch, trace, 0) && Goes(sch, trace, 1) && Goes(sch, trace, 2);
    assert Goes(sch, trace, 3) && Goes(sch, trace, 4) && Goes(sch, trace, 5);
  }

  /** The order of two moves of the only lead, and when they are a chain. */
  lemma TwoMoves(s: Leads, lead: nat, begun: map<nat, Option<nat>>, m: Move, n: Move)
    requires m.lead == lead == n.lead && s.history == [m, n] && m.at < s.now && n.at < s.now
    requires begun.Keys == s.current.Keys == {lead}
    ensures Listed(MovesOf(s.history, lead)) == if n.at < m.at then [n, m] else [m, n]
    ensures HistoryOk(s, begun) <==> if n.at < m.at then ChainOf(n, m, begun[lead], s.current[lead])
                                     else ChainOf(m, n, begun[lead], s.current[lead])
    ensures WrittenOk(s, begun) <==> ChainOf(m, n, begun[lead], s.current[lead])
  {
    MovesOfAppend([], m, lead);
    MovesOfAppend([m], n, lead);
    ListedAppend([], m);
    ListedAppend([m], n);
    assert [] + [m] == [m] && [m] + [n] == [m, n] && [n] + [m] == [n, m];
    TwoChained(m, n, begun[lead], s.current[lead]);
    TwoChained(n, m, begun[lead], s.current[lead]);
    assert HistoryOk(s, begun) <==> ListOk(s, lead, begun[lead]);
    assert WrittenOk(s, begun) <==> WritingOk(s, lead, begun[lead]);
  }

  predicate ChainOf(m: Move, n: Move, start: Option<nat>, current: Option<nat>) {
    m.from == start && n.from == Some(m.to) && current == Some(n.to)
  }

  lemma TwoChained(m: Move, n: Move, start: Option<nat>, current: Option<nat>)
    ensures Chain([m, n], start, current) <==> ChainOf(m, n, start, current)
  {
    assert [m, n][1..] == [n] && [n][1..] == [];
    assert Chain([n], Some(m.to), current) <==> n.from == Some(m.to) && current == Some(n.to);
  }
}
