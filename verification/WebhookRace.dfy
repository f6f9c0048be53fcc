/**
 * Concurrent webhook sweeps. A sweep claims a batch in one transaction, then
 * sends and records its deliveries one after another; a sweep may also die on
 * a delivery it cannot decrypt, leaving the rest of its batch claimed for ever.
 */
module WebhookRace {
  import opened Common
  import opened Webhooks

  /** A claimed row, with the counters read when it was claimed. */
  datatype Ticket = Ticket(id: nat, attempts: nat, maxAttempts: int)

  /** `sent` says whether the request for the head of the batch is out. */
  datatype Sweep = Sweep(todo: seq<Ticket>, sent: bool)

  /** History only: when each row was created, when it was sent, and who claimed it last. */
  datatype Log = Log(createdAt: int, sentAt: seq<int>, claimedBy: Option<nat>)

  datatype System = System(rows: seq<Delivery>, sweeps: seq<Sweep>, now: int, log: seq<Log>)

  // ---- Steps --------------------------------------------------------------

  function Tickets(rows: seq<Delivery>, ids: seq<nat>): seq<Ticket>
    requires forall k :: 0 <= k < |ids| ==> ids[k] < |rows|
  {
    seq(|ids|, k requires 0 <= k < |ids| => Ticket(ids[k], rows[ids[k]].attempts, rows[ids[k]].maxAttempts))
  }

  /** Any duplicate-free choice of due rows: the earliest `limit` unlocked ones are one of these. */
  ghost predicate Claim(s: System, s': System, w: nat, ids: seq<nat>)
    requires w < |s.sweeps|
  {
    && s.sweeps[w].todo == [] && Distinct(ids) && |s.log| == |s.rows|
    && (forall k :: 0 <= k < |ids| ==> ids[k] < |s.rows| && Due(s.rows[ids[k]], s.now))
    && s'.now == s.now && s'.sweeps == s.sweeps[w := Sweep(Tickets(s.rows, ids), false)]
    && |s'.rows| == |s.rows| && |s'.log| == |s.log|
    && (forall i: nat :: i < |s.rows| ==>
          && s'.rows[i] == (if i in ids then Claimed(s.rows[i]) else s.rows[i])
          && s'.log[i] == (if i in ids then s.log[i].(claimedBy := Some(w)) else s.log[i]))
  }

  ghost predicate Send(s: System, s': System, w: nat)
    requires w < |s.sweeps|
  {
    && s.sweeps[w].todo != [] && !s.sweeps[w].sent
    && var id := s.sweeps[w].todo[0].id;
    && id < |s.log|
    && s' == s.(sweeps := s.sweeps[w := s.sweeps[w].(sent := true)],
                log := s.log[id := s.log[id].(sentAt := s.log[id].sentAt + [s.now])])
  }

  ghost predicate Record(s: System, s': System, w: nat, a: Answer)
    requires w < |s.sweeps|
  {
    && s.sweeps[w].todo != [] && s.sweeps[w].sent
    && var t := s.sweeps[w].todo[0];
    && t.id < |s.rows|
    && s' == s.(sweeps := s.sweeps[w := Sweep(s.sweeps[w].todo[1..], false)],
                rows := s.rows[t.id := Attempted(s.rows[t.id], t.attempts, t.maxAttempts, a, s.now)])
  }

  ghost predicate Die(s: System, s': System, w: nat)
    requires w < |s.sweeps|
  {
    !s.sweeps[w].sent && s' == s.(sweeps := s.sweeps[w := Sweep([], false)])
  }

  ghost predicate SweepStep(s: System, s': System, w: nat)
    requires w < |s.sweeps|
  {
    || (exists ids :: Claim(s, s', w, ids))
    || Send(s, s', w)
    || (exists a :: Record(s, s', w, a))
    || Die(s, s', w)
  }

  ghost predicate OutsideStep(s: System, s': System) {
    || (s'.now >= s.now && s' == s.(now := s'.now))
    || (exists sub: nat ::
          s' == s.(rows := s.rows + [NewDelivery(sub, s.now)], log := s.log + [Log(s.now, [], None)]))
  }

  ghost predicate Step(s: System, s': System) {
    OutsideStep(s, s') || exists w :: 0 <= w < |s.sweeps| && SweepStep(s, s', w)
  }

  function Start(sweeps: nat, now: int): System {
    System([], seq(sweeps, _ => Sweep([], false)), now, [])
  }

  ghost predicate Execution(sweeps: nat, now: int, trace: seq<System>) {
    && trace != [] && trace[0] == Start(sweeps, now)
    && forall k :: 0 < k < |trace| ==> Step(trace[k - 1], trace[k])
  }

  // ---- The invariant ------------------------------------------------------

  /** The least time of request `n`: creation for the first, and for another the one before plus its backoff. */
  function Earliest(l: Log, n: nat): int
    requires n < |BACKOFF| && n <= |l.sentAt|
  {
    if n == 0 then l.createdAt else l.sentAt[n - 1] + BACKOFF[n]
  }

  ghost predicate RowOk(s: System, id: nat)
    requires id < |s.rows| && |s.log| == |s.rows|
  {
    var d, l := s.rows[id], s.log[id];
    && d.maxAttempts == |BACKOFF|
    && (!Ended(d) ==> d.attempts < |BACKOFF|)
    && (d.status == Exhausted ==> d.attempts == |BACKOFF|)
    && (d.status == Delivered ==> 1 <= d.attempts <= |BACKOFF|)
    && d.attempts <= |l.sentAt| <= |BACKOFF|
    && (d.status != Processing ==> |l.sentAt| == d.attempts)
    && (d.status == Pending ==> d.nextAt >= Earliest(l, d.attempts))
    && (d.status == Processing ==> s.now >= Earliest(l, d.attempts))
    && (forall k :: 0 <= k < |l.sentAt| ==> Earliest(l, k) <= l.sentAt[k] <= s.now)
  }

  ghost predicate SweepOk(s: System, w: nat)
    requires w < |s.sweeps| && |s.log| == |s.rows|
  {
    var p := s.sweeps[w];
    && (p.sent ==> p.todo != [])
    && (forall i, j :: 0 <= i < j < |p.todo| ==> p.todo[i].id != p.todo[j].id)
    && forall i :: 0 <= i < |p.todo| ==>
         && TicketOk(s, w, p.todo[i])
         && |s.log[p.todo[i].id].sentAt| == p.todo[i].attempts + (if i == 0 && p.sent then 1 else 0)
  }

  ghost predicate TicketOk(s: System, w: nat, t: Ticket)
    requires |s.log| == |s.rows|
  {
    && t.id < |s.rows|
    && s.rows[t.id].status == Processing && s.log[t.id].claimedBy == Some(w)
    && t.attempts == s.rows[t.id].attempts && t.maxAttempts == s.rows[t.id].maxAttempts
  }

  ghost predicate Inv(s: System) {
    && |s.log| == |s.rows|
    && (forall id :: 0 <= id < |s.rows| ==> RowOk(s, id))
    && (forall w :: 0 <= w < |s.sweeps| ==> SweepOk(s, w))
  }

  lemma ClaimKeepsInv(s: System, s': System, w: nat, ids: seq<nat>)
    requires Inv(s) && w < |s.sweeps| && Claim(s, s', w, ids)
    ensures Inv(s')
  {
    forall id | 0 <= id < |s'.rows| ensures RowOk(s', id) { assert RowOk(s, id); }
    forall v | 0 <= v < |s'.sweeps| ensures SweepOk(s', v) {
      assert SweepOk(s, v);
      if v == w {
        var todo := s'.sweeps[w].todo;
        forall i | 0 <= i < |todo|
          ensures TicketOk(s', w, todo[i]) && |s'.log[todo[i].id].sentAt| == todo[i].attempts
        {
          assert todo[i].id == ids[i] && ids[i] in ids && RowOk(s, ids[i]);
        }
      }
    }
  }

  lemma SendKeepsInv(s: System, s': System, w: nat)
    requires Inv(s) && w < |s.sweeps| && Send(s, s', w)
    ensures Inv(s')
  {
    assert SweepOk(s, w);
    var t := s.sweeps[w].todo[0];
    assert TicketOk(s, w, t);
    forall id | 0 <= id < |s'.rows| ensures RowOk(s', id) { assert RowOk(s, id); }
    forall v | 0 <= v < |s'.sweeps| ensures SweepOk(s', v) { OtherSweepKept(s, s', v, w, t.id); }
  }

  /** A step on a row claimed by `w` does not disturb another sweep's batch. */
  lemma OtherSweepKept(s: System, s': System, v: nat, w: nat, id: nat)
    requires Inv(s) && v < |s.sweeps| && w < |s.sweeps| && |s'.sweeps| == |s.sweeps|
    requires |s'.rows| == |s.rows| && |s'.log| == |s.log| && id < |s.rows| && s.log[id].claimedBy == Some(w)
    requires forall i :: 0 <= i < |s.rows| && i != id ==> s'.rows[i] == s.rows[i] && s'.log[i] == s.log[i]
    ensures v != w && s'.sweeps[v] == s.sweeps[v] ==> SweepOk(s', v)
    ensures SweepOk(s, v)
  {
    assert SweepOk(s, v);
    forall i | 0 <= i < |s.sweeps[v].todo| ensures TicketOk(s, v, s.sweeps[v].todo[i]) {}
  }

  lemma RecordKeepsInv(s: System, s': System, w: nat, a: Answer)
    requires Inv(s) && w < |s.sweeps| && Record(s, s', w, a)
    ensures Inv(s')
  {
    assert SweepOk(s, w);
    var todo := s.sweeps[w].todo;
    var t := todo[0];
    assert TicketOk(s, w, t) && RowOk(s, t.id);
    forall id | 0 <= id < |s'.rows| ensures RowOk(s', id) {
      assert RowOk(s, id);
      if id == t.id && s'.rows[id].status == Pending { NoClamp(t.attempts); }
    }
    forall v | 0 <= v < |s'.sweeps| ensures SweepOk(s', v) {
      OtherSweepKept(s, s', v, w, t.id);
      if v == w {
        forall i | 0 <= i < |todo| - 1
          ensures TicketOk(s', w, todo[1..][i]) && |s'.log[todo[1..][i].id].sentAt| == todo[1..][i].attempts
        {
          assert todo[1..][i] == todo[i + 1] && TicketOk(s, w, todo[i + 1]) && todo[i + 1].id != t.id;
        }
      }
    }
  }

  lemma NoClamp(attempts: nat)
    requires attempts + 1 < |BACKOFF|
    ensures DelayAfter(attempts + 1) == BACKOFF[attempts + 1]
  {
  }

  lemma SweepStepKeepsInv(s: System, s': System, w: nat)
    requires Inv(s) && w < |s.sweeps| && SweepStep(s, s', w)
    ensures Inv(s')
  {
    if ids :| Claim(s, s', w, ids) {
      ClaimKeepsInv(s, s', w, ids);
    } else if Send(s, s', w) {
      SendKeepsInv(s, s', w);
    } else if a :| Record(s, s', w, a) {
      RecordKeepsInv(s, s', w, a);
    } else {
      forall id | 0 <= id < |s'.rows| ensures RowOk(s', id) { assert RowOk(s, id); }
      forall v | 0 <= v < |s'.sweeps| ensures SweepOk(s', v) { assert SweepOk(s, v); }
    }
  }

  lemma OutsideStepKeepsInv(s: System, s': System)
    requires Inv(s) && OutsideStep(s, s')
    ensures Inv(s')
  {
    forall id | 0 <= id < |s'.rows| ensures RowOk(s', id) { if id < |s.rows| { assert RowOk(s, id); } }
    forall w | 0 <= w < |s'.sweeps| ensures SweepOk(s', w) {
      assert SweepOk(s, w);
      forall i | 0 <= i < |s.sweeps[w].todo| ensures TicketOk(s, w, s.sweeps[w].todo[i]) {}
    }
  }

  lemma {:induction false} EveryStateOk(sweeps: nat, now: int, trace: seq<System>, k: nat)
    requires Execution(sweeps, now, trace) && k < |trace|
    ensures Inv(trace[k])
  {
    if k > 0 {
      EveryStateOk(sweeps, now, trace, k - 1);
      var s, s' := trace[k - 1], trace[k];
      assert Step(s, s');
      if OutsideStep(s, s') {
        OutsideStepKeepsInv(s, s');
      } else {
        var w :| 0 <= w < |s.sweeps| && SweepStep(s, s', w);
        SweepStepKeepsInv(s, s', w);
      }
    }
  }

  // ---- What that means for the target -------------------------------------

  /** At most six requests per delivery, each no earlier than its backoff after the one before. */
  lemma AttemptsSpaced(sweeps: nat, now: int, trace: seq<System>, k: nat, id: nat)
    requires Execution(sweeps, now, trace) && k < |trace| && id < |trace[k].rows|
    ensures |trace[k].log| == |trace[k].rows|
    ensures var l := trace[k].log[id];
            && |l.sentAt| <= 6 && (l.sentAt != [] ==> l.sentAt[0] >= l.createdAt)
            && (forall n :: 0 < n < |l.sentAt| ==> l.sentAt[n] >= l.sentAt[n - 1] + BACKOFF[n])
  {
    EveryStateOk(sweeps, now, trace, k);
    assert RowOk(trace[k], id);
    var l := trace[k].log[id];
    forall n | 0 < n < |l.sentAt| ensures l.sentAt[n] >= l.sentAt[n - 1] + BACKOFF[n] {
      assert Earliest(l, n) <= l.sentAt[n];
    }
    if l.sentAt != [] { assert Earliest(l, 0) <= l.sentAt[0]; }
  }

  /** The backoff entries 1..n added up. */
  function Offset(n: nat): int
    requires n < |BACKOFF|
  {
    if n == 0 then 0 else Offset(n - 1) + BACKOFF[n]
  }

  /** So the last of six requests goes out no earlier than 7 hours 12.5 minutes after creation. */
  lemma {:induction false} AttemptsDelayed(sweeps: nat, now: int, trace: seq<System>, k: nat, id: nat, n: nat)
    requires Execution(sweeps, now, trace) && k < |trace| && id < |trace[k].rows|
    requires |trace[k].log| == |trace[k].rows| && n < |trace[k].log[id].sentAt|
    ensures n < 6 && trace[k].log[id].sentAt[n] >= trace[k].log[id].createdAt + Offset(n)
    ensures Offset(5) == 25_950_000
  {
    AttemptsSpaced(sweeps, now, trace, k, id);
    if n > 0 { AttemptsDelayed(sweeps, now, trace, k, id, n - 1); }
    assert Offset(2) == 150_000 && Offset(5) == Offset(2) + 25_800_000;
  }

  /** No two sweeps, and no two places of one batch, hold the same delivery. */
  lemma OneSweepAtATime(sweeps: nat, now: int, trace: seq<System>, k: nat, v: nat, i: nat, w: nat, j: nat)
    requires Execution(sweeps, now, trace) && k < |trace|
    requires v < |trace[k].sweeps| && w < |trace[k].sweeps|
    requires i < |trace[k].sweeps[v].todo| && j < |trace[k].sweeps[w].todo|
    requires trace[k].sweeps[v].todo[i].id == trace[k].sweeps[w].todo[j].id
    ensures v == w && i == j
  {
    EveryStateOk(sweeps, now, trace, k);
    var s := trace[k];
    assert SweepOk(s, v) && SweepOk(s, w);
    assert TicketOk(s, v, s.sweeps[v].todo[i]) && TicketOk(s, w, s.sweeps[w].todo[j]);
  }

  /** Delivered and exhausted rows never change, and no request is sent for them again. */
  lemma EndedStays(sweeps: nat, now: int, trace: seq<System>, k: nat, id: nat)
    requires Execution(sweeps, now, trace) && k + 1 < |trace| && id < |trace[k].rows| && Ended(trace[k].rows[id])
    ensures var s, s' := trace[k], trace[k + 1];
            id < |s'.rows| && s'.rows[id] == s.rows[id] && |s.log| == |s.rows| && |s'.log| == |s'.rows|
            && s'.log[id].sentAt == s.log[id].sentAt
  {
    EveryStateOk(sweeps, now, trace, k);
    EveryStateOk(sweeps, now, trace, k + 1);
    var s, s' := trace[k], trace[k + 1];
    assert Step(s, s');
    if !OutsideStep(s, s') {
      var w :| 0 <= w < |s.sweeps| && SweepStep(s, s', w);
      assert SweepOk(s, w);
      if s.sweeps[w].todo != [] { assert TicketOk(s, w, s.sweeps[w].todo[0]); }
      if ids :| Claim(s, s', w, ids) { assert id !in ids; }
    }
  }

  /** The clamp of the backoff index never decides a delay. */
  lemma ClampIdle(sweeps: nat, now: int, trace: seq<System>, k: nat, w: nat, a: Answer)
    requires Execution(sweeps, now, trace) && k < |trace| && w < |trace[k].sweeps|
    requires trace[k].sweeps[w].todo != []
    ensures var t := trace[k].sweeps[w].todo[0];
            && t.id < |trace[k].rows|
            && (Attempted(trace[k].rows[t.id], t.attempts, t.maxAttempts, a, trace[k].now).status == Pending ==>
                  Min(t.attempts + 1, |BACKOFF| - 1) == t.attempts + 1)
  {
    EveryStateOk(sweeps, now, trace, k);
    assert SweepOk(trace[k], w);
    var t := trace[k].sweeps[w].todo[0];
    assert TicketOk(trace[k], w, t) && RowOk(trace[k], t.id);
  }

  // ---- What counts as delivered -------------------------------------------

  /** This step records a success of the delivery. */
  ghost predicate Succeeds(s: System, s': System, id: nat) {
    exists w: nat, status: int ::
      w < |s.sweeps| && 200 <= status <= 299 && Record(s, s', w, Responded(status)) && s.sweeps[w].todo[0].id == id
  }

  /** A delivery becomes delivered in exactly the steps that record a status of 200 to 299 for it. */
  lemma DeliveredExactly(sweeps: nat, now: int, trace: seq<System>, k: nat, id: nat)
    requires Execution(sweeps, now, trace) && k + 1 < |trace| && id < |trace[k].rows|
    ensures id < |trace[k + 1].rows|
    ensures trace[k].rows[id].status != Delivered && trace[k + 1].rows[id].status == Delivered <==>
            Succeeds(trace[k], trace[k + 1], id)
  {
    EveryStateOk(sweeps, now, trace, k);
    var s, s' := trace[k], trace[k + 1];
    assert Step(s, s');
    if w: nat, status: int :|
        w < |s.sweeps| && 200 <= status <= 299 && Record(s, s', w, Responded(status)) && s.sweeps[w].todo[0].id == id {
      assert SweepOk(s, w) && TicketOk(s, w, s.sweeps[w].todo[0]);
    }
    if !OutsideStep(s, s') {
      var w :| 0 <= w < |s.sweeps| && SweepStep(s, s', w);
      if a :| Record(s, s', w, a) {
        if s.sweeps[w].todo[0].id == id && s'.rows[id].status == Delivered { assert a == Responded(a.status); }
      }
    }
  }

  /** What a row says of its last answer. */
  ghost predicate StatusOk(row: Delivery) {
    && (row.status == Delivered <==> row.lastStatus.Some? && 200 <= row.lastStatus.value <= 299)
    && (row.status != Delivered && row.attempts > 0 ==> row.lastError.Some?)
    && (row.attempts == 0 ==> row.lastStatus.None? && row.lastError.None?)
  }

  lemma AnswerKeepsStatusOk(row: Delivery, attempts: nat, maxAttempts: int, a: Answer, now: int)
    requires StatusOk(row)
    ensures StatusOk(Attempted(row, attempts, maxAttempts, a, now))
  {
  }

  lemma SweepStepKeepsStatusOk(s: System, s': System, w: nat, id: nat)
    requires w < |s.sweeps| && SweepStep(s, s', w) && id < |s'.rows|
    ensures id < |s.rows| && (StatusOk(s.rows[id]) ==> StatusOk(s'.rows[id]))
  {
    if a :| Record(s, s', w, a) {
      var t := s.sweeps[w].todo[0];
      if t.id == id && StatusOk(s.rows[id]) { AnswerKeepsStatusOk(s.rows[id], t.attempts, t.maxAttempts, a, s.now); }
    }
  }

  /** In every state a row is delivered just when its last answer was a status of 200 to 299. */
  lemma {:induction false} DeliveredByStatus(sweeps: nat, now: int, trace: seq<System>, k: nat, id: nat)
    requires Execution(sweeps, now, trace) && k < |trace| && id < |trace[k].rows|
    ensures StatusOk(trace[k].rows[id])
  {
    if k > 0 {
      var s, s' := trace[k - 1], trace[k];
      assert Step(s, s');
      if OutsideStep(s, s') {
        if id < |s.rows| { DeliveredByStatus(sweeps, now, trace, k - 1, id); }
      } else {
        var w :| 0 <= w < |s.sweeps| && SweepStep(s, s', w);
        hide SweepStep, StatusOk;
        SweepStepKeepsStatusOk(s, s', w, id);
        DeliveredByStatus(sweeps, now, trace, k - 1, id);
      }
    }
  }

  // ---- The bounds are attained --------------------------------------------

  function SendTimes(n: nat): (times: seq<int>)
    requires n <= |BACKOFF|
    ensures |times| == n && forall k :: 0 <= k < n ==> times[k] == Offset(k)
  {
    seq(n, k requires 0 <= k < n => Offset(k))
  }

  /** One delivery, created at time zero, after `n` attempts that all failed and none of which came late. */
  function Tried(n: nat): System
    requires n <= |BACKOFF|
  {
    var row := Delivery(0, if n == |BACKOFF| then Exhausted else Pending, n, |BACKOFF|,
                        Offset(Min(n, |BACKOFF| - 1)), if n == 0 then None else Some(500),
                        if n == 0 then None else Some(TargetResponded(500)));
    System([row], [Sweep([], false)], if n == 0 then 0 else Offset(n - 1),
           [Log(0, SendTimes(n), if n == 0 then None else Some(0))])
  }

  /** The clock reaches the row's time, a sweep claims it and sends it, and the target answers 500. */
  lemma OneMoreTry(n: nat) returns (states: seq<System>)
    requires n < |BACKOFF|
    ensures |states| == 4 && Step(Tried(n), states[0]) && states[3] == Tried(n + 1)
    ensures forall k :: 0 < k < 4 ==> Step(states[k - 1], states[k])
  {
    var s, now := Tried(n), Offset(n);
    var row := s.rows[0];
    var due := s.(now := now);
    var ticket := Ticket(0, n, |BACKOFF|);
    var claimed := due.(rows := [Claimed(row)], sweeps := [Sweep([ticket], false)],
                        log := [s.log[0].(claimedBy := Some(0))]);
    var sent := claimed.(sweeps := [Sweep([ticket], true)],
                         log := [claimed.log[0].(sentAt := s.log[0].sentAt + [now])]);
    var recorded := sent.(rows := [Attempted(Claimed(row), n, |BACKOFF|, Responded(500), now)],
                          sweeps := [Sweep([], false)]);
    assert OutsideStep(s, due);
    ClaimsIt(due, claimed, ticket);
    assert Send(claimed, sent, 0) by { assert claimed.log[0 := sent.log[0]] == sent.log; }
    assert SweepStep(claimed, sent, 0);
    assert Record(sent, recorded, 0, Responded(500)) by {
      assert sent.sweeps[0].todo[1..] == [] && sent.rows[0 := recorded.rows[0]] == recorded.rows;
    }
    assert SweepStep(sent, recorded, 0);
    assert s.log[0].sentAt + [now] == SendTimes(n + 1);
    states := [due, claimed, sent, recorded];
  }

  lemma ClaimsIt(s: System, s': System, ticket: Ticket)
    requires |s.rows| == |s.log| == |s.sweeps| == 1 && s.sweeps[0].todo == [] && Due(s.rows[0], s.now)
    requires ticket == Ticket(0, s.rows[0].attempts, s.rows[0].maxAttempts)
    requires s' == s.(rows := [Claimed(s.rows[0])], sweeps := [Sweep([ticket], false)],
                      log := [s.log[0].(claimedBy := Some(0))])
    ensures Step(s, s')
  {
    assert Tickets(s.rows, [0]) == [ticket];
    assert Claim(s, s', 0, [0]);
    assert SweepStep(s, s', 0);
  }

  lemma {:induction false} TriedReached(n: nat) returns (trace: seq<System>)
    requires n <= |BACKOFF|
    ensures Execution(1, 0, trace) && trace[|trace| - 1] == Tried(n)
  {
    if n == 0 {
      var start := Start(1, 0);
      assert SendTimes(0) == [];
      assert start.rows + [NewDelivery(0, 0)] == Tried(0).rows && start.log + [Log(0, [], None)] == Tried(0).log;
      assert start.sweeps == Tried(0).sweeps;
      assert OutsideStep(start, Tried(0));
      trace := [start, Tried(0)];
    } else {
      var before := TriedReached(n - 1);
      var states := OneMoreTry(n - 1);
      trace := before + states;
      assert forall k :: |before| < k < |trace| ==> trace[k] == states[k - |before|];
    }
  }

  /** Some run makes all six requests, each as early as its backoff allows, and then gives up. */
  lemma SixRequestsReach() returns (trace: seq<System>)
    ensures Execution(1, 0, trace)
    ensures var last := trace[|trace| - 1];
            && |last.rows| == |last.log| == 1 && last.rows[0].status == Exhausted
            && last.log[0] == Log(0, [0, 30_000, 150_000, 750_000, 4_350_000, 25_950_000], Some(0))
  {
    trace := TriedReached(6);
    assert Offset(0) == 0 && Offset(1) == 30_000 && Offset(2) == 150_000;
    assert Offset(3) == 750_000 && Offset(4) == 4_350_000 && Offset(5) == 25_950_000;
    assert SendTimes(6) == [0, 30_000, 150_000, 750_000, 4_350_000, 25_950_000];
  }
}
