/**
 * Outbound webhook deliveries (lib/webhooks/outboundWebhookSender.ts). Times
 * are milliseconds; a delivery is named by its position in the table.
 */
module Webhooks {
  import opened Common

  datatype Status = Pending | Processing | Delivered | Exhausted
  datatype Delivery = Delivery(subscription: nat, status: Status, attempts: nat, maxAttempts: int, nextAt: int,
                               lastStatus: Option<int>, lastError: Option<Failure>)
  /** What the target did: an HTTP status, or an exception thrown by fetch. */
  datatype Answer = Responded(status: int) | FetchThrew(message: string)
  datatype Failure = TargetResponded(status: int) | FetchError(message: string)
  datatype Outcome = WasDelivered | Retrying | WasExhausted
  datatype Result = Result(id: nat, outcome: Outcome, statusCode: Option<int>, error: Option<Failure>)
  datatype Subscription = Subscription(id: nat, eventType: string, enabled: bool)

  const BACKOFF: seq<int> := [0, 30_000, 120_000, 600_000, 3_600_000, 21_600_000]

  function NewDelivery(subscription: nat, now: int): Delivery {
    Delivery(subscription, Pending, 0, |BACKOFF|, now, None, None)
  }

  predicate Due(d: Delivery, now: int) { d.status == Pending && d.nextAt <= now }

  predicate Ended(d: Delivery) { d.status == Delivered || d.status == Exhausted }

  function Claimed(d: Delivery): Delivery { d.(status := Processing) }

  predicate IsOk(a: Answer) { a.Responded? && 200 <= a.status <= 299 }

  function StatusOf(a: Answer): Option<int> { if a.Responded? then Some(a.status) else None }

  function ErrorOf(a: Answer): Failure {
    if a.Responded? then TargetResponded(a.status) else FetchError(a.message)
  }

  function DelayAfter(attempt: nat): int { BACKOFF[Min(attempt, |BACKOFF| - 1)] }

  /** The row after an attempt made from the counters the sweep claimed it with. */
  function Attempted(d: Delivery, attempts: nat, maxAttempts: int, a: Answer, now: int): Delivery {
    if IsOk(a) then d.(status := Delivered, attempts := attempts + 1, lastStatus := StatusOf(a))
    else if attempts + 1 >= maxAttempts
    then d.(status := Exhausted, attempts := attempts + 1, lastStatus := StatusOf(a), lastError := Some(ErrorOf(a)))
    else d.(status := Pending, attempts := attempts + 1, nextAt := now + DelayAfter(attempts + 1),
            lastStatus := StatusOf(a), lastError := Some(ErrorOf(a)))
  }

  function OutcomeOf(d: Delivery, a: Answer): Outcome {
    if IsOk(a) then WasDelivered else if d.attempts + 1 >= d.maxAttempts then WasExhausted else Retrying
  }

  function ResultOf(d: Delivery, id: nat, a: Answer): (r: Result)
    ensures r.id == id
  {
    Result(id, OutcomeOf(d, a), StatusOf(a), if IsOk(a) then None else Some(ErrorOf(a)))
  }

  /** One attempt on the row `was`, made from the row as it was claimed: the row it leaves and the result it reports. */
  predicate Recorded(was: Delivery, claimed: Delivery, id: nat, a: Answer, at: int, row: Delivery, result: Result) {
    row == Attempted(was, claimed.attempts, claimed.maxAttempts, a, at) && result == ResultOf(claimed, id, a)
  }

  // ---- One process --------------------------------------------------------

  class WebhookSender {
    var subscriptions: seq<Subscription>
    var deliveries: seq<Delivery>

    constructor (subs: seq<Subscription>)
      ensures subscriptions == subs && deliveries == []
    {
      subscriptions, deliveries := subs, [];
    }

    method EnqueueOutboundWebhook(eventType: string, now: int) returns (ids: seq<nat>)
      modifies this
      ensures subscriptions == old(subscriptions)
      ensures deliveries == old(deliveries) + NewDeliveries(subscriptions, eventType, now)
      ensures |ids| == |NewDeliveries(subscriptions, eventType, now)|
      ensures forall k :: 0 <= k < |ids| ==> ids[k] == |old(deliveries)| + k
    {
      ids := [];
      for i := 0 to |subscriptions|
        invariant subscriptions == old(subscriptions)
        invariant deliveries == old(deliveries) + NewDeliveries(subscriptions[..i], eventType, now)
        invariant |ids| == |NewDeliveries(subscriptions[..i], eventType, now)|
        invariant forall k :: 0 <= k < |ids| ==> ids[k] == |old(deliveries)| + k
      {
        var sub := subscriptions[i];
        NewDeliveriesExtend(subscriptions, i, eventType, now);
        if sub.eventType == eventType && sub.enabled {
          ids := ids + [|deliveries|];
          deliveries := deliveries + [NewDelivery(sub.id, now)];
        }
      }
      assert subscriptions[..|subscriptions|] == subscriptions;
    }

    /**
     * One sweep; `answers` is what the target of each delivery would do. The
     * claim is made at clock(0), the k-th attempt is recorded at clock(k + 1).
     */
    method ProcessDueOutboundWebhooks(limit: nat, clock: nat -> int, answers: nat -> Answer)
      returns (results: seq<Result>)
      modifies this`deliveries
      ensures |deliveries| == |old(deliveries)|
      ensures |results| <= limit
      ensures forall k :: 0 <= k < |results| ==>
        var id := results[k].id;
        && id < |deliveries| && Due(old(deliveries)[id], clock(0))
        && var was := old(deliveries)[id];
        Recorded(was, was, id, answers(id), clock(k + 1), deliveries[id], results[k])
      ensures forall j, k :: 0 <= j < k < |results| ==> results[j].id != results[k].id
      ensures forall i :: 0 <= i < |deliveries| && (forall k :: 0 <= k < |results| ==> results[k].id != i) ==>
        deliveries[i] == old(deliveries)[i] && (Due(deliveries[i], clock(0)) ==> |results| == limit)
    {
      hide Attempted, ResultOf;
      var due := ClaimDue(limit, clock(0));
      results := [];
      for k := 0 to |due|
        invariant |deliveries| == |old(deliveries)| && |results| == k
        invariant forall j :: 0 <= j < k ==>
          var was := old(deliveries)[due[j]];
          Recorded(was, was, due[j], answers(due[j]), clock(j + 1), deliveries[due[j]], results[j])
        invariant forall j :: k <= j < |due| ==> deliveries[due[j]] == Claimed(old(deliveries)[due[j]])
        invariant forall i: nat :: i < |deliveries| && i !in due ==> deliveries[i] == old(deliveries)[i]
      {
        assert due[k] in due && forall j :: 0 <= j < |due| && j != k ==> due[j] != due[k];
        ClaimForgotten(old(deliveries)[due[k]], due[k], answers(due[k]), clock(k + 1));
        var result := AttemptDelivery(due[k], deliveries[due[k]], answers(due[k]), clock(k + 1));
        results := results + [result];
      }
      assert forall k :: 0 <= k < |due| ==> results[k].id == due[k];
    }

    /** The claiming transaction: at most `limit` due rows, marked before anything is sent. */
    method ClaimDue(limit: nat, now: int) returns (due: seq<nat>)
      modifies this`deliveries
      ensures |deliveries| == |old(deliveries)| && |due| <= limit && Distinct(due)
      ensures forall k :: 0 <= k < |due| ==> due[k] < |deliveries| && Due(old(deliveries)[due[k]], now)
      ensures forall i: nat :: i < |deliveries| ==>
        deliveries[i] == if i in due then Claimed(old(deliveries)[i]) else old(deliveries)[i]
      ensures forall i: nat :: i < |deliveries| && i !in due && Due(old(deliveries)[i], now) ==>
        |due| == limit && forall k :: 0 <= k < |due| ==> old(deliveries)[due[k]].nextAt <= deliveries[i].nextAt
    {
      due := [];
      while |due| < limit
        invariant |deliveries| == |old(deliveries)| && |due| <= limit && Distinct(due)
        invariant forall k :: 0 <= k < |due| ==> due[k] < |deliveries| && Due(old(deliveries)[due[k]], now)
        invariant forall i: nat :: i < |deliveries| ==>
          deliveries[i] == if i in due then Claimed(old(deliveries)[i]) else old(deliveries)[i]
        invariant forall i: nat, k ::
          i < |deliveries| && i !in due && Due(old(deliveries)[i], now) && 0 <= k < |due| ==>
          old(deliveries)[due[k]].nextAt <= old(deliveries)[i].nextAt
        decreases limit - |due|
      {
        var next := EarliestDue(now);
        if next.None? {
          assert forall i: nat :: i < |deliveries| && i !in due ==> !Due(old(deliveries)[i], now);
          return;
        }
        assert next.value !in due;
        due := due + [next.value];
        deliveries := deliveries[next.value := Claimed(deliveries[next.value])];
      }
    }

    method EarliestDue(now: int) returns (best: Option<nat>)
      ensures best.None? ==> forall i :: 0 <= i < |deliveries| ==> !Due(deliveries[i], now)
      ensures best.Some? ==> best.value < |deliveries| && Due(deliveries[best.value], now)
      ensures best.Some? ==>
        forall i :: 0 <= i < |deliveries| && Due(deliveries[i], now) ==>
            deliveries[best.value].nextAt <= deliveries[i].nextAt
    {
      best := None;
      for i := 0 to |deliveries|
        invariant best.None? ==> forall k :: 0 <= k < i ==> !Due(deliveries[k], now)
        invariant best.Some? ==> best.value < i && Due(deliveries[best.value], now)
        invariant best.Some? ==>
          forall k :: 0 <= k < i && Due(deliveries[k], now) ==> deliveries[best.value].nextAt <= deliveries[k].nextAt
      {
        if Due(deliveries[i], now) && (best.None? || deliveries[i].nextAt < deliveries[best.value].nextAt) {
          best := Some(i);
        }
      }
    }

    method AttemptDelivery(id: nat, claimed: Delivery, a: Answer, now: int) returns (result: Result)
      requires id < |deliveries|
      modifies this`deliveries
      ensures |deliveries| == |old(deliveries)| && deliveries == old(deliveries)[id := deliveries[id]]
      ensures Recorded(old(deliveries)[id], claimed, id, a, now, deliveries[id], result)
    {
      var attemptNumber := claimed.attempts + 1;
      var row := deliveries[id];
      if a.Responded? && 200 <= a.status <= 299 {
        row := row.(status := Delivered, attempts := attemptNumber, lastStatus := Some(a.status));
        deliveries := deliveries[id := row];
        return Result(id, WasDelivered, Some(a.status), None);
      }
      var error := if a.Responded? then TargetResponded(a.status) else FetchError(a.message);
      if attemptNumber >= claimed.maxAttempts {
        deliveries := deliveries[id := row.(status := Exhausted, attempts := attemptNumber, lastStatus := StatusOf(a),
                                            lastError := Some(error))];
        return Result(id, WasExhausted, StatusOf(a), Some(error));
      }
      var delay := BACKOFF[Min(attemptNumber, |BACKOFF| - 1)];
      deliveries := deliveries[id := row.(status := Pending, attempts := attemptNumber, nextAt := now + delay,
                                          lastStatus := StatusOf(a), lastError := Some(error))];
      return Result(id, Retrying, StatusOf(a), Some(error));
    }
  }

  /** That the row was claimed makes no difference to what an attempt leaves of it. */
  lemma ClaimForgotten(d: Delivery, id: nat, a: Answer, now: int)
    ensures Attempted(Claimed(d), d.attempts, d.maxAttempts, a, now)
         == Attempted(d, d.attempts, d.maxAttempts, a, now)
    ensures ResultOf(Claimed(d), id, a) == ResultOf(d, id, a)
  {
  }

  function NewDeliveries(subs: seq<Subscription>, eventType: string, now: int): seq<Delivery> {
    if subs == [] then []
    else
      var sub := subs[|subs| - 1];
      NewDeliveries(subs[..|subs| - 1], eventType, now)
      + if sub.eventType == eventType && sub.enabled then [NewDelivery(sub.id, now)] else []
  }

  lemma NewDeliveriesExtend(subs: seq<Subscription>, i: nat, eventType: string, now: int)
    requires i < |subs|
    ensures NewDeliveries(subs[..i + 1], eventType, now)
         == NewDeliveries(subs[..i], eventType, now)
            + if subs[i].eventType == eventType && subs[i].enabled then [NewDelivery(subs[i].id, now)] else []
  {
    assert subs[..i + 1][..i] == subs[..i];
  }

  // ---- What becomes of a delivery -----------------------------------------

  /** `picks` are, in table order, the enabled subscriptions to the event. */
  ghost predicate Matching(subs: seq<Subscription>, eventType: string, picks: seq<nat>) {
    && (forall j, k :: 0 <= j < k < |picks| ==> picks[j] < picks[k])
    && (forall i: nat :: i in picks <==> i < |subs| && subs[i].eventType == eventType && subs[i].enabled)
  }

  lemma MatchingExtends(subs: seq<Subscription>, eventType: string, picks: seq<nat>)
    requires subs != [] && Matching(subs[..|subs| - 1], eventType, picks)
    ensures var n := |subs| - 1;
            Matching(subs, eventType, if subs[n].eventType == eventType && subs[n].enabled then picks + [n] else picks)
  {
    var n := |subs| - 1;
    forall k | 0 <= k < |picks| ensures picks[k] < n { assert picks[k] in picks; }
    assert forall i :: 0 <= i < n ==> subs[..n][i] == subs[i];
  }

  lemma {:induction false} RowsPicked(subs: seq<Subscription>, eventType: string, now: int) returns (picks: seq<nat>)
    ensures Matching(subs, eventType, picks) && |picks| == |NewDeliveries(subs, eventType, now)|
    ensures forall k :: 0 <= k < |picks| ==>
              picks[k] < |subs| && NewDeliveries(subs, eventType, now)[k] == NewDelivery(subs[picks[k]].id, now)
  {
    hide NewDelivery;
    picks := [];
    if subs != [] {
      var n := |subs| - 1;
      picks := RowsPicked(subs[..n], eventType, now);
      MatchingExtends(subs, eventType, picks);
      hide Matching;
      if subs[n].eventType == eventType && subs[n].enabled { picks := picks + [n]; }
    }
  }

  /** Each of them gets one row: pending, unsent, with six attempts and due at once. */
  lemma OneRowEach(subs: seq<Subscription>, eventType: string, now: int) returns (picks: seq<nat>)
    ensures Matching(subs, eventType, picks) && |picks| == |NewDeliveries(subs, eventType, now)|
    ensures forall k :: 0 <= k < |picks| ==>
              && picks[k] < |subs|
              && var row := NewDeliveries(subs, eventType, now)[k];
              row == Delivery(subs[picks[k]].id, Pending, 0, 6, now, None, None) && Due(row, now)
  {
    picks := RowsPicked(subs, eventType, now);
  }

  /**
   * The answer decides: delivered on a status of 200 to 299, exhausted if that
   * was the last attempt allowed, and otherwise pending and due again exactly
   * from the next backoff on.
   */
  lemma AnswerDecides(was: Delivery, claimed: Delivery, id: nat, a: Answer, now: int, row: Delivery, result: Result,
                      later: int)
    requires Recorded(was, claimed, id, a, now, row, result)
    ensures
      var ok := a.Responded? && 200 <= a.status <= 299;
      var n := claimed.attempts + 1;
      var delay := if n == 1 then 30_000 else if n == 2 then 120_000 else if n == 3 then 600_000
                   else if n == 4 then 3_600_000 else 21_600_000;
      && (row.status == Delivered <==> ok) && (result.outcome == WasDelivered <==> ok)
      && (row.status == Exhausted <==> !ok && n >= claimed.maxAttempts)
      && (result.outcome == WasExhausted <==> !ok && n >= claimed.maxAttempts)
      && (row.status == Pending <==> !ok && n < claimed.maxAttempts)
      && (result.outcome == Retrying <==> !ok && n < claimed.maxAttempts)
      && row.nextAt == (if row.status == Pending then now + delay else was.nextAt)
      && (Due(row, later) <==> !ok && n < claimed.maxAttempts && now + delay <= later)
  {
  }

  /** The row counts the attempt and keeps the status and the error of its last answer; a success clears no error. */
  lemma AnswerIsKept(was: Delivery, claimed: Delivery, id: nat, a: Answer, now: int, row: Delivery, result: Result)
    requires Recorded(was, claimed, id, a, now, row, result)
    ensures row.subscription == was.subscription && row.maxAttempts == was.maxAttempts
    ensures row.attempts == claimed.attempts + 1
    ensures a.Responded? ==> row.lastStatus == Some(a.status)
    ensures a.FetchThrew? ==> row.lastStatus == None
    ensures row.status == Delivered ==> row.lastError == was.lastError && result.error.None?
    ensures row.status != Delivered ==>
              row.lastError == result.error
              == Some(if a.Responded? then TargetResponded(a.status) else FetchError(a.message))
    ensures result.id == id && result.statusCode == row.lastStatus
  {
  }
}
