/**
 * Provider failover, implemented twice: lib/providers/failover.ts and
 * voice_gateway/providers/failover.py. What a provider does is an input; the
 * candidates are the rows in the order of the ranking query.
 */
module Failover {
  import opened Common

  /** `limit` is the timeout as written in the message; `identifier` the unregistered adapter class. */
  datatype Behaviour =
    Answers(result: int) | Throws(message: string) | TimesOut(limit: string) | NoAdapter(identifier: string)
  datatype Candidate = Candidate(key: string, isDefault: bool, priority: int, behaviour: Behaviour)
  datatype Event = Event(from: string, to: string, reason: string)
  datatype Failure = Failure(key: string, reason: string)
  datatype Outcome =
    | Answered(result: int, key: string)
    | NoProviders
    | AllFailed(failures: seq<Failure>)
    | Crashed  // no candidate was attempted: the last failure is read from an empty list

  function TsReason(c: Candidate): string {
    match c.behaviour
    case Answers(_) => ""
    case Throws(m) => "exception: " + m
    case TimesOut(limit) => "exception: timeout after " + limit + "ms"
    case NoAdapter(id) => "exception: No adapter registered for identifier \"" + id + "\""
  }

  function PyReason(c: Candidate): string {
    match c.behaviour
    case Answers(_) => ""
    case Throws(m) => "exception: " + m
    case TimesOut(limit) => "timeout after " + limit + "s"
    case NoAdapter(id) => "exception: No adapter registered for identifier \"" + id + "\""
  }

  /** `xs.slice(0, n)` and `xs[:n]`: a negative bound counts from the end. */
  function Slice<T>(xs: seq<T>, n: int): seq<T> {
    if n >= 0 then xs[..Min(n, |xs|)] else xs[..Max(0, |xs| + n)]
  }

  /** The position of the first candidate that answers, or the length. */
  function FirstAnswer(cs: seq<Candidate>): (f: nat)
    ensures f <= |cs| && (f < |cs| ==> cs[f].behaviour.Answers?)
    ensures forall k :: 0 <= k < f ==> !cs[k].behaviour.Answers?
  {
    if cs == [] || cs[0].behaviour.Answers? then 0 else 1 + FirstAnswer(cs[1..])
  }

  /** One event for each of the first `n` steps down the list. */
  function Hops(cs: seq<Candidate>, n: nat, reason: Candidate -> string): seq<Event>
    requires n == 0 || n < |cs|
  {
    seq(n, k requires 0 <= k < n => Event(cs[k].key, cs[k + 1].key, reason(cs[k])))
  }

  function Failures(cs: seq<Candidate>, reason: Candidate -> string): seq<Failure> {
    seq(|cs|, k requires 0 <= k < |cs| => Failure(cs[k].key, reason(cs[k])))
  }

  lemma HopsExtend(cs: seq<Candidate>, n: nat, reason: Candidate -> string)
    requires n + 1 < |cs|
    ensures Hops(cs, n + 1, reason) == Hops(cs, n, reason) + [Event(cs[n].key, cs[n + 1].key, reason(cs[n]))]
  {
  }

  lemma FailuresExtend(cs: seq<Candidate>, n: nat, reason: Candidate -> string)
    requires n < |cs|
    ensures Failures(cs[..n + 1], reason) == Failures(cs[..n], reason) + [Failure(cs[n].key, reason(cs[n]))]
  {
  }

  /** How many hops are logged after `i` of `n` failures: the last failure has nowhere to go. */
  function HopsAfter(i: nat, n: nat): (hops: nat)
    requires i <= n
    ensures hops == 0 || hops < n
  {
    if i < n || i == 0 then i else i - 1
  }

  /** What a failover run returns and logs, for a given wording of the reasons. */
  function Failover(candidates: seq<Candidate>, maxAttempts: int, reason: Candidate -> string): (Outcome, seq<Event>) {
    var attempted := Slice(candidates, maxAttempts);
    var f := FirstAnswer(attempted);
    if candidates == [] then (NoProviders, [])
    else if attempted == [] then (Crashed, [])
    else if f < |attempted| then
      (Answered(attempted[f].behaviour.result, attempted[f].key), Hops(attempted, f, reason))
    else
      var last := attempted[|attempted| - 1];
      (AllFailed(Failures(attempted, reason)),
       Hops(attempted, |attempted| - 1, reason)
           + [Event(last.key, last.key, "all_providers_exhausted: " + reason(last))])
  }

  class FailoverLog {
    var events: seq<Event>

    constructor ()
      ensures events == []
    {
      events := [];
    }

    /** callWithFailover (TypeScript) */
    method CallWithFailoverTs(candidates: seq<Candidate>, maxAttempts: int) returns (outcome: Outcome)
      modifies this
      ensures var (o, logged) := Failover(candidates, maxAttempts, TsReason);
              outcome == o && events == old(events) + logged
    {
      if candidates == [] { return NoProviders; }
      var attempted := Slice(candidates, maxAttempts);
      var failures: seq<Failure> := [];
      for i := 0 to |attempted|
        invariant forall k :: 0 <= k < i ==> !attempted[k].behaviour.Answers?
        invariant failures == Failures(attempted[..i], TsReason)
        invariant events == old(events) + Hops(attempted, HopsAfter(i, |attempted|), TsReason)
      {
        var candidate := attempted[i];
        if candidate.behaviour.Answers? {
          AnsweredAt(candidates, maxAttempts, TsReason, i);
          return Answered(candidate.behaviour.result, candidate.key);
        }
        FailuresExtend(attempted, i, TsReason);
        failures := failures + [Failure(candidate.key, TsReason(candidate))];
        if i + 1 < |attempted| {
          HopsExtend(attempted, i, TsReason);
          Regroup(old(events), Hops(attempted, i, TsReason),
              [Event(candidate.key, attempted[i + 1].key, TsReason(candidate))]);
          events := events + [Event(candidate.key, attempted[i + 1].key, TsReason(candidate))];
        }
      }
      assert attempted[..|attempted|] == attempted;
      if failures == [] { return Crashed; }
      NoneAnswered(candidates, maxAttempts, TsReason);
      var last := failures[|failures| - 1];
      Regroup(old(events), Hops(attempted, |attempted| - 1, TsReason),
              [Event(last.key, last.key, "all_providers_exhausted: " + last.reason)]);
      events := events + [Event(last.key, last.key, "all_providers_exhausted: " + last.reason)];
      return AllFailed(failures);
    }

    /** call_with_failover (Python): the next hop is found by counting the attempts. */
    method CallWithFailoverPy(candidates: seq<Candidate>, maxAttempts: int) returns (outcome: Outcome)
      modifies this
      ensures var (o, logged) := Failover(candidates, maxAttempts, PyReason);
              outcome == o && events == old(events) + logged
    {
      if candidates == [] { return NoProviders; }
      ghost var cut := Slice(candidates, maxAttempts);
      var attempts: seq<Failure> := [];
      for i := 0 to |Slice(candidates, maxAttempts)|
        invariant forall k :: 0 <= k < i ==> !cut[k].behaviour.Answers?
        invariant attempts == Failures(cut[..i], PyReason)
        invariant events == old(events) + Hops(cut, HopsAfter(i, |cut|), PyReason)
      {
        var candidate := candidates[i];
        assert candidate == cut[i];
        if candidate.behaviour.Answers? {
          AnsweredAt(candidates, maxAttempts, PyReason, i);
          return Answered(candidate.behaviour.result, candidate.key);
        }
        var reason := PyReason(candidate);
        FailuresExtend(cut, i, PyReason);
        attempts := attempts + [Failure(candidate.key, reason)];
        if |attempts| < |Slice(candidates, maxAttempts)| {
          HopsExtend(cut, i, PyReason);
          Regroup(old(events), Hops(cut, i, PyReason), [Event(candidate.key, cut[i + 1].key, reason)]);
          events := events + [Event(candidate.key, candidates[|attempts|].key, reason)];
        }
      }
      assert cut[..|cut|] == cut;
      if attempts == [] { return Crashed; }
      NoneAnswered(candidates, maxAttempts, PyReason);
      var last := attempts[|attempts| - 1];
      Regroup(old(events), Hops(cut, |cut| - 1, PyReason),
              [Event(last.key, last.key, "all_providers_exhausted: " + last.reason)]);
      events := events + [Event(last.key, last.key, "all_providers_exhausted: " + last.reason)];
      return AllFailed(attempts);
    }
  }

  lemma {:induction false} FirstAnswerIs(cs: seq<Candidate>, f: nat)
    requires f <= |cs| && (f < |cs| ==> cs[f].behaviour.Answers?)
    requires forall k :: 0 <= k < f ==> !cs[k].behaviour.Answers?
    ensures FirstAnswer(cs) == f
  {
    if f > 0 { FirstAnswerIs(cs[1..], f - 1); }
  }

  lemma AnsweredAt(candidates: seq<Candidate>, maxAttempts: int, reason: Candidate -> string, i: nat)
    requires i < |Slice(candidates, maxAttempts)| && Slice(candidates, maxAttempts)[i].behaviour.Answers?
    requires forall k :: 0 <= k < i ==> !Slice(candidates, maxAttempts)[k].behaviour.Answers?
    ensures var c := Slice(candidates, maxAttempts)[i];
            Failover(candidates, maxAttempts, reason)
            == (Answered(c.behaviour.result, c.key), Hops(Slice(candidates, maxAttempts), i, reason))
  {
    FirstAnswerIs(Slice(candidates, maxAttempts), i);
  }

  lemma NoneAnswered(candidates: seq<Candidate>, maxAttempts: int, reason: Candidate -> string)
    requires Slice(candidates, maxAttempts) != []
    requires forall k :: 0 <= k < |Slice(candidates, maxAttempts)| ==>
             !Slice(candidates, maxAttempts)[k].behaviour.Answers?
    ensures var attempted := Slice(candidates, maxAttempts);
            var last := attempted[|attempted| - 1];
            Failover(candidates, maxAttempts, reason)
            == (AllFailed(Failures(attempted, reason)),
                Hops(attempted, |attempted| - 1, reason)
                + [Event(last.key, last.key, "all_providers_exhausted: " + reason(last))])
  {
    FirstAnswerIs(Slice(candidates, maxAttempts), |Slice(candidates, maxAttempts)|);
  }

  // ---- Theorems -----------------------------------------------------------

  /** An outcome without the wording of its reasons. */
  function Wordless(o: Outcome): Outcome {
    if o.AllFailed?
    then AllFailed(seq(|o.failures|, k requires 0 <= k < |o.failures| => Failure(o.failures[k].key, "")))
    else o
  }

  function HopsOf(events: seq<Event>): seq<(string, string)> {
    seq(|events|, k requires 0 <= k < |events| => (events[k].from, events[k].to))
  }

  /** The two implementations agree on the outcome and on every hop, whatever the wording. */
  lemma SameFailover(candidates: seq<Candidate>, maxAttempts: int, r1: Candidate -> string, r2: Candidate -> string)
    ensures var (o1, e1) := Failover(candidates, maxAttempts, r1);
            var (o2, e2) := Failover(candidates, maxAttempts, r2);
            Wordless(o1) == Wordless(o2) && HopsOf(e1) == HopsOf(e2)
  {
    var (o1, e1) := Failover(candidates, maxAttempts, r1);
    var (o2, e2) := Failover(candidates, maxAttempts, r2);
    assert |e1| == |e2|;
    forall k | 0 <= k < |e1| ensures HopsOf(e1)[k] == HopsOf(e2)[k] {}
    if o1.AllFailed? { assert Wordless(o1).failures == Wordless(o2).failures; }
  }

  /** Each event starts where the previous one ended. */
  ghost predicate Chain(events: seq<Event>) {
    forall k :: 0 < k < |events| ==> events[k].from == events[k - 1].to
  }

  ghost predicate RankedBefore(a: Candidate, b: Candidate) {
    (a.isDefault && !b.isDefault) || (a.isDefault == b.isDefault && a.priority < b.priority)
  }

  ghost predicate Ranked(cs: seq<Candidate>) {
    forall j, k :: 0 <= j < k < |cs| ==> !RankedBefore(cs[k], cs[j])
  }

  /**
   * An answer comes from the best-ranked of the attempted candidates that
   * answer, and the log leads from the top-ranked provider to it hop by hop.
   */
  lemma AnswerIsBest(candidates: seq<Candidate>, maxAttempts: int, reason: Candidate -> string)
    requires Ranked(candidates) && Failover(candidates, maxAttempts, reason).0.Answered?
    ensures var (o, events) := Failover(candidates, maxAttempts, reason);
            var f := FirstAnswer(Slice(candidates, maxAttempts));
            && f < |Slice(candidates, maxAttempts)| && o == Answered(candidates[f].behaviour.result, candidates[f].key)
            && (forall k :: 0 <= k < |Slice(candidates, maxAttempts)| && candidates[k].behaviour.Answers? ==>
                  f <= k && !RankedBefore(candidates[k], candidates[f]))
            && Chain(events) && |events| == f
            && (events == [] <==> f == 0)
            && (events != [] ==> events[0].from == candidates[0].key && events[|events| - 1].to == o.key)
  {
    SliceKeepsOrder(candidates, maxAttempts);
    HopsChain(Slice(candidates, maxAttempts), FirstAnswer(Slice(candidates, maxAttempts)), reason);
  }

  lemma SliceKeepsOrder(candidates: seq<Candidate>, maxAttempts: int)
    ensures |Slice(candidates, maxAttempts)| <= |candidates|
    ensures forall k :: 0 <= k < |Slice(candidates, maxAttempts)| ==> Slice(candidates, maxAttempts)[k] == candidates[k]
  {
  }

  lemma HopsChain(cs: seq<Candidate>, n: nat, reason: Candidate -> string)
    requires n == 0 || n < |cs|
    ensures Chain(Hops(cs, n, reason)) && |Hops(cs, n, reason)| == n
    ensures n > 0 ==> Hops(cs, n, reason)[0].from == cs[0].key && Hops(cs, n, reason)[n - 1].to == cs[n].key
  {
  }

  /** Giving up: every attempted candidate failed, in order, and the chain ends in a self-loop on the last one. */
  lemma GivingUp(candidates: seq<Candidate>, maxAttempts: int, reason: Candidate -> string)
    requires Failover(candidates, maxAttempts, reason).0.AllFailed?
    ensures var (o, events) := Failover(candidates, maxAttempts, reason);
            var attempted := Slice(candidates, maxAttempts);
            && |o.failures| == |attempted| == |events| > 0
            && (forall k :: 0 <= k < |attempted| ==>
                !attempted[k].behaviour.Answers? && o.failures[k].key == attempted[k].key)
            && Chain(events) && events[0].from == candidates[0].key
            && events[|events| - 1].from == events[|events| - 1].to == attempted[|attempted| - 1].key
  {
    var attempted := Slice(candidates, maxAttempts);
    var n := |attempted| - 1;
    SliceKeepsOrder(candidates, maxAttempts);
    HopsChain(attempted, n, reason);
    var hops, events := Hops(attempted, n, reason), Failover(candidates, maxAttempts, reason).1;
    assert |events| == n + 1 && events[n].from == attempted[n].key;
    assert forall k :: 0 <= k < n ==> events[k] == hops[k];
  }

  /** With at least one attempt allowed, the only ways out are an answer, no configuration, and giving up. */
  lemma CrashExactly(candidates: seq<Candidate>, maxAttempts: int, reason: Candidate -> string)
    ensures Failover(candidates, maxAttempts, reason).0.Crashed? <==>
            candidates != [] && (maxAttempts == 0 || maxAttempts <= -|candidates|)
  {
  }

  /**
   * The candidates that may be tried are the first `maxAttempts`, or all but
   * the last `-maxAttempts`; the first of them to answer is the outcome.
   */
  lemma AnsweredExactly(candidates: seq<Candidate>, maxAttempts: int, reason: Candidate -> string)
    ensures
      var o := Failover(candidates, maxAttempts, reason).0;
      var total := |candidates|;
      var n := if maxAttempts >= 0 then (if maxAttempts < total then maxAttempts else total)
               else if total + maxAttempts > 0 then total + maxAttempts else 0;
      && (o.NoProviders? <==> total == 0)
      && (o.Crashed? <==> total > 0 && n == 0)
      && (o.Answered? <==> exists k :: 0 <= k < n && candidates[k].behaviour.Answers?)
      && (o.AllFailed? <==> n > 0 && forall k :: 0 <= k < n ==> !candidates[k].behaviour.Answers?)
      && (forall k ::
            && 0 <= k < n && candidates[k].behaviour.Answers?
            && (forall j :: 0 <= j < k ==> !candidates[j].behaviour.Answers?) ==>
            o == Answered(candidates[k].behaviour.result, candidates[k].key)
            && |Failover(candidates, maxAttempts, reason).1| == k)
      && (n == 0 ==> Failover(candidates, maxAttempts, reason).1 == [])
  {
    var attempted := Slice(candidates, maxAttempts);
    SliceKeepsOrder(candidates, maxAttempts);
    forall k | 0 <= k < |attempted| && attempted[k].behaviour.Answers?
               && (forall j :: 0 <= j < k ==> !attempted[j].behaviour.Answers?)
      ensures FirstAnswer(attempted) == k
    {
      FirstAnswerIs(attempted, k);
    }
  }

  /** The event of moving on from `a`, for its own reason, to `b`. */
  ghost predicate MovesOn(e: Event, a: Candidate, b: Candidate, reason: Candidate -> string) {
    e.from == a.key && e.to == b.key && e.reason == reason(a)
  }

  /** Before an answer, every failed attempt logs one event: its own reason, and on to the next candidate. */
  lemma HopsToAnswer(candidates: seq<Candidate>, maxAttempts: int, reason: Candidate -> string)
    requires Failover(candidates, maxAttempts, reason).0.Answered?
    ensures var events := Failover(candidates, maxAttempts, reason).1;
            && |events| < |candidates|
            && forall k :: 0 <= k < |events| ==> MovesOn(events[k], candidates[k], candidates[k + 1], reason)
  {
    SliceKeepsOrder(candidates, maxAttempts);
  }

  /** When all fail, each is reported with its key and reason; the last one tried has only itself to go to. */
  lemma ReportsEveryFailure(candidates: seq<Candidate>, maxAttempts: int, reason: Candidate -> string)
    requires Failover(candidates, maxAttempts, reason).0.AllFailed?
    ensures
      var (o, events) := Failover(candidates, maxAttempts, reason);
      var total := |candidates|;
      var n := if maxAttempts < 0 then total + maxAttempts else if maxAttempts < total then maxAttempts else total;
      && 0 < n <= total && |o.failures| == |events| == n
      && (forall k :: 0 <= k < n ==> o.failures[k] == Failure(candidates[k].key, reason(candidates[k])))
      && (forall k :: 0 <= k < n - 1 ==> MovesOn(events[k], candidates[k], candidates[k + 1], reason))
      && var last := candidates[n - 1];
      events[n - 1] == Event(last.key, last.key, "all_providers_exhausted: " + reason(last))
  {
    var attempted, events := Slice(candidates, maxAttempts), Failover(candidates, maxAttempts, reason).1;
    var hops := Hops(attempted, |attempted| - 1, reason);
    SliceKeepsOrder(candidates, maxAttempts);
    assert forall k :: 0 <= k < |hops| ==> events[k] == hops[k];
  }

  /** The two implementations word the same failure alike unless it is a timeout. */
  lemma WordingsDifferExactly(c: Candidate)
    ensures TsReason(c) == PyReason(c) <==> !c.behaviour.TimesOut?
    ensures c.behaviour.Throws? ==> TsReason(c) == "exception: " + c.behaviour.message
    ensures c.behaviour.TimesOut? ==>
              && TsReason(c) == "exception: timeout after " + c.behaviour.limit + "ms"
              && PyReason(c) == "timeout after " + c.behaviour.limit + "s"
    ensures c.behaviour.NoAdapter? ==>
              TsReason(c) == "exception: No adapter registered for identifier \"" + c.behaviour.identifier + "\""
  {
    if c.behaviour.TimesOut? { assert TsReason(c)[0] != PyReason(c)[0]; }
  }
}
