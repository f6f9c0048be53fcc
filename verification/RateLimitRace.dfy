/**
 * Checks of the rate limiter that overlap. Its three statements commit one by
 * one, so several checks may count the same hits before any of them inserts its
 * own, and another caller may prune between them.
 */
module RateLimitRace {
  import opened Common
  import opened RateLimit

  datatype Stage =
    | Arrived
    | Counting              // has pruned
    | Passed(counted: int)  // counted fewer hits than the limit, has not inserted
    | Over

  datatype Check = Check(bucket: string, limit: int, window: int, stage: Stage)

  /** `admitted` is history only: every hit ever inserted, pruned or not. */
  datatype System = System(events: seq<Event>, now: int, checks: seq<Check>, admitted: seq<Event>)

  // ---- Steps ------------------------------------------------------------------

  function SetStage(s: System, i: nat, p: Stage): System
    requires i < |s.checks|
  {
    s.(checks := s.checks[i := s.checks[i].(stage := p)])
  }

  /** The bucket is always asked with the same limit and window, the others with windows from `others`. */
  datatype Use = Use(bucket: string, limit: int, window: int, others: set<int>)

  predicate Lawful(u: Use, k: Check) {
    if k.bucket == u.bucket then k.limit == u.limit && k.window == u.window else k.window in u.others
  }

  ghost predicate Arrive(u: Use, s: System, s': System) {
    exists k: Check :: Lawful(u, k) && k.stage == Arrived && s' == s.(checks := s.checks + [k])
  }

  /** The DELETE, for all buckets, with this caller's window. */
  ghost predicate Prune(s: System, s': System, i: nat)
    requires i < |s.checks|
  {
    && s.checks[i].stage.Arrived?
    && s' == SetStage(s, i, Counting).(events := Pruned(s.events, s.now - s.checks[i].window * 4 * SECOND))
  }

  /** The SELECT. */
  ghost predicate CountHits(s: System, s': System, i: nat)
    requires i < |s.checks|
  {
    var k := s.checks[i];
    && k.stage.Counting?
    && var room := HitsAfter(s.events, k.bucket, s.now - k.window * SECOND) < k.limit;
       s' == SetStage(s, i, if room then Passed(s.now) else Over)
  }

  /** The INSERT, seen by others from now on; it is dated when it began. */
  ghost predicate Insert(s: System, s': System, i: nat)
    requires i < |s.checks|
  {
    exists at: int ::
      && s.checks[i].stage.Passed? && s.checks[i].stage.counted <= at <= s.now
      && var hit := [Event(s.checks[i].bucket, at)];
         s' == SetStage(s, i, Over).(events := s.events + hit, admitted := s.admitted + hit)
  }

  ghost predicate CheckStep(s: System, s': System, i: nat)
    requires i < |s.checks|
  {
    || Prune(s, s', i) || CountHits(s, s', i) || Insert(s, s', i)
    || (!s.checks[i].stage.Over? && s' == SetStage(s, i, Over))  // the request dies
  }

  ghost predicate Step(u: Use, s: System, s': System) {
    || Arrive(u, s, s')
    || (exists i :: 0 <= i < |s.checks| && CheckStep(s, s', i))
    || (s'.now >= s.now && s' == s.(now := s'.now))
  }

  ghost predicate Execution(u: Use, trace: seq<System>) {
    && trace != [] && trace[0] == System([], trace[0].now, [], [])
    && forall k :: 0 < k < |trace| ==> Step(u, trace[k - 1], trace[k])
  }

  // ---- What is counted ----------------------------------------------------------

  function InFlight(bucket: string): Check -> bool { (k: Check) => k.bucket == bucket && k.stage.Passed? }

  function InFlightBy(bucket: string, to: int): Check -> bool {
    (k: Check) => k.bucket == bucket && k.stage.Passed? && k.stage.counted <= to
  }

  /** No state has more than `p` checks of the bucket between their SELECT and their INSERT. */
  ghost predicate Overlap(u: Use, trace: seq<System>, p: nat) {
    forall k :: 0 <= k < |trace| ==> Count(trace[k].checks, InFlight(u.bucket)) <= p
  }

  // ---- The invariant --------------------------------------------------------------

  /** The table still holds every hit of the bucket that is recent enough to matter. */
  ghost predicate Remembers(u: Use, s: System) {
    forall t: int :: t >= s.now - u.window * SECOND ==>
        HitsAfter(s.events, u.bucket, t) == HitsAfter(s.admitted, u.bucket, t)
  }

  /** Hits of the window beginning just after `from`, with those that may still be inserted into it. */
  ghost predicate Capped(u: Use, s: System, from: int, p: nat) {
    var to := from + u.window * SECOND;
    var made := HitsWithin(s.admitted, u.bucket, from, to) + Count(s.checks, InFlightBy(u.bucket, to));
    made == 0 || made <= u.limit - 1 + p
  }

  ghost predicate Inv(u: Use, s: System) {
    (forall i :: 0 <= i < |s.checks| ==> Lawful(u, s.checks[i])) && Remembers(u, s)
  }

  lemma SetStageCounts(s: System, i: nat, p: Stage, q: Check -> bool)
    requires i < |s.checks|
    ensures Count(SetStage(s, i, p).checks, q)
         == Count(s.checks, q) - (if q(s.checks[i]) then 1 else 0) + (if q(s.checks[i].(stage := p)) then 1 else 0)
  {
    CountUpdate(s.checks, i, s.checks[i].(stage := p), q);
  }

  /** No caller's window is shorter than a quarter of the bucket's. */
  ghost predicate LongWindows(u: Use) { u.window > 0 && forall w :: w in u.others ==> u.window <= 4 * w }

  lemma PruneRemembers(u: Use, s: System, s': System, i: nat)
    requires LongWindows(u) && Remembers(u, s) && i < |s.checks| && Lawful(u, s.checks[i]) && Prune(s, s', i)
    ensures Remembers(u, s')
  {
    forall t: int | t >= s.now - u.window * SECOND
      ensures HitsAfter(s'.events, u.bucket, t) == HitsAfter(s.admitted, u.bucket, t)
    {
      PruningKeepsRecent(s.events, s.now - s.checks[i].window * 4 * SECOND, u.bucket, t);
    }
  }

  lemma InsertRemembers(u: Use, s: System, s': System, i: nat)
    requires Remembers(u, s) && i < |s.checks| && Insert(s, s', i)
    ensures Remembers(u, s')
  {
    var hit := s'.events[|s.events|];
    forall t: int | t >= s.now - u.window * SECOND
      ensures HitsAfter(s'.events, u.bucket, t) == HitsAfter(s'.admitted, u.bucket, t)
    {
      HitsAppend(s.events, hit, u.bucket, t, t);
      HitsAppend(s.admitted, hit, u.bucket, t, t);
    }
  }

  lemma StepKeepsInv(u: Use, s: System, s': System)
    requires LongWindows(u) && Inv(u, s) && Step(u, s, s')
    ensures Inv(u, s')
  {
    hide HitsAfter, Pruned;
    if i :| 0 <= i < |s.checks| && CheckStep(s, s', i) {
      assert Lawful(u, s.checks[i]);
      if Prune(s, s', i) {
        PruneRemembers(u, s, s', i);
      } else if Insert(s, s', i) {
        InsertRemembers(u, s, s', i);
      }
    }
  }

  /** Passing the count means that the window around it still has room. */
  lemma CountKeepsCap(u: Use, s: System, s': System, i: nat, from: int, p: nat)
    requires Inv(u, s) && Capped(u, s, from, p) && i < |s.checks| && CountHits(s, s', i)
    requires Count(s'.checks, InFlight(u.bucket)) <= p
    ensures Capped(u, s', from, p)
  {
    var k, to := s.checks[i], from + u.window * SECOND;
    assert Lawful(u, k);
    SetStageCounts(s, i, s'.checks[i].stage, InFlightBy(u.bucket, to));
    if s'.checks[i].stage.Passed? && k.bucket == u.bucket && s.now <= to {
      WithinIsAfter(s.admitted, u.bucket, from, to, s.now - u.window * SECOND);
      CountImplies(s'.checks, InFlightBy(u.bucket, to), InFlight(u.bucket));
    }
  }

  lemma InsertKeepsCap(u: Use, s: System, s': System, i: nat, from: int, p: nat)
    requires Capped(u, s, from, p) && i < |s.checks| && Insert(s, s', i)
    ensures Capped(u, s', from, p)
  {
    var to := from + u.window * SECOND;
    SetStageCounts(s, i, Over, InFlightBy(u.bucket, to));
    HitsAppend(s.admitted, s'.admitted[|s.admitted|], u.bucket, from, to);
  }

  lemma StepKeepsCap(u: Use, s: System, s': System, from: int, p: nat)
    requires Inv(u, s) && Capped(u, s, from, p) && Step(u, s, s') && Count(s'.checks, InFlight(u.bucket)) <= p
    ensures Capped(u, s', from, p)
  {
    hide HitsAfter, HitsWithin, Pruned, Count;
    var to := from + u.window * SECOND;
    if i :| 0 <= i < |s.checks| && CheckStep(s, s', i) {
      if CountHits(s, s', i) {
        CountKeepsCap(u, s, s', i, from, p);
      } else if Insert(s, s', i) {
        InsertKeepsCap(u, s, s', i, from, p);
      } else {
        SetStageCounts(s, i, s'.checks[i].stage, InFlightBy(u.bucket, to));
      }
    } else if k: Check :| Lawful(u, k) && k.stage == Arrived && s' == s.(checks := s.checks + [k]) {
      CountAppend(s.checks, k, InFlightBy(u.bucket, to));
    }
  }

  lemma {:induction false} EveryStateOk(u: Use, trace: seq<System>, k: nat)
    requires LongWindows(u) && Execution(u, trace) && k < |trace|
    ensures Inv(u, trace[k])
  {
    if k > 0 {
      EveryStateOk(u, trace, k - 1);
      StepKeepsInv(u, trace[k - 1], trace[k]);
    }
  }

  lemma {:induction false} EveryWindowCapped(u: Use, trace: seq<System>, k: nat, from: int, p: nat)
    requires LongWindows(u) && Execution(u, trace) && k < |trace| && Overlap(u, trace, p)
    ensures Capped(u, trace[k], from, p)
  {
    if k > 0 {
      EveryWindowCapped(u, trace, k - 1, from, p);
      EveryStateOk(u, trace, k - 1);
      StepKeepsCap(u, trace[k - 1], trace[k], from, p);
    }
  }

  /** With at most `p` checks of the bucket in flight, each window admits at most limit - 1 + p hits. */
  lemma OverlapBound(u: Use, trace: seq<System>, k: nat, from: int, p: nat)
    requires LongWindows(u) && Execution(u, trace) && k < |trace| && Overlap(u, trace, p)
    ensures HitsWithin(trace[k].admitted, u.bucket, from, from + u.window * SECOND) <= Max(0, u.limit - 1 + p)
  {
    EveryWindowCapped(u, trace, k, from, p);
  }

  // ---- Reaching beyond the limit --------------------------------------------------

  function Last(trace: seq<System>): System
    requires trace != []
  {
    trace[|trace| - 1]
  }

  /** A run with at most `p` checks of the bucket in flight that has come to `s`. */
  ghost predicate Reaches(u: Use, p: nat, trace: seq<System>, s: System) {
    Execution(u, trace) && Overlap(u, trace, p) && Last(trace) == s
  }

  lemma NowWithin(u: Use, p: nat, trace: seq<System>, s: System)
    requires Reaches(u, p, trace, s)
    ensures Count(s.checks, InFlight(u.bucket)) <= p
  {
    assert trace[|trace| - 1] == s;
  }

  lemma Extend(u: Use, p: nat, trace: seq<System>, s: System, s': System) returns (longer: seq<System>)
    requires Reaches(u, p, trace, s) && Step(u, s, s') && Count(s'.checks, InFlight(u.bucket)) <= p
    ensures Reaches(u, p, longer, s')
  {
    longer := trace + [s'];
  }

  /** A check arrives and prunes. */
  lemma PruneOne(u: Use, p: nat, trace: seq<System>, s: System, k: Check) returns (longer: seq<System>, s': System)
    requires Reaches(u, p, trace, s) && Lawful(u, k) && k.stage == Arrived
    ensures Reaches(u, p, longer, s') && s'.now == s.now && s'.admitted == s.admitted
    ensures s'.events == Pruned(s.events, s.now - k.window * 4 * SECOND)
    ensures s'.checks == s.checks + [k.(stage := Counting)]
    ensures Count(s'.checks, InFlight(u.bucket)) == Count(s.checks, InFlight(u.bucket))
  {
    hide Count, Pruned, Execution;
    var i := |s.checks|;
    var arrived := s.(checks := s.checks + [k]);
    s' := SetStage(arrived, i, Counting).(events := Pruned(s.events, s.now - k.window * 4 * SECOND));
    CountAppend(s.checks, k, InFlight(u.bucket));
    SetStageCounts(arrived, i, Counting, InFlight(u.bucket));
    assert Arrive(u, s, arrived);
    NowWithin(u, p, trace, s);
    longer := Extend(u, p, trace, s, arrived);
    assert Prune(arrived, s', i) && CheckStep(arrived, s', i);
    longer := Extend(u, p, longer, arrived, s');
  }

  /** The last check, of the bucket, counts fewer hits than the limit. */
  lemma PassOne(u: Use, p: nat, trace: seq<System>, s: System) returns (longer: seq<System>, s': System)
    requires Reaches(u, p, trace, s) && s.checks != [] && Count(s.checks, InFlight(u.bucket)) + 1 <= p
    requires s.checks[|s.checks| - 1] == Check(u.bucket, u.limit, u.window, Counting)
    requires HitsAfter(s.events, u.bucket, s.now - u.window * SECOND) < u.limit
    ensures Reaches(u, p, longer, s') && s' == SetStage(s, |s.checks| - 1, Passed(s.now))
    ensures Count(s'.checks, InFlight(u.bucket)) == Count(s.checks, InFlight(u.bucket)) + 1
  {
    hide Count, HitsAfter, Execution;
    var i := |s.checks| - 1;
    s' := SetStage(s, i, Passed(s.now));
    SetStageCounts(s, i, Passed(s.now), InFlight(u.bucket));
    assert CountHits(s, s', i) && CheckStep(s, s', i);
    longer := Extend(u, p, trace, s, s');
  }

  /** A check in flight inserts its hit. */
  lemma InsertOne(u: Use, p: nat, trace: seq<System>, s: System, i: nat) returns (longer: seq<System>, s': System)
    requires Reaches(u, p, trace, s) && i < |s.checks| && InFlight(u.bucket)(s.checks[i])
             && s.checks[i].stage == Passed(s.now)
    ensures Reaches(u, p, longer, s')
    ensures var hit := [Event(u.bucket, s.now)];
            s' == SetStage(s, i, Over).(events := s.events + hit, admitted := s.admitted + hit)
    ensures Count(s'.checks, InFlight(u.bucket)) == Count(s.checks, InFlight(u.bucket)) - 1
  {
    hide Count, Execution;
    var hit := [Event(u.bucket, s.now)];
    s' := SetStage(s, i, Over).(events := s.events + hit, admitted := s.admitted + hit);
    SetStageCounts(s, i, Over, InFlight(u.bucket));
    assert Insert(s, s', i) && CheckStep(s, s', i);
    NowWithin(u, p, trace, s);
    longer := Extend(u, p, trace, s, s');
  }

  /** A check of the bucket finds room and is then in flight. */
  lemma AskOne(u: Use, p: nat, trace: seq<System>, s: System) returns (longer: seq<System>, s': System)
    requires Reaches(u, p, trace, s) && Count(s.checks, InFlight(u.bucket)) + 1 <= p
    requires Pruned(s.events, s.now - u.window * 4 * SECOND) == s.events
    requires HitsAfter(s.events, u.bucket, s.now - u.window * SECOND) < u.limit
    ensures Reaches(u, p, longer, s') && s'.now == s.now && s'.admitted == s.admitted && s'.events == s.events
    ensures s'.checks == s.checks + [Check(u.bucket, u.limit, u.window, Passed(s.now))]
    ensures Count(s'.checks, InFlight(u.bucket)) == Count(s.checks, InFlight(u.bucket)) + 1
  {
    hide Count, HitsAfter, Pruned, Reaches;
    longer, s' := PruneOne(u, p, trace, s, Check(u.bucket, u.limit, u.window, Arrived));
    longer, s' := PassOne(u, p, longer, s');
  }

  function Sample(u: Use): Request { AtOnce(u.bucket, u.limit, u.window, 0) }

  /** At time 0, after `n` hits of the bucket and nothing else; every check in flight has just counted. */
  ghost predicate Standing(u: Use, s: System, n: nat) {
    && s.now == 0 && s.events == Hits(Sample(u), n) == s.admitted
    && forall i :: 0 <= i < |s.checks| && s.checks[i].stage.Passed? ==> s.checks[i].stage.counted == 0
  }

  lemma StandingHits(u: Use, s: System, n: nat)
    requires Standing(u, s, n) && u.window > 0
    ensures Pruned(s.events, s.now - u.window * 4 * SECOND) == s.events
    ensures HitsAfter(s.events, u.bucket, s.now - u.window * SECOND) == n
    ensures HitsWithin(s.admitted, u.bucket, -1, -1 + u.window * SECOND) == n
  {
    HitsPruned(Sample(u), n, s.now - u.window * 4 * SECOND);
    HitsCounted(Sample(u), n, s.now - u.window * SECOND, 0);
    HitsCounted(Sample(u), n, -1, -1 + u.window * SECOND);
  }

  /** `n` checks in flight insert their hits. */
  lemma {:induction false} InsertAll(u: Use, p: nat, trace: seq<System>, s: System, n: nat, hits: nat)
    returns (longer: seq<System>, s': System)
    requires Reaches(u, p, trace, s) && Standing(u, s, hits) && Count(s.checks, InFlight(u.bucket)) == n
    ensures Reaches(u, p, longer, s') && Standing(u, s', hits + n) && Count(s'.checks, InFlight(u.bucket)) == 0
    decreases n
  {
    hide Count, Reaches;
    if n == 0 {
      longer, s' := trace, s;
    } else {
      var i := CountFinds(s.checks, InFlight(u.bucket));
      longer, s' := InsertOne(u, p, trace, s, i);
      assert Standing(u, s', hits + 1);
      longer, s' := InsertAll(u, p, longer, s', n - 1, hits + 1);
    }
  }

  /** `n` checks count the same hits. */
  lemma {:induction false} AskAll(u: Use, p: nat, trace: seq<System>, s: System, n: nat, hits: nat)
    returns (longer: seq<System>, s': System)
    requires Reaches(u, p, trace, s) && Standing(u, s, hits) && hits < u.limit && u.window > 0
    requires Count(s.checks, InFlight(u.bucket)) == 0 && n <= p
    ensures Reaches(u, p, longer, s') && Standing(u, s', hits) && Count(s'.checks, InFlight(u.bucket)) == n
  {
    hide Count, Reaches, Hits;
    if n == 0 {
      longer, s' := trace, s;
    } else {
      longer, s' := AskAll(u, p, trace, s, n - 1, hits);
      StandingHits(u, s', hits);
      longer, s' := AskOne(u, p, longer, s');
    }
  }

  /** `n` checks one after another. */
  lemma {:induction false} AskInTurn(u: Use, p: nat, n: nat) returns (trace: seq<System>, s: System)
    requires p >= 1 && n <= u.limit && u.window > 0
    ensures Reaches(u, p, trace, s) && Standing(u, s, n) && Count(s.checks, InFlight(u.bucket)) == 0
  {
    if n == 0 {
      s := System([], 0, [], []);
      trace := [s];
    } else {
      trace, s := AskInTurn(u, p, n - 1);
      trace, s := AskAll(u, p, trace, s, 1, n - 1);
      trace, s := InsertAll(u, p, trace, s, 1, n - 1);
    }
  }

  /** For every limit and overlap a run admits limit - 1 + p hits in one window, at one instant. */
  lemma OverlapReach(u: Use, p: nat) returns (trace: seq<System>)
    requires p >= 1 && u.limit >= 1 && u.window > 0
    ensures Execution(u, trace) && Overlap(u, trace, p)
    ensures HitsWithin(Last(trace).admitted, u.bucket, -1, -1 + u.window * SECOND) == u.limit - 1 + p
  {
    var s;
    trace, s := AskInTurn(u, p, u.limit - 1);
    trace, s := AskAll(u, p, trace, s, p, u.limit - 1);
    trace, s := InsertAll(u, p, trace, s, p, u.limit - 1);
    StandingHits(u, s, u.limit - 1 + p);
  }

  /** And without overlap another caller's short window lets one hit too many through, whatever that caller's limit. */
  lemma PrunedReach(u: Use, w: int, otherLimit: int) returns (trace: seq<System>)
    requires u.limit >= 1 && u.window > 0 && w in u.others && 4 * w < u.window
    ensures Execution(u, trace) && Overlap(u, trace, 1)
    ensures HitsWithin(Last(trace).admitted, u.bucket, -1, -1 + u.window * SECOND) == u.limit + 1
  {
    var s, to := System([], 0, [], []), -1 + u.window * SECOND;
    trace, s := AskInTurn(u, 1, u.limit);
    StandingHits(u, s, u.limit);
    var later := s.(now := Max(0, 4 * w * SECOND + 1));
    trace := Extend(u, 1, trace, s, later);
    trace, s := PruneOne(u, 1, trace, later, Check(u.bucket + "!", otherLimit, w, Arrived));
    HitsPruned(Sample(u), u.limit, s.now - w * 4 * SECOND);
    trace, s := AskOne(u, 1, trace, s);
    HitsAppend(s.admitted, Event(u.bucket, s.now), u.bucket, -1, to);
    trace, s := InsertOne(u, 1, trace, s, |s.checks| - 1);
  }

  // ---- Exactly when ---------------------------------------------------------------

  /** The window beginning just after `from` has admitted no more hits than the limit. */
  ghost predicate WithinLimit(u: Use, s: System, from: int) {
    HitsWithin(s.admitted, u.bucket, from, from + u.window * SECOND) <= u.limit
  }

  /** Whether, with at most `p` checks of the bucket in flight, no window ever admits more hits than the limit. */
  ghost predicate Holds(u: Use, p: nat) {
    forall trace: seq<System>, k: nat, from: int ::
      Execution(u, trace) && Overlap(u, trace, p) && k < |trace| ==> WithinLimit(u, trace[k], from)
  }

  /**
   * The limit holds in every run if and only if no two checks of the bucket are
   * in flight at a time and no other caller's window is shorter than a quarter
   * of the bucket's.
   */
  lemma LimitHoldsExactly(u: Use, p: nat)
    requires u.limit >= 1 && u.window > 0 && p >= 1
    ensures Holds(u, p) <==> p == 1 && forall w :: w in u.others ==> u.window <= 4 * w
  {
    if !LongWindows(u) {
      var w :| w in u.others && 4 * w < u.window;
      var trace := PrunedReach(u, w, 1);
      assert Overlap(u, trace, p);
      assert !WithinLimit(u, trace[|trace| - 1], -1);
    } else if p > 1 {
      var trace := OverlapReach(u, p);
      assert !WithinLimit(u, trace[|trace| - 1], -1);
    } else {
      forall trace: seq<System>, k: nat, from: int | Execution(u, trace) && Overlap(u, trace, p) && k < |trace|
        ensures WithinLimit(u, trace[k], from)
      {
        OverlapBound(u, trace, k, from, p);
      }
    }
  }
}
