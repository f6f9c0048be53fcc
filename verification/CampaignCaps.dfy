/**
 * Exactly when a campaign's two caps hold. Runs are built of one lead and one
 * campaign whose gates are open all week; the clock is advanced past the hour
 * where only the attempt cap is meant.
 */
module CampaignCaps {
  import opened Common
  import opened Campaign
  import opened CampaignRun

  // ---- The runs -------------------------------------------------------------

  /** An open campaign `c` with the lead as its only member. */
  function World(c: CampaignId, lead: LeadId, maxAttempts: int, perHour: int, m: Member, calls: seq<Call>): Db {
    Db(map[lead := "+91"], map[lead := Compliance(Granted, None, false, false)],
       map[c := Settings(Active, {0, 1, 2, 3, 4, 5, 6}, 0, 24, perHour, maxAttempts, [])], map[(c, lead) := m],
       calls, None, None, [])
  }

  /** What a run is about: the campaign, its lead, its caps, and how much may overlap in it. */
  datatype Setup = Setup(c: CampaignId, lead: LeadId, maxAttempts: int, perHour: int, leads: nat, dials: nat)

  function Queueing(lead: LeadId): Job -> bool { (j: Job) => j.lead == lead && !j.phase.Over? && !j.phase.Chosen? }

  function IsChosen(): Job -> bool { (j: Job) => j.phase.Chosen? }

  /** At most `leads` calls of the lead on their way, at most `dials` of them enqueued or being dialled. */
  ghost predicate Within(z: Setup, s: System) {
    && Count(s.jobs, Outstanding(z.lead)) <= z.leads
    && Count(s.jobs, Queueing(z.lead)) <= z.dials && Count(s.jobs, InFlight()) <= z.dials
  }

  ghost predicate Good(z: Setup, trace: seq<System>) {
    Execution(z.c, z.maxAttempts, z.perHour, trace) && forall k :: 0 <= k < |trace| ==> Within(z, trace[k])
  }

  /** The world above, `x` calls chosen and `y` cleared just now, everything else over. */
  ghost predicate Standing(z: Setup, s: System, m: Member, calls: seq<Call>, x: nat, y: nat) {
    && s.db == World(z.c, z.lead, z.maxAttempts, z.perHour, m, calls)
    && (forall i :: 0 <= i < |s.jobs| ==> s.jobs[i].lead == z.lead)
    && (forall i :: 0 <= i < |s.jobs| && s.jobs[i].phase.Cleared? ==> s.jobs[i].phase.start == s.now)
    && Count(s.jobs, IsChosen()) == x && Count(s.jobs, InFlight()) == y
    && Count(s.jobs, Outstanding(z.lead)) == x + y && Count(s.jobs, Queueing(z.lead)) == y
  }

  function Last(trace: seq<System>): System
    requires trace != []
  {
    trace[|trace| - 1]
  }

  lemma Extend(z: Setup, trace: seq<System>, s: System) returns (longer: seq<System>)
    requires Good(z, trace) && Step(z.c, z.maxAttempts, z.perHour, Last(trace), s) && Within(z, s)
    ensures Good(z, longer) && Last(longer) == s
  {
    longer := trace + [s];
  }

  /** A new phase for job `i` in the four counts. */
  lemma PhaseCounts(z: Setup, s: System, i: nat, p: Phase)
    requires i < |s.jobs| && s.jobs[i].lead == z.lead
    ensures var t, q := SetPhase(s, i, p), s.jobs[i].phase;
      && Count(t.jobs, IsChosen())
          == Count(s.jobs, IsChosen()) - (if q.Chosen? then 1 else 0) + (if p.Chosen? then 1 else 0)
      && Count(t.jobs, InFlight())
          == Count(s.jobs, InFlight()) - (if q.Cleared? then 1 else 0) + (if p.Cleared? then 1 else 0)
      && Count(t.jobs, Outstanding(z.lead))
           == Count(s.jobs, Outstanding(z.lead)) - (if q.Over? then 0 else 1) + (if p.Over? then 0 else 1)
      && Count(t.jobs, Queueing(z.lead)) == Count(s.jobs, Queueing(z.lead))
           - (if q.Over? || q.Chosen? then 0 else 1) + (if p.Over? || p.Chosen? then 0 else 1)
  {
    SetPhaseCounts(s, i, p, IsChosen());
    SetPhaseCounts(s, i, p, InFlight());
    SetPhaseCounts(s, i, p, Outstanding(z.lead));
    SetPhaseCounts(s, i, p, Queueing(z.lead));
  }

  lemma {:induction false} CountAtMost<T>(xs: seq<T>, q: T -> bool)
    ensures Count(xs, q) <= |xs|
  {
    if xs != [] { CountAtMost(xs[..|xs| - 1], q); }
  }

  /** The tick selects the lead once more. */
  lemma SelectOnce(z: Setup, trace: seq<System>, m: Member, calls: seq<Call>, x: nat) returns (longer: seq<System>)
    requires Good(z, trace) && Standing(z, Last(trace), m, calls, x, 0) && x < z.leads
    requires m.status == Pending && m.nextAt <= Last(trace).now && m.attempts < z.maxAttempts
    ensures Good(z, longer) && Standing(z, Last(longer), m, calls, x + 1, 0) && Last(longer).now == Last(trace).now
  {
    var s := Last(trace);
    var j := Job(z.lead, Chosen);
    var s' := s.(jobs := s.jobs + ChosenJobs([z.lead]));
    assert ChosenJobs([z.lead]) == [j];
    CountAppend(s.jobs, j, IsChosen());
    CountAppend(s.jobs, j, InFlight());
    CountAppend(s.jobs, j, Outstanding(z.lead));
    CountAppend(s.jobs, j, Queueing(z.lead));
    assert Select(z.c, s, s', [z.lead]);
    longer := Extend(z, trace, s');
  }

  /** Nothing is in flight while the clock moves on. */
  lemma Advance(z: Setup, trace: seq<System>, m: Member, calls: seq<Call>, x: nat, span: nat)
    returns (longer: seq<System>)
    requires Good(z, trace) && Standing(z, Last(trace), m, calls, x, 0)
    ensures Good(z, longer) && Standing(z, Last(longer), m, calls, x, 0) && Last(longer).now == Last(trace).now + span
    ensures Last(longer).readings == Last(trace).readings
  {
    var s := Last(trace);
    forall i | 0 <= i < |s.jobs| ensures !s.jobs[i].phase.Cleared? { NoneCleared(s.jobs, i); }
    longer := Extend(z, trace, s.(now := s.now + span));
  }

  lemma {:induction false} NoneCleared(jobs: seq<Job>, i: nat)
    requires Count(jobs, InFlight()) == 0 && i < |jobs|
    ensures !jobs[i].phase.Cleared?
  {
    if i < |jobs| - 1 { NoneCleared(jobs[..|jobs| - 1], i); }
  }

  ghost predicate Room(z: Setup, m: Member, calls: seq<Call>, now: int) {
    Count(calls, CallsOf(map[(z.c, z.lead) := m], z.c, now - HOUR)) < z.perHour
  }

  /** One chosen call is enqueued, begun and cleared by both gates, all at one instant. */
  lemma ClearOne(z: Setup, trace: seq<System>, m: Member, calls: seq<Call>, x: nat, y: nat)
    returns (longer: seq<System>)
    requires Good(z, trace) && Standing(z, Last(trace), m, calls, x + 1, y)
    requires x + 1 + y <= z.leads && y + 1 <= z.dials && Room(z, m, calls, Last(trace).now)
    ensures Good(z, longer) && Standing(z, Last(longer), m, calls, x, y + 1) && Last(longer).now == Last(trace).now
    ensures Last(longer).readings == Last(trace).readings
  {
    hide Count, Room, Gate;
    var s := Last(trace);
    var i := CountFinds(s.jobs, IsChosen());
    var queued := SetPhase(s, i, Queued);
    PhaseCounts(z, s, i, Queued);
    assert Enqueue(s, queued, i);
    longer := Extend(z, trace, queued);
    var begun := SetPhase(queued, i, Begun(s.now));
    PhaseCounts(z, queued, i, Begun(s.now));
    assert Dial(z.c, queued, begun, i);
    longer := Extend(z, longer, begun);
    var cleared := SetPhase(begun, i, Cleared(s.now));
    PhaseCounts(z, begun, i, Cleared(s.now));
    GatesOpen(z, begun, cleared, i, m, calls);
    longer := Extend(z, longer, cleared);
  }

  lemma GatesOpen(z: Setup, begun: System, cleared: System, i: nat, m: Member, calls: seq<Call>)
    requires i < |begun.jobs| && begun.jobs[i] == Job(z.lead, Begun(begun.now))
             && cleared == SetPhase(begun, i, Cleared(begun.now))
    requires begun.db == World(z.c, z.lead, z.maxAttempts, z.perHour, m, calls) && Room(z, m, calls, begun.now)
    ensures Dial(z.c, begun, cleared, i)
  {
    var at := Moment(begun.now, begun.now, 12, 1);
    assert at.txStart == begun.now && Gate(begun.db, Some(z.lead), Some(z.c), at).None? && !WalletBlocks(begun.db);
  }

  /** The member and the calls once another call is committed. */
  function Dialled(m: Member, calls: seq<Call>): Member {
    m.(status := InProgress, attempts := m.attempts + 1, lastCall := Some(|calls|))
  }

  /** One cleared call is committed. */
  lemma CommitOne(z: Setup, trace: seq<System>, m: Member, calls: seq<Call>, x: nat, y: nat)
    returns (longer: seq<System>)
    requires Good(z, trace) && Standing(z, Last(trace), m, calls, x, y + 1)
    ensures Good(z, longer) && Last(longer).now == Last(trace).now
    ensures Standing(z, Last(longer), Dialled(m, calls), calls + [Call(z.lead, Last(trace).now, Some(z.c))], x, y)
    ensures Last(longer).readings == Last(trace).readings
  {
    hide Count;
    var s := Last(trace);
    var i := CountFinds(s.jobs, InFlight());
    var over := SetPhase(s, i, Over).(db := WithCall(s.db, z.lead, Some(z.c), s.now));
    PhaseCounts(z, s, i, Over);
    assert over.db == World(z.c, z.lead, z.maxAttempts, z.perHour, Dialled(m, calls),
           calls + [Call(z.lead, s.now, Some(z.c))]);
    assert Dial(z.c, s, over, i);
    assert Within(z, s);
    longer := Extend(z, trace, over);
  }

  /** The call ends without success and the lead, with attempts left, is due again at once. */
  lemma Reschedule(z: Setup, trace: seq<System>, m: Member, calls: seq<Call>) returns (longer: seq<System>)
    requires Good(z, trace) && Standing(z, Last(trace), m, calls, 0, 0) && m.attempts < z.maxAttempts
    ensures Good(z, longer) && Last(longer).now == Last(trace).now
    ensures var again := m.(status := Pending, disposition := Some("busy"), nextAt := Last(trace).now);
            Standing(z, Last(longer), again, calls, 0, 0)
  {
    var s := Last(trace);
    var r := ReadingOf(s.db, (z.c, z.lead), "busy", []);
    longer := ReadBusy(z, trace, m, calls, 0);
    longer := WriteBusy(z, longer, m, calls, 0, r);
  }

  /** The recording of the disposition "busy" reads the member ... */
  lemma ReadBusy(z: Setup, trace: seq<System>, m: Member, calls: seq<Call>, x: nat) returns (longer: seq<System>)
    requires Good(z, trace) && Standing(z, Last(trace), m, calls, x, 0)
    ensures Good(z, longer) && Standing(z, Last(longer), m, calls, x, 0) && Last(longer).now == Last(trace).now
    ensures Last(longer).readings == Last(trace).readings + [ReadingOf(Last(trace).db, (z.c, z.lead), "busy", [])]
  {
    var s := Last(trace);
    var s' := s.(readings := s.readings + [ReadingOf(s.db, (z.c, z.lead), "busy", [])]);
    assert ReadDisposition(s, s');
    longer := Extend(z, trace, s');
  }

  /** ... and reschedules it, whatever has happened to it since. */
  lemma WriteBusy(z: Setup, trace: seq<System>, m: Member, calls: seq<Call>, x: nat, r: Reading)
    returns (longer: seq<System>)
    requires Good(z, trace) && Standing(z, Last(trace), m, calls, x, 0)
    requires Last(trace).readings != [] && Last(trace).readings[|Last(trace).readings| - 1] == r
    requires r.key == (z.c, z.lead) && r.attempts < r.maxAttempts
    requires r.disposition == "busy" && r.terminal == [] && r.schedule == []
    ensures Good(z, longer) && Last(longer).now == Last(trace).now
    ensures var again := m.(status := Pending, disposition := Some("busy"), nextAt := Last(trace).now);
            Standing(z, Last(longer), again, calls, x, 0)
  {
    var s := Last(trace);
    var i := |s.readings| - 1;
    var again := m.(status := Pending, disposition := Some("busy"), nextAt := s.now);
    var s' := s.(db := Rescheduled(s.db, r, s.now), readings := s.readings[..i] + s.readings[i + 1..]);
    assert s'.db == World(z.c, z.lead, z.maxAttempts, z.perHour, again, calls);
    assert WriteDisposition(s, s', i);
    longer := Extend(z, trace, s');
  }

  lemma Beginning(z: Setup) returns (trace: seq<System>)
    ensures Good(z, trace) && Last(trace).now == 0
    ensures Standing(z, Last(trace), Member(Pending, 0, 0, None, None), [], 0, 0)
  {
    trace := [System(World(z.c, z.lead, z.maxAttempts, z.perHour, Member(Pending, 0, 0, None, None), []), [], 0, [])];
  }

  // ---- Reaching beyond the attempt cap ----------------------------------------

  ghost predicate Past(calls: seq<Call>, now: int) {
    forall i :: 0 <= i < |calls| ==> calls[i].createdAt <= now
  }

  /** An hour later one chosen call is made. */
  lemma CallLater(z: Setup, trace: seq<System>, m: Member, calls: seq<Call>, x: nat)
    returns (longer: seq<System>, later: seq<Call>)
    requires Good(z, trace) && Standing(z, Last(trace), m, calls, x + 1, 0) && Past(calls, Last(trace).now)
    requires x + 1 <= z.leads && z.dials >= 1 && z.perHour >= 1
    ensures Good(z, longer) && Standing(z, Last(longer), Dialled(m, calls), later, x, 0)
    ensures Past(later, Last(longer).now) && Last(longer).now >= Last(trace).now
    ensures Last(longer).readings == Last(trace).readings
  {
    longer := Advance(z, trace, m, calls, x + 1, HOUR + 1);
    var now := Last(longer).now;
    CountNone(calls, CallsOf(map[(z.c, z.lead) := m], z.c, now - HOUR));
    longer := ClearOne(z, longer, m, calls, x, 0);
    longer := CommitOne(z, longer, m, calls, x, 0);
    later := calls + [Call(z.lead, now, Some(z.c))];
  }

  /** Tick, dial and disposition one after another, `n` times. */
  lemma {:induction false} Rounds(z: Setup, n: nat) returns (trace: seq<System>, m: Member, calls: seq<Call>)
    requires n < z.maxAttempts && z.leads >= 1 && z.dials >= 1 && z.perHour >= 1
    ensures Good(z, trace) && Standing(z, Last(trace), m, calls, 0, 0) && Past(calls, Last(trace).now)
    ensures m.status == Pending && m.nextAt <= Last(trace).now && m.attempts == n
  {
    if n == 0 {
      trace := Beginning(z);
      m, calls := Member(Pending, 0, 0, None, None), [];
    } else {
      trace, m, calls := Rounds(z, n - 1);
      trace := SelectOnce(z, trace, m, calls, 0);
      var later;
      trace, later := CallLater(z, trace, m, calls, 0);
      m, calls := Dialled(m, calls), later;
      trace := Reschedule(z, trace, m, calls);
      m := m.(status := Pending, disposition := Some("busy"), nextAt := Last(trace).now);
    }
  }

  /** `n` ticks select the lead before any of them enqueues it. */
  lemma {:induction false} Selections(z: Setup, trace: seq<System>, m: Member, calls: seq<Call>, n: nat)
    returns (longer: seq<System>)
    requires Good(z, trace) && Standing(z, Last(trace), m, calls, 0, 0) && n <= z.leads
    requires m.status == Pending && m.nextAt <= Last(trace).now && m.attempts < z.maxAttempts
    ensures Good(z, longer) && Standing(z, Last(longer), m, calls, n, 0) && Last(longer).now == Last(trace).now
  {
    if n == 0 {
      longer := trace;
    } else {
      longer := Selections(z, trace, m, calls, n - 1);
      longer := SelectOnce(z, longer, m, calls, n - 1);
    }
  }

  /** They are then enqueued and dialled one at a time. */
  lemma {:induction false} CallAll(z: Setup, trace: seq<System>, m: Member, calls: seq<Call>, n: nat)
    returns (longer: seq<System>, m': Member, calls': seq<Call>)
    requires Good(z, trace) && Standing(z, Last(trace), m, calls, n, 0) && Past(calls, Last(trace).now)
    requires n <= z.leads && z.dials >= 1 && z.perHour >= 1
    ensures Good(z, longer) && Standing(z, Last(longer), m', calls', 0, 0) && m'.attempts == m.attempts + n
    decreases n
  {
    if n == 0 {
      longer, m', calls' := trace, m, calls;
    } else {
      var later;
      longer, later := CallLater(z, trace, m, calls, n - 1);
      longer, m', calls' := CallAll(z, longer, Dialled(m, calls), later, n - 1);
    }
  }

  /**
   * For every cap and every p >= 1 a run with at most `p` calls of the lead on
   * their way reaches maxAttempts - 1 + p attempts, although never more than
   * one of those calls is enqueued or being dialled at a time.
   */
  lemma AttemptsReach(c: CampaignId, lead: LeadId, maxAttempts: int, perHour: int, p: nat) returns (trace: seq<System>)
    requires maxAttempts >= 1 && perHour >= 1 && p >= 1
    ensures Execution(c, maxAttempts, perHour, trace) && LeadOverlap(trace, lead, p) && DialOverlap(trace, 1)
    ensures forall k :: 0 <= k < |trace| ==> Count(trace[k].jobs, Queueing(lead)) <= 1
    ensures (c, lead) in Last(trace).db.members && Last(trace).db.members[(c, lead)].attempts == maxAttempts - 1 + p
  {
    var z := Setup(c, lead, maxAttempts, perHour, p, 1);
    var m, calls;
    trace, m, calls := Rounds(z, maxAttempts - 1);
    trace := Selections(z, trace, m, calls, p);
    trace, m, calls := CallAll(z, trace, m, calls, p);
    assert forall k :: 0 <= k < |trace| ==> Within(z, trace[k]);
  }

  /** Whether the attempt cap holds in every run with at most `p` calls of a lead on their way. */
  ghost predicate AttemptCapHolds(c: CampaignId, maxAttempts: int, perHour: int, p: nat) {
    forall trace: seq<System>, k: nat, lead: LeadId ::
      (Execution(c, maxAttempts, perHour, trace) && LeadOverlap(trace, lead, p) && k < |trace|
       && (c, lead) in trace[k].db.members) ==>
        trace[k].db.members[(c, lead)].attempts <= maxAttempts
  }

  lemma AttemptCapExactly(c: CampaignId, maxAttempts: int, perHour: int, p: nat)
    requires maxAttempts >= 1 && perHour >= 1
    ensures AttemptCapHolds(c, maxAttempts, perHour, p) <==> p <= 1
  {
    if p <= 1 {
      forall trace: seq<System>, k: nat, lead: LeadId
        | Execution(c, maxAttempts, perHour, trace) && LeadOverlap(trace, lead, p) && k < |trace|
          && (c, lead) in trace[k].db.members
        ensures trace[k].db.members[(c, lead)].attempts <= maxAttempts
      {
        AttemptsCounted(c, maxAttempts, perHour, trace, k, lead, p);
      }
    } else {
      var trace := AttemptsReach(c, 0, maxAttempts, perHour, p);
      assert trace[|trace| - 1].db.members[(c, 0)].attempts > maxAttempts;
    }
  }

  /**
   * For every cap a run, with one call of the lead on its way at a time, leaves
   * it pending with no attempt left: a dial commits between the reading and the
   * writing of a disposition. No tick selects it again.
   */
  lemma PendingAtCap(c: CampaignId, lead: LeadId, maxAttempts: int, perHour: int) returns (trace: seq<System>)
    requires maxAttempts >= 1 && perHour >= 1
    ensures Execution(c, maxAttempts, perHour, trace) && LeadOverlap(trace, lead, 1)
    ensures (c, lead) in Last(trace).db.members
    ensures var m := Last(trace).db.members[(c, lead)]; m.status == Pending && m.attempts == maxAttempts
    ensures forall now :: !TickDue(Last(trace).db, (c, lead), now)
  {
    var z := Setup(c, lead, maxAttempts, perHour, 1, 1);
    var m, calls;
    trace, m, calls := Rounds(z, maxAttempts - 1);
    trace := SelectOnce(z, trace, m, calls, 0);
    var r := ReadingOf(Last(trace).db, (c, lead), "busy", []);
    trace := ReadBusy(z, trace, m, calls, 1);
    var later;
    trace, later := CallLater(z, trace, m, calls, 0);
    trace := WriteBusy(z, trace, Dialled(m, calls), later, 0, r);
    assert forall k :: 0 <= k < |trace| ==> Within(z, trace[k]);
  }

  // ---- Reaching beyond the hourly cap -----------------------------------------

  /** `n` calls at time 0, each committed before the next is begun. */
  lemma {:induction false} CallNow(z: Setup, trace: seq<System>, m: Member, calls: seq<Call>, x: nat, n: nat)
    returns (longer: seq<System>, m': Member, calls': seq<Call>)
    requires Good(z, trace) && Standing(z, Last(trace), m, calls, x + n, 0) && Last(trace).now == 0
    requires x + n <= z.leads && z.dials >= 1 && |calls| + n <= z.perHour && AllNow(z, calls)
    ensures Good(z, longer) && Standing(z, Last(longer), m', calls', x, 0) && Last(longer).now == 0
    ensures |calls'| == |calls| + n && AllNow(z, calls') && m'.attempts == m.attempts + n
    decreases n
  {
    if n == 0 {
      longer, m', calls' := trace, m, calls;
    } else {
      CountAtMost(calls, CallsOf(map[(z.c, z.lead) := m], z.c, 0 - HOUR));
      longer := ClearOne(z, trace, m, calls, x + n - 1, 0);
      longer := CommitOne(z, longer, m, calls, x + n - 1, 0);
      longer, m', calls' := CallNow(z, longer, Dialled(m, calls), calls + [Call(z.lead, 0, Some(z.c))], x, n - 1);
    }
  }

  ghost predicate AllNow(z: Setup, calls: seq<Call>) {
    forall i :: 0 <= i < |calls| ==> calls[i] == Call(z.lead, 0, Some(z.c))
  }

  /** The last `n` chosen calls are all cleared before any of them commits. */
  lemma {:induction false} ClearAll(z: Setup, trace: seq<System>, m: Member, calls: seq<Call>, n: nat, y: nat)
    returns (longer: seq<System>)
    requires Good(z, trace) && Standing(z, Last(trace), m, calls, n, y) && Last(trace).now == 0
    requires n + y <= z.leads && n + y <= z.dials && |calls| < z.perHour
    ensures Good(z, longer) && Standing(z, Last(longer), m, calls, 0, n + y) && Last(longer).now == 0
    decreases n
  {
    if n == 0 {
      longer := trace;
    } else {
      CountAtMost(calls, CallsOf(map[(z.c, z.lead) := m], z.c, 0 - HOUR));
      longer := ClearOne(z, trace, m, calls, n - 1, y);
      longer := ClearAll(z, longer, m, calls, n - 1, y + 1);
    }
  }

  lemma {:induction false} CommitAll(z: Setup, trace: seq<System>, m: Member, calls: seq<Call>, n: nat)
    returns (longer: seq<System>, m': Member, calls': seq<Call>)
    requires Good(z, trace) && Standing(z, Last(trace), m, calls, 0, n) && Last(trace).now == 0 && AllNow(z, calls)
    ensures Good(z, longer) && Standing(z, Last(longer), m', calls', 0, 0)
    ensures |calls'| == |calls| + n && AllNow(z, calls') && m'.attempts == m.attempts + n
    decreases n
  {
    if n == 0 {
      longer, m', calls' := trace, m, calls;
    } else {
      longer := CommitOne(z, trace, m, calls, 0, n - 1);
      longer, m', calls' := CommitAll(z, longer, Dialled(m, calls), calls + [Call(z.lead, 0, Some(z.c))], n - 1);
    }
  }

  lemma {:induction false} AllCounted(z: Setup, calls: seq<Call>)
    requires AllNow(z, calls)
    ensures Count(calls, CallsWithin(z.c, 0)) == |calls|
  {
    if calls != [] { AllCounted(z, calls[..|calls| - 1]); }
  }

  /**
   * For every cap and every p >= 1 a run with at most `p` dials in flight puts
   * perHour - 1 + p calls of the campaign into one hour.
   */
  lemma HourReach(c: CampaignId, lead: LeadId, maxAttempts: int, perHour: int, p: nat) returns (trace: seq<System>)
    requires maxAttempts >= 1 && perHour >= 1 && p >= 1
    ensures Execution(c, maxAttempts, perHour, trace) && DialOverlap(trace, p)
            && LeadOverlap(trace, lead, perHour - 1 + p)
    ensures Count(Last(trace).db.calls, CallsWithin(c, 0)) == perHour - 1 + p
    ensures (c, lead) in Last(trace).db.members && Last(trace).db.members[(c, lead)].attempts == perHour - 1 + p
  {
    var z := Setup(c, lead, maxAttempts, perHour, perHour - 1 + p, p);
    var m, calls := Member(Pending, 0, 0, None, None), [];
    trace := Beginning(z);
    trace := Selections(z, trace, m, calls, perHour - 1 + p);
    trace, m, calls := CallNow(z, trace, m, calls, p, perHour - 1);
    trace := ClearAll(z, trace, m, calls, p, 0);
    trace, m, calls := CommitAll(z, trace, m, calls, p);
    AllCounted(z, calls);
    assert forall k :: 0 <= k < |trace| ==> Within(z, trace[k]);
  }

  /** Whether the hourly cap holds in every run with at most `p` dials in flight. */
  ghost predicate HourlyCapHolds(c: CampaignId, maxAttempts: int, perHour: int, p: nat) {
    forall trace: seq<System>, k: nat, from: int ::
      Execution(c, maxAttempts, perHour, trace) && DialOverlap(trace, p) && k < |trace| ==>
        Count(trace[k].db.calls, CallsWithin(c, from)) <= perHour
  }

  lemma HourlyCapExactly(c: CampaignId, maxAttempts: int, perHour: int, p: nat)
    requires maxAttempts >= 1 && perHour >= 1
    ensures HourlyCapHolds(c, maxAttempts, perHour, p) <==> p <= 1
  {
    if p <= 1 {
      forall trace: seq<System>, k: nat, from: int
        | Execution(c, maxAttempts, perHour, trace) && DialOverlap(trace, p) && k < |trace|
        ensures Count(trace[k].db.calls, CallsWithin(c, from)) <= perHour
      {
        HourlyWindow(c, maxAttempts, perHour, trace, k, from, p);
      }
    } else {
      var trace := HourReach(c, 0, maxAttempts, perHour, p);
      assert Count(trace[|trace| - 1].db.calls, CallsWithin(c, 0)) > perHour;
    }
  }

  // ---- The smallest examples ----------------------------------------------------

  /** Two ticks before the first commit, with both caps at 1: two attempts, both in one hour. */
  lemma OverlapBreaksCaps() returns (trace: seq<System>)
    ensures Execution(0, 1, 1, trace) && LeadOverlap(trace, 0, 2) && DialOverlap(trace, 2)
    ensures (0, 0) in Last(trace).db.members && Last(trace).db.members[(0, 0)].attempts == 2
    ensures Count(Last(trace).db.calls, CallsWithin(0, 0)) == 2
  {
    trace := HourReach(0, 0, 1, 1, 2);
  }

  /** Two ticks select a lead; one is slow, and enqueues it after the other's dial is over. */
  lemma SlowTickBreaksCap() returns (trace: seq<System>)
    ensures Execution(0, 1, 1, trace) && DialOverlap(trace, 1)
    ensures forall k :: 0 <= k < |trace| ==> Count(trace[k].jobs, Queueing(0)) <= 1
    ensures (0, 0) in Last(trace).db.members && Last(trace).db.members[(0, 0)].attempts == 2
  {
    trace := AttemptsReach(0, 0, 1, 1, 2);
  }
}
