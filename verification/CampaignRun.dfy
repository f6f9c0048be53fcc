/**
 * A campaign as it runs: ticks, dial jobs on many workers, dispositions, direct
 * calls and edits by the tenant, interleaved transaction by transaction. A dial
 * is split where it can be overtaken: BEGIN, the two gates, and the commit.
 *
 * A tick SELECTs its due leads at once and enqueues them one after another,
 * marking none of them, and nothing looks at the lead again before its call is
 * placed. So several calls of one lead may be on their way at a time, and
 * several dials may pass the hourly check before any of them commits. Both caps
 * are proved as bounds in those overlaps, and to hold exactly without any.
 */
module CampaignRun {
  import opened Common
  import opened Campaign

  datatype Phase =
    | Chosen              // selected by a tick that has not enqueued it yet
    | Queued
    | Begun(start: int)      // inside BEGIN ... COMMIT, gates not yet consulted
    | Cleared(start: int)    // both gates passed, provider contacted, not committed
    | Refused                // rolled back by a gate; the member is still to be marked
    | Over

  datatype Job = Job(lead: LeadId, phase: Phase)

  /** What the recording of a disposition has read before it updates the member. */
  datatype Reading = Reading(key: (CampaignId, LeadId), disposition: string, terminal: seq<string>,
                             attempts: int, maxAttempts: int, schedule: seq<RetryStep>)

  /**
   * One campaign of the organisation under observation: its leads on their way to a call, the
   * dispositions on theirs.
   */
  datatype System = System(db: Db, jobs: seq<Job>, now: int, readings: seq<Reading>)

  // ---- What is counted ----------------------------------------------------

  /** Leads selected, enqueued or being dialled. */
  function Outstanding(lead: LeadId): Job -> bool { (j: Job) => j.lead == lead && !j.phase.Over? }

  /** The jobs that may still commit a call for this lead. */
  function MayCall(lead: LeadId): Job -> bool {
    (j: Job) => j.lead == lead && (j.phase.Chosen? || j.phase.Queued? || j.phase.Begun? || j.phase.Cleared?)
  }

  function InFlight(): Job -> bool { (j: Job) => j.phase.Cleared? }

  function InFlightWithin(from: int): Job -> bool {
    (j: Job) => j.phase.Cleared? && from <= j.phase.start <= from + HOUR
  }

  function CallsFor(c: CampaignId, lead: LeadId): Call -> bool {
    (k: Call) => k.lead == lead && k.campaign == Some(c)
  }

  /** Calls of the campaign in the closed hour beginning at `from`. */
  function CallsWithin(c: CampaignId, from: int): Call -> bool {
    (k: Call) => k.campaign == Some(c) && from <= k.createdAt <= from + HOUR
  }

  /** No state has more than `p` calls of the lead on their way. */
  ghost predicate LeadOverlap(trace: seq<System>, lead: LeadId, p: nat) {
    forall k :: 0 <= k < |trace| ==> Count(trace[k].jobs, Outstanding(lead)) <= p
  }

  /** No state has more than `p` dials between the gates and their commit. */
  ghost predicate DialOverlap(trace: seq<System>, p: nat) {
    forall k :: 0 <= k < |trace| ==> Count(trace[k].jobs, InFlight()) <= p
  }

  // ---- Steps --------------------------------------------------------------

  function SetPhase(s: System, i: nat, p: Phase): System
    requires i < |s.jobs|
  {
    s.(jobs := s.jobs[i := s.jobs[i].(phase := p)])
  }

  function ChosenJobs(leads: seq<LeadId>): (jobs: seq<Job>)
    ensures |jobs| == |leads| && forall k :: 0 <= k < |leads| ==> jobs[k] == Job(leads[k], Chosen)
  {
    seq(|leads|, k requires 0 <= k < |leads| => Job(leads[k], Chosen))
  }

  /** The SELECT of a tick: the campaign's part of at most 200 due leads. */
  ghost predicate Select(c: CampaignId, s: System, s': System, leads: seq<LeadId>) {
    && Distinct(leads) && |leads| <= TICK_LIMIT
    && (forall k :: 0 <= k < |leads| ==> TickDue(s.db, (c, leads[k]), s.now))
    && s' == s.(jobs := s.jobs + ChosenJobs(leads))
  }

  /** The tick reaches a lead it selected, or has died before. */
  ghost predicate Enqueue(s: System, s': System, i: nat)
    requires i < |s.jobs|
  {
    s.jobs[i].phase.Chosen? && (s' == SetPhase(s, i, Queued) || s' == SetPhase(s, i, Over))
  }

  /** The next transaction boundary of dial job `i`. */
  ghost predicate Dial(c: CampaignId, s: System, s': System, i: nat)
    requires i < |s.jobs|
  {
    var lead := s.jobs[i].lead;
    match s.jobs[i].phase
    case Chosen => false
    case Queued =>
      if lead !in s.db.phones || s.db.phones[lead] == ""
      then s' == SetPhase(s, i, Over).(db := WithStatus(s.db, (c, lead), Blocked))
      else s' == SetPhase(s, i, Begun(s.now))
    case Begun(start) =>
      exists at: Moment :: at.txStart == start
        && if Gate(s.db, Some(lead), Some(c), at).Some? || WalletBlocks(s.db) then s' == SetPhase(s, i, Refused)
           else s' == SetPhase(s, i, Cleared(start))
    case Cleared(start) =>
      || s' == SetPhase(s, i, Over).(db := WithCall(s.db, lead, Some(c), start))
      || s' == SetPhase(s, i, Queued)   // the provider failed: rolled back, the queue retries
      || s' == SetPhase(s, i, Over)     // ... or dead-letters the job
    case Refused => s' == SetPhase(s, i, Over).(db := WithStatus(s.db, (c, lead), Blocked))
    case Over => false
  }

  function ReadingOf(db: Db, key: (CampaignId, LeadId), disposition: string, terminal: seq<string>): Reading
    requires key.0 in db.campaigns
  {
    var settings := db.campaigns[key.0];
    Reading(key, disposition, terminal, if key in db.members then db.members[key].attempts else 0,
            settings.maxAttempts, settings.schedule)
  }

  /** The UPDATE that follows, with the time the process read from its clock. */
  function Rescheduled(db: Db, r: Reading, at: int): Db {
    if r.key !in db.members then db
    else
      var m := db.members[r.key];
      var m' :=
        if r.disposition in r.terminal || r.attempts >= r.maxAttempts
        then m.(status := if r.attempts >= r.maxAttempts then Exhausted else Completed,
                disposition := Some(r.disposition))
        else m.(status := Pending, disposition := Some(r.disposition),
                nextAt := at + DelayFor(r.schedule, r.attempts + 1) * 60_000);
      db.(members := db.members[r.key := m'])
  }

  /** A disposition arrives for any member, at any time: its two SELECTs, taken as one. */
  ghost predicate ReadDisposition(s: System, s': System) {
    exists key: (CampaignId, LeadId), d: string, terminal: seq<string> ::
      key.0 in s.db.campaigns && s' == s.(readings := s.readings + [ReadingOf(s.db, key, d, terminal)])
  }

  /** Its UPDATE, possibly much later; nothing is locked in between. */
  ghost predicate WriteDisposition(s: System, s': System, i: nat) {
    i < |s.readings|
    && exists at: int ::
         s' == s.(db := Rescheduled(s.db, s.readings[i], at), readings := s.readings[..i] + s.readings[i + 1..])
  }

  /** A call that is not part of this campaign: another campaign's, or a direct one. */
  ghost predicate OtherCall(c: CampaignId, s: System, s': System) {
    exists lead: LeadId, campaign: Option<CampaignId>, at: int ::
      campaign != Some(c) && s' == s.(db := WithCall(s.db, lead, campaign, at))
  }

  /**
   * The tenant edits anything, keeping the campaign's two caps at most (maxAttempts, perHour) and
   * its members enrolled.
   */
  ghost predicate Edit(c: CampaignId, maxAttempts: int, perHour: int, s: System, s': System) {
    && s' == s.(db := s'.db) && s'.db.calls == s.db.calls
    && CapsAtMost(c, maxAttempts, perHour, s'.db)
    && (forall key :: key in s.db.members ==>
        key in s'.db.members && s'.db.members[key].attempts == s.db.members[key].attempts)
    && (forall key :: key in s'.db.members && key !in s.db.members ==> s'.db.members[key].attempts == 0)
  }

  ghost predicate CapsAtMost(c: CampaignId, maxAttempts: int, perHour: int, db: Db) {
    c in db.campaigns ==> db.campaigns[c].maxAttempts <= maxAttempts && db.campaigns[c].maxCallsPerHour <= perHour
  }

  ghost predicate Step(c: CampaignId, maxAttempts: int, perHour: int, s: System, s': System) {
    || (exists leads :: Select(c, s, s', leads))
    || (exists i :: 0 <= i < |s.jobs| && (Enqueue(s, s', i) || Dial(c, s, s', i)))
    || ReadDisposition(s, s')
    || (exists i :: WriteDisposition(s, s', i))
    || OtherCall(c, s, s')
    || Edit(c, maxAttempts, perHour, s, s')
    || (s'.now >= s.now && s' == s.(now := s'.now))
  }

  /** Nobody has been dialled yet; everything else is arbitrary. */
  ghost predicate Fresh(c: CampaignId, maxAttempts: int, perHour: int, s: System) {
    && s.db.calls == [] && s.jobs == [] && s.readings == []
    && CapsAtMost(c, maxAttempts, perHour, s.db)
    && (forall key :: key in s.db.members ==> s.db.members[key].attempts == 0)
  }

  ghost predicate Execution(c: CampaignId, maxAttempts: int, perHour: int, trace: seq<System>) {
    && trace != [] && Fresh(c, maxAttempts, perHour, trace[0])
    && forall k :: 0 < k < |trace| ==> Step(c, maxAttempts, perHour, trace[k - 1], trace[k])
  }

  // ---- The attempt counter and its cap ------------------------------------

  /** Jobs and calls only concern enrolled leads, and the counter counts the committed calls. */
  ghost predicate Enrolled(c: CampaignId, maxAttempts: int, perHour: int, s: System) {
    && CapsAtMost(c, maxAttempts, perHour, s.db)
    && (forall i :: 0 <= i < |s.jobs| ==> (c, s.jobs[i].lead) in s.db.members)
    && (forall i :: 0 <= i < |s.db.calls| && s.db.calls[i].campaign == Some(c) ==>
        (c, s.db.calls[i].lead) in s.db.members)
    && (forall lead :: (c, lead) in s.db.members ==>
          s.db.members[(c, lead)].attempts == Count(s.db.calls, CallsFor(c, lead)))
  }

  ghost predicate AttemptCap(maxAttempts: int, c: CampaignId, s: System, lead: LeadId, p: nat) {
    var made := Count(s.db.calls, CallsFor(c, lead)) + Count(s.jobs, MayCall(lead));
    made == 0 || made <= maxAttempts - 1 + p
  }

  ghost predicate HourlyCap(perHour: int, c: CampaignId, s: System, from: int, p: nat) {
    var made := Count(s.db.calls, CallsWithin(c, from)) + Count(s.jobs, InFlightWithin(from));
    made == 0 || made <= perHour - 1 + p
  }

  lemma SetPhaseCounts(s: System, i: nat, p: Phase, q: Job -> bool)
    requires i < |s.jobs|
    ensures Count(SetPhase(s, i, p).jobs, q)
         == Count(s.jobs, q) - (if q(s.jobs[i]) then 1 else 0) + (if q(s.jobs[i].(phase := p)) then 1 else 0)
  {
    CountUpdate(s.jobs, i, s.jobs[i].(phase := p), q);
  }

  lemma WithCallCounts(db: Db, lead: LeadId, campaign: Option<CampaignId>, at: int, q: Call -> bool)
    ensures var db' := WithCall(db, lead, campaign, at);
            Count(db'.calls, q) == Count(db.calls, q) + if q(Call(lead, at, campaign)) then 1 else 0
  {
    CountAppend(db.calls, Call(lead, at, campaign), q);
  }

  lemma WithCallEnrolled(c: CampaignId, maxAttempts: int, perHour: int, s: System, lead: LeadId,
                         campaign: Option<CampaignId>, at: int)
    requires Enrolled(c, maxAttempts, perHour, s)
    requires campaign == Some(c) ==> (c, lead) in s.db.members
    ensures Enrolled(c, maxAttempts, perHour, s.(db := WithCall(s.db, lead, campaign, at)))
  {
    var db' := WithCall(s.db, lead, campaign, at);
    forall l | (c, l) in db'.members ensures db'.members[(c, l)].attempts == Count(db'.calls, CallsFor(c, l)) {
      WithCallCounts(s.db, lead, campaign, at, CallsFor(c, l));
    }
  }

  /** What enqueueing or a dial step does: it commits a call, marks the member, or leaves the tables alone. */
  ghost predicate JobEffect(c: CampaignId, s: System, s': System, i: nat)
    requires i < |s.jobs|
  {
    var j := s.jobs[i];
    && |s'.jobs| == |s.jobs| && s'.jobs == s.jobs[i := j.(phase := s'.jobs[i].phase)]
    && !j.phase.Over? && !s'.jobs[i].phase.Chosen? && (j.phase.Refused? ==> s'.jobs[i].phase.Over?)
    && (|| s'.db == s.db
        || s'.db == WithStatus(s.db, (c, j.lead), Blocked)
        || (j.phase.Cleared? && s'.jobs[i].phase.Over? && s'.db == WithCall(s.db, j.lead, Some(c), j.phase.start)))
  }

  lemma JobHasEffect(c: CampaignId, s: System, s': System, i: nat)
    requires i < |s.jobs| && (Enqueue(s, s', i) || Dial(c, s, s', i))
    ensures JobEffect(c, s, s', i)
  {
  }

  lemma EffectKeepsEnrolled(c: CampaignId, maxAttempts: int, perHour: int, s: System, s': System, i: nat)
    requires Enrolled(c, maxAttempts, perHour, s) && i < |s.jobs| && JobEffect(c, s, s', i)
    ensures Enrolled(c, maxAttempts, perHour, s')
  {
    if s'.db.calls != s.db.calls {
      WithCallEnrolled(c, maxAttempts, perHour, s, s.jobs[i].lead, Some(c), s.jobs[i].phase.start);
    }
  }

  lemma StepKeepsEnrolled(c: CampaignId, maxAttempts: int, perHour: int, s: System, s': System)
    requires Enrolled(c, maxAttempts, perHour, s) && Step(c, maxAttempts, perHour, s, s')
    ensures Enrolled(c, maxAttempts, perHour, s')
  {
    if i :| 0 <= i < |s.jobs| && (Enqueue(s, s', i) || Dial(c, s, s', i)) {
      JobHasEffect(c, s, s', i);
      EffectKeepsEnrolled(c, maxAttempts, perHour, s, s', i);
    } else if OtherCall(c, s, s') {
      var lead: LeadId, campaign: Option<CampaignId>, at: int :|
        campaign != Some(c) && s' == s.(db := WithCall(s.db, lead, campaign, at));
      WithCallEnrolled(c, maxAttempts, perHour, s, lead, campaign, at);
    } else if Edit(c, maxAttempts, perHour, s, s') {
      forall l | (c, l) in s'.db.members ensures s'.db.members[(c, l)].attempts == Count(s'.db.calls, CallsFor(c, l)) {
        if (c, l) !in s.db.members { CountNone(s.db.calls, CallsFor(c, l)); }
      }
    }
  }

  lemma {:induction false} CountConcat<T>(xs: seq<T>, ys: seq<T>, q: T -> bool)
    ensures Count(xs + ys, q) == Count(xs, q) + Count(ys, q)
  {
    if ys == [] {
      assert xs + ys == xs;
    } else {
      var n := |ys| - 1;
      assert (xs + ys)[..|xs + ys| - 1] == xs + ys[..n];
      CountConcat(xs, ys[..n], q);
    }
  }

  /** A selected lead had an attempt left; any other is not concerned. */
  lemma SelectKeepsAttemptCap(c: CampaignId, maxAttempts: int, perHour: int, s: System, s': System, leads: seq<LeadId>,
                              lead: LeadId, p: nat)
    requires Enrolled(c, maxAttempts, perHour, s) && AttemptCap(maxAttempts, c, s, lead, p) && Select(c, s, s', leads)
    requires Count(s'.jobs, Outstanding(lead)) <= p
    ensures AttemptCap(maxAttempts, c, s', lead, p)
  {
    if k: nat :| k < |leads| && leads[k] == lead {
      CountImplies(s'.jobs, MayCall(lead), Outstanding(lead));
    } else {
      CountConcat(s.jobs, ChosenJobs(leads), MayCall(lead));
      CountNone(ChosenJobs(leads), MayCall(lead));
    }
  }

  lemma EffectKeepsAttemptCap(c: CampaignId, maxAttempts: int, s: System, s': System, i: nat, lead: LeadId, p: nat)
    requires AttemptCap(maxAttempts, c, s, lead, p) && i < |s.jobs| && JobEffect(c, s, s', i)
    ensures AttemptCap(maxAttempts, c, s', lead, p)
  {
    SetPhaseCounts(s, i, s'.jobs[i].phase, MayCall(lead));
    if s'.db.calls != s.db.calls {
      WithCallCounts(s.db, s.jobs[i].lead, Some(c), s.jobs[i].phase.start, CallsFor(c, lead));
    }
  }

  lemma StepKeepsAttemptCap(c: CampaignId, maxAttempts: int, perHour: int, s: System, s': System, lead: LeadId, p: nat)
    requires Enrolled(c, maxAttempts, perHour, s) && AttemptCap(maxAttempts, c, s, lead, p)
    requires Step(c, maxAttempts, perHour, s, s') && Count(s'.jobs, Outstanding(lead)) <= p
    ensures AttemptCap(maxAttempts, c, s', lead, p)
  {
    if leads :| Select(c, s, s', leads) {
      SelectKeepsAttemptCap(c, maxAttempts, perHour, s, s', leads, lead, p);
    } else if i :| 0 <= i < |s.jobs| && (Enqueue(s, s', i) || Dial(c, s, s', i)) {
      JobHasEffect(c, s, s', i);
      EffectKeepsAttemptCap(c, maxAttempts, s, s', i, lead, p);
    } else if OtherCall(c, s, s') {
      var l: LeadId, campaign: Option<CampaignId>, at: int :|
        campaign != Some(c) && s' == s.(db := WithCall(s.db, l, campaign, at));
      WithCallCounts(s.db, l, campaign, at, CallsFor(c, lead));
    }
  }

  // ---- The hourly cap -----------------------------------------------------

  /** Passing the hourly check means the window around it still has room. */
  lemma ClearedHasRoom(c: CampaignId, maxAttempts: int, perHour: int, s: System, lead: LeadId, at: Moment, from: int)
    requires Enrolled(c, maxAttempts, perHour, s) && Gate(s.db, Some(lead), Some(c), at).None?
    requires from <= at.txStart <= from + HOUR
    ensures Count(s.db.calls, CallsWithin(c, from)) <= perHour - 1
  {
    CountImplies(s.db.calls, CallsWithin(c, from), CallsOf(s.db.members, c, at.txStart - HOUR));
  }

  lemma DialKeepsHourlyCap(c: CampaignId, maxAttempts: int, perHour: int, s: System, s': System, i: nat, from: int,
                           p: nat)
    requires Enrolled(c, maxAttempts, perHour, s) && HourlyCap(perHour, c, s, from, p) && i < |s.jobs|
             && Dial(c, s, s', i)
    requires Count(s'.jobs, InFlight()) <= p
    ensures HourlyCap(perHour, c, s', from, p)
  {
    var j, j' := s.jobs[i], s'.jobs[i];
    SetPhaseCounts(s, i, j'.phase, InFlightWithin(from));
    if j'.phase.Cleared? {
      var at: Moment :| at.txStart == j.phase.start && Gate(s.db, Some(j.lead), Some(c), at).None?;
      if from <= at.txStart <= from + HOUR { ClearedHasRoom(c, maxAttempts, perHour, s, j.lead, at, from); }
    }
    CountImplies(s'.jobs, InFlightWithin(from), InFlight());
    if s'.db.calls != s.db.calls {
      WithCallCounts(s.db, j.lead, Some(c), j.phase.start, CallsWithin(c, from));
    }
  }

  lemma StepKeepsHourlyCap(c: CampaignId, maxAttempts: int, perHour: int, s: System, s': System, from: int, p: nat)
    requires Enrolled(c, maxAttempts, perHour, s) && HourlyCap(perHour, c, s, from, p)
    requires Step(c, maxAttempts, perHour, s, s') && Count(s'.jobs, InFlight()) <= p
    ensures HourlyCap(perHour, c, s', from, p)
  {
    if leads :| Select(c, s, s', leads) {
      CountConcat(s.jobs, ChosenJobs(leads), InFlightWithin(from));
      CountNone(ChosenJobs(leads), InFlightWithin(from));
    } else if i :| 0 <= i < |s.jobs| && Enqueue(s, s', i) {
      SetPhaseCounts(s, i, s'.jobs[i].phase, InFlightWithin(from));
    } else if i :| 0 <= i < |s.jobs| && Dial(c, s, s', i) {
      DialKeepsHourlyCap(c, maxAttempts, perHour, s, s', i, from, p);
    } else if OtherCall(c, s, s') {
      var l: LeadId, campaign: Option<CampaignId>, at: int :|
        campaign != Some(c) && s' == s.(db := WithCall(s.db, l, campaign, at));
      WithCallCounts(s.db, l, campaign, at, CallsWithin(c, from));
    }
  }

  // ---- Over every run -----------------------------------------------------

  lemma {:induction false} EveryStateEnrolled(c: CampaignId, maxAttempts: int, perHour: int, trace: seq<System>, k: nat)
    requires Execution(c, maxAttempts, perHour, trace) && k < |trace|
    ensures Enrolled(c, maxAttempts, perHour, trace[k])
  {
    if k > 0 {
      EveryStateEnrolled(c, maxAttempts, perHour, trace, k - 1);
      StepKeepsEnrolled(c, maxAttempts, perHour, trace[k - 1], trace[k]);
    }
  }

  lemma {:induction false} EveryStateCapped(c: CampaignId, maxAttempts: int, perHour: int, trace: seq<System>, k: nat,
                                            lead: LeadId, p: nat)
    requires Execution(c, maxAttempts, perHour, trace) && k < |trace| && LeadOverlap(trace, lead, p)
    ensures AttemptCap(maxAttempts, c, trace[k], lead, p)
  {
    if k > 0 {
      EveryStateCapped(c, maxAttempts, perHour, trace, k - 1, lead, p);
      EveryStateEnrolled(c, maxAttempts, perHour, trace, k - 1);
      StepKeepsAttemptCap(c, maxAttempts, perHour, trace[k - 1], trace[k], lead, p);
    }
  }

  lemma {:induction false} EveryHourCapped(c: CampaignId, maxAttempts: int, perHour: int, trace: seq<System>, k: nat,
                                           from: int, p: nat)
    requires Execution(c, maxAttempts, perHour, trace) && k < |trace| && DialOverlap(trace, p)
    ensures HourlyCap(perHour, c, trace[k], from, p)
  {
    if k > 0 {
      EveryHourCapped(c, maxAttempts, perHour, trace, k - 1, from, p);
      EveryStateEnrolled(c, maxAttempts, perHour, trace, k - 1);
      StepKeepsHourlyCap(c, maxAttempts, perHour, trace[k - 1], trace[k], from, p);
    }
  }

  /**
   * A lead's attempt counter is the number of calls committed for it; with at
   * most `p` of its calls on their way at a time it stays below maxAttempts + p.
   */
  lemma AttemptsCounted(c: CampaignId, maxAttempts: int, perHour: int, trace: seq<System>, k: nat, lead: LeadId, p: nat)
    requires Execution(c, maxAttempts, perHour, trace) && k < |trace| && (c, lead) in trace[k].db.members
    ensures trace[k].db.members[(c, lead)].attempts == Count(trace[k].db.calls, CallsFor(c, lead))
    ensures LeadOverlap(trace, lead, p) ==> trace[k].db.members[(c, lead)].attempts <= Max(0, maxAttempts - 1 + p)
  {
    EveryStateEnrolled(c, maxAttempts, perHour, trace, k);
    if LeadOverlap(trace, lead, p) { EveryStateCapped(c, maxAttempts, perHour, trace, k, lead, p); }
  }

  /**
   * With at most `p` dials between gates and commit at a time, every closed
   * one-hour interval, wherever it begins, holds fewer than perHour + p calls.
   */
  lemma HourlyWindow(c: CampaignId, maxAttempts: int, perHour: int, trace: seq<System>, k: nat, from: int, p: nat)
    requires Execution(c, maxAttempts, perHour, trace) && k < |trace| && DialOverlap(trace, p)
    ensures Count(trace[k].db.calls, CallsWithin(c, from)) <= Max(0, perHour - 1 + p)
  {
    EveryHourCapped(c, maxAttempts, perHour, trace, k, from, p);
  }

  /** Before state `k` a dial of the lead was permitted, in a transaction begun at `start`. */
  ghost predicate Gated(c: CampaignId, trace: seq<System>, k: nat, lead: LeadId, start: int) {
    exists j: nat, i: nat, at: Moment ::
      GatedAt(c, trace, k, lead, start, j, i, at)
  }

  ghost predicate GatedAt(c: CampaignId, trace: seq<System>, k: nat, lead: LeadId, start: int, j: nat, i: nat,
                          at: Moment) {
    && j < k < |trace| && i < |trace[j].jobs| && trace[j].jobs[i] == Job(lead, Begun(start))
    && at.txStart == start && Permitted(trace[j].db, lead, Some(c), at)
  }

  lemma {:induction false} DialsGated(c: CampaignId, maxAttempts: int, perHour: int, trace: seq<System>, k: nat, i: nat)
    requires Execution(c, maxAttempts, perHour, trace) && k < |trace| && i < |trace[k].jobs|
             && trace[k].jobs[i].phase.Cleared?
    ensures Gated(c, trace, k, trace[k].jobs[i].lead, trace[k].jobs[i].phase.start)
  {
    if k > 0 {
      var s, s', lead, start := trace[k - 1], trace[k], trace[k].jobs[i].lead, trace[k].jobs[i].phase.start;
      assert Step(c, maxAttempts, perHour, s, s');
      if i < |s.jobs| && s.jobs[i] == s'.jobs[i] {
        DialsGated(c, maxAttempts, perHour, trace, k - 1, i);
        var j: nat, l: nat, at: Moment :| GatedAt(c, trace, k - 1, lead, start, j, l, at);
        assert GatedAt(c, trace, k, lead, start, j, l, at);
      } else {
        ClearedNow(c, maxAttempts, perHour, s, s', i);
        var at: Moment :| at.txStart == start && Gate(s.db, Some(lead), Some(c), at).None?;
        GatesPermit(s.db, lead, Some(c), at);
        assert GatedAt(c, trace, k, lead, start, k - 1, i, at);
      }
    }
  }

  lemma SelectClearsNone(c: CampaignId, s: System, s': System, leads: seq<LeadId>, i: nat)
    requires Select(c, s, s', leads) && i < |s'.jobs|
    ensures if i < |s.jobs| then s'.jobs[i] == s.jobs[i] else s'.jobs[i].phase.Chosen?
  {
  }

  /** Only the gates clear a dial. */
  lemma ClearedNow(c: CampaignId, maxAttempts: int, perHour: int, s: System, s': System, i: nat)
    requires Step(c, maxAttempts, perHour, s, s') && i < |s'.jobs| && s'.jobs[i].phase.Cleared?
    requires i < |s.jobs| ==> s.jobs[i] != s'.jobs[i]
    ensures i < |s.jobs| && s.jobs[i] == Job(s'.jobs[i].lead, Begun(s'.jobs[i].phase.start)) && !WalletBlocks(s.db)
    ensures exists at: Moment ::
              at.txStart == s'.jobs[i].phase.start && Gate(s.db, Some(s'.jobs[i].lead), Some(c), at).None?
  {
    if leads :| Select(c, s, s', leads) {
      SelectClearsNone(c, s, s', leads, i);
    } else if m :| 0 <= m < |s.jobs| && (Enqueue(s, s', m) || Dial(c, s, s', m)) {
      assert m == i;
    }
  }

  /** Every call the campaign has made was permitted in an earlier state, in a transaction with the same start. */
  lemma {:induction false} CallsGated(c: CampaignId, maxAttempts: int, perHour: int, trace: seq<System>, k: nat, n: nat)
    requires Execution(c, maxAttempts, perHour, trace) && k < |trace| && n < |trace[k].db.calls|
    requires trace[k].db.calls[n].campaign == Some(c)
    ensures Gated(c, trace, k, trace[k].db.calls[n].lead, trace[k].db.calls[n].createdAt)
  {
    if k > 0 {
      var s, s', call := trace[k - 1], trace[k], trace[k].db.calls[n];
      assert Step(c, maxAttempts, perHour, s, s');
      var i := CallFrom(c, maxAttempts, perHour, s, s', n);
      if n < |s.db.calls| {
        CallsGated(c, maxAttempts, perHour, trace, k - 1, n);
      } else {
        DialsGated(c, maxAttempts, perHour, trace, k - 1, i);
      }
      var j: nat, l: nat, at: Moment :| GatedAt(c, trace, k - 1, call.lead, call.createdAt, j, l, at);
      assert GatedAt(c, trace, k, call.lead, call.createdAt, j, l, at);
    }
  }

  /** A call of the campaign was there before, or is a cleared dial's. */
  lemma CallFrom(c: CampaignId, maxAttempts: int, perHour: int, s: System, s': System, n: nat) returns (i: nat)
    requires Step(c, maxAttempts, perHour, s, s') && n < |s'.db.calls| && s'.db.calls[n].campaign == Some(c)
    ensures n < |s.db.calls| ==> s.db.calls[n] == s'.db.calls[n]
    ensures n >= |s.db.calls| ==>
      && i < |s.jobs| && s.jobs[i].phase.Cleared?
      && s'.db.calls[n].lead == s.jobs[i].lead && s'.db.calls[n].createdAt == s.jobs[i].phase.start
  {
    i := 0;
    if m :| 0 <= m < |s.jobs| && (Enqueue(s, s', m) || Dial(c, s, s', m)) {
      JobHasEffect(c, s, s', m);
      EffectCalls(c, s, s', m, n);
      i := m;
    }
  }

  lemma EffectCalls(c: CampaignId, s: System, s': System, i: nat, n: nat)
    requires i < |s.jobs| && JobEffect(c, s, s', i) && n < |s'.db.calls|
    ensures n < |s.db.calls| ==> s.db.calls[n] == s'.db.calls[n]
    ensures n >= |s.db.calls| ==>
      && s.jobs[i].phase.Cleared?
      && s'.db.calls[n].lead == s.jobs[i].lead && s'.db.calls[n].createdAt == s.jobs[i].phase.start
  {
  }

  predicate Consented(k: Compliance, now: int) {
    !k.optedOut && k.consent == Granted && (k.expiresAt.Some? ==> now <= k.expiresAt.value)
  }

  // ---- Single transactions ------------------------------------------------

  /**
   * A call that is placed had passed both gates in its own transaction; one
   * that is not leaves every table as it was, the guard's alert included.
   */
  lemma CallAllOrNothing(db: Db, lead: Option<LeadId>, campaign: Option<CampaignId>, at: Moment, reply: ProviderReply)
    ensures var (db', o) := CreateCall(db, lead, campaign, at, reply);
            && (!o.Placed? ==> db' == db)
            && db'.alerts == db.alerts
            && (o.Placed? <==> Gate(db, lead, campaign, at).None? && !WalletBlocks(db) && reply == ProviderPlaced)
            && (o.Placed? ==> lead.Some? && lead.value in db.compliance && Consented(db.compliance[lead.value], at.now))
  {
  }

  /** The three steps of a dial that nothing overtakes are one gated call. */
  lemma UninterruptedDial(c: CampaignId, s0: System, s1: System, s2: System, s3: System, i: nat, at: Moment)
    requires i < |s0.jobs| && s0.jobs[i].phase.Queued? && Dial(c, s0, s1, i) && s1.jobs[i].phase == Begun(at.txStart)
    requires s2.db == s1.db && i < |s2.jobs| && s2.jobs[i] == s1.jobs[i].(phase := Cleared(at.txStart))
    requires Gate(s1.db, Some(s0.jobs[i].lead), Some(c), at).None? && !WalletBlocks(s1.db)
    requires Dial(c, s2, s3, i) && s3.db != s2.db
    ensures s3.db == CreateCall(s0.db, Some(s0.jobs[i].lead), Some(c), at, ProviderPlaced).0
  {
  }

  /** A disposition that nothing overtakes is scheduleNextAttempt as a whole. */
  lemma UninterruptedDisposition(db: Db, key: (CampaignId, LeadId), d: string, terminal: seq<string>, at: int)
    ensures AfterDisposition(db, key, d, terminal, at)
         == if key.0 in db.campaigns then Rescheduled(db, ReadingOf(db, key, d, terminal), at) else db
  {
  }

  /** What it makes of a member, for every current status: only members with attempts left go back to pending. */
  lemma DispositionDecides(db: Db, key: (CampaignId, LeadId), d: string, terminal: seq<string>, now: int)
    requires key in db.members && key.0 in db.campaigns
    ensures var m, m' := db.members[key], AfterDisposition(db, key, d, terminal, now).members[key];
            && m'.attempts == m.attempts && m'.lastCall == m.lastCall
            && (m'.status == Pending <==> d !in terminal && m.attempts < db.campaigns[key.0].maxAttempts)
            && (m'.status == Completed <==> d in terminal && m.attempts < db.campaigns[key.0].maxAttempts)
            && (m'.status == Exhausted <==> m.attempts >= db.campaigns[key.0].maxAttempts)
  {
  }

  /** Whether the attempts that were read, and those made by now, are on the same side of the cap. */
  predicate SameSide(db: Db, r: Reading)
    requires r.key in db.members && r.key.0 in db.campaigns
  {
    r.attempts >= r.maxAttempts <==> db.members[r.key].attempts >= db.campaigns[r.key.0].maxAttempts
  }

  /**
   * One that is overtaken, by a dial that commits or by an edit, leaves the
   * status it would leave now if and only if the cap is still on the same side;
   * pending members may have no attempt left.
   */
  lemma OvertakenDispositionExactly(db: Db, r: Reading, at: int)
    requires r.key in db.members && r.key.0 in db.campaigns
    ensures var now := AfterDisposition(db, r.key, r.disposition, r.terminal, at).members[r.key];
            Rescheduled(db, r, at).members[r.key].status == now.status <==> SameSide(db, r)
    ensures Rescheduled(db, r, at).members[r.key].attempts == db.members[r.key].attempts
  {
  }
}
