/**
 * Placing an outbound call and dialling a campaign: the compliance gate
 * (lib/compliance/gate.ts), the wallet guard (lib/billing/callGuard.ts), the
 * gated transaction (lib/calls/createCall.ts) and the dialer
 * (lib/campaigns/dialer.ts), for one organisation. Times are milliseconds.
 */
module Campaign {
  import opened Common

  type LeadId = nat
  type CampaignId = nat

  datatype Consent = Granted | Revoked | Unknown
  datatype Compliance = Compliance(consent: Consent, expiresAt: Option<int>, isDnd: bool, optedOut: bool)
  datatype CampaignStatus = Draft | Active | Paused | Closed | Archived
  datatype RetryStep = RetryStep(attempt: int, delayMinutes: int)
  datatype Settings = Settings(status: CampaignStatus, callingDays: set<int>, hourStart: int, hourEnd: int,
                               maxCallsPerHour: int, maxAttempts: int, schedule: seq<RetryStep>)
  datatype MemberStatus = Pending | InProgress | Completed | Exhausted | Blocked
  datatype Member = Member(status: MemberStatus, attempts: int, nextAt: int, disposition: Option<string>,
                           lastCall: Option<nat>)
  datatype Plan = Subscription | PayAsYouGo | PrepaidWallet | PostpaidEnterprise | Hybrid

  /** `campaign` is not a column: it records for which campaign the call was placed. */
  datatype Call = Call(lead: LeadId, createdAt: int, campaign: Option<CampaignId>)
  datatype Alert = CallBlocked(balance: int)
  datatype DialJob = DialJob(campaign: CampaignId, lead: LeadId)

  datatype Db = Db(phones: map<LeadId, string>, compliance: map<LeadId, Compliance>,
                   campaigns: map<CampaignId, Settings>, members: map<(CampaignId, LeadId), Member>,
                   calls: seq<Call>, plan: Option<Plan>, balance: Option<int>, alerts: seq<Alert>)

  const HOUR := 3_600_000

  // ---- The gates ----------------------------------------------------------

  datatype Refusal =
    | OptedOut | DndWithoutConsent | NoConsent | ConsentExpired | NoLead
    | NoCampaign | CampaignNotActive | WrongDay | WrongHour | HourlyCapReached

  /** The process clock, the transaction's start time, and the campaign's local hour and ISO weekday. */
  datatype Moment = Moment(now: int, txStart: int, hour: int, weekday: int)

  function CallsOf(members: map<(CampaignId, LeadId), Member>, campaign: CampaignId, since: int): Call -> bool {
    (c: Call) => c.createdAt >= since && (campaign, c.lead) in members
  }

  function ConsentRefusal(db: Db, lead: LeadId, now: int): Option<Refusal> {
    if lead !in db.compliance then Some(NoConsent)
    else
      var c := db.compliance[lead];
      if c.optedOut then Some(OptedOut)
      else if c.isDnd && c.consent != Granted then Some(DndWithoutConsent)
      else if c.consent != Granted then Some(NoConsent)
      else if c.expiresAt.Some? && c.expiresAt.value < now then Some(ConsentExpired)
      else None
  }

  function CampaignRefusal(db: Db, campaign: CampaignId, at: Moment): Option<Refusal> {
    if campaign !in db.campaigns then Some(NoCampaign)
    else
      var s := db.campaigns[campaign];
      if s.status != Active then Some(CampaignNotActive)
      else if at.weekday !in s.callingDays then Some(WrongDay)
      else if at.hour < s.hourStart || at.hour >= s.hourEnd then Some(WrongHour)
      else if Count(db.calls, CallsOf(db.members, campaign, at.txStart - HOUR)) >= s.maxCallsPerHour
      then Some(HourlyCapReached)
      else None
  }

  /** assertCallIsCompliant: None lets the call through. */
  function Gate(db: Db, lead: Option<LeadId>, campaign: Option<CampaignId>, at: Moment): Option<Refusal> {
    if lead.None? then Some(NoLead)
    else if ConsentRefusal(db, lead.value, at.now).Some? then ConsentRefusal(db, lead.value, at.now)
    else if campaign.None? then None
    else CampaignRefusal(db, campaign.value, at)
  }

  function Balance(db: Db): int { if db.balance.Some? then db.balance.value else 0 }

  predicate WalletGated(db: Db) { db.plan == Some(PrepaidWallet) || db.plan == Some(Hybrid) }

  predicate WalletBlocks(db: Db) { WalletGated(db) && Balance(db) <= 0 }

  // ---- One call -----------------------------------------------------------

  datatype ProviderReply = ProviderPlaced | ProviderNotConfigured | ProviderThrew
  datatype CallOutcome =
    | Placed(id: nat) | ComplianceBlocked(why: Refusal) | ZeroBalanceBlocked | NotConfigured | ProviderFailed

  /** What the inserting part of the transaction leaves behind. */
  function WithCall(db: Db, lead: LeadId, campaign: Option<CampaignId>, at: int): Db {
    var called := db.(calls := db.calls + [Call(lead, at, campaign)]);
    if campaign.Some? && (campaign.value, lead) in db.members then
      var m := db.members[(campaign.value, lead)];
      called.(members := db.members[(campaign.value, lead) :=
                m.(status := InProgress, attempts := m.attempts + 1, lastCall := Some(|db.calls|))])
    else called
  }

  /** createOutboundCall, running alone. */
  function CreateCall(db: Db, lead: Option<LeadId>, campaign: Option<CampaignId>, at: Moment, reply: ProviderReply)
    : (Db, CallOutcome)
  {
    var refusal := Gate(db, lead, campaign, at);
    if refusal.Some? then (db, ComplianceBlocked(refusal.value))
    else if WalletBlocks(db) then (db, ZeroBalanceBlocked)
    else match reply
      case ProviderNotConfigured => (db, NotConfigured)
      case ProviderThrew => (db, ProviderFailed)
      case ProviderPlaced => (WithCall(db, lead.value, campaign, at.txStart), Placed(|db.calls|))
  }

  // ---- The dialer ---------------------------------------------------------

  predicate TickDue(db: Db, key: (CampaignId, LeadId), now: int) {
    && key in db.members && key.0 in db.campaigns
    && db.campaigns[key.0].status == Active
    && db.members[key].status == Pending && db.members[key].nextAt <= now
    && db.members[key].attempts < db.campaigns[key.0].maxAttempts
  }

  const TICK_LIMIT := 200

  function WithStatus(db: Db, key: (CampaignId, LeadId), status: MemberStatus): Db {
    if key in db.members then db.(members := db.members[key := db.members[key].(status := status)]) else db
  }

  const TERMINAL: seq<string> := ["connected", "converted", "not_interested", "dnd_request"]

  predicate HasAttempt(schedule: seq<RetryStep>, attempt: int) {
    exists i :: 0 <= i < |schedule| && schedule[i].attempt == attempt
  }

  /** The schedule's entry for `attempt`, else its last entry, else no delay. */
  function DelayFor(schedule: seq<RetryStep>, attempt: int): int {
    if schedule == [] then 0
    else if schedule[0].attempt == attempt || (|schedule| == 1) then schedule[0].delayMinutes
    else if HasAttempt(schedule, attempt) then DelayFor(schedule[1..], attempt)
    else schedule[|schedule| - 1].delayMinutes
  }

  /** scheduleNextAttempt; it never looks at the member's current status. */
  function AfterDisposition(db: Db, key: (CampaignId, LeadId), disposition: string, terminal: seq<string>,
                            now: int): Db {
    if key.0 !in db.campaigns || key !in db.members then db
    else
      var s, m := db.campaigns[key.0], db.members[key];
      var m' :=
        if disposition in terminal || m.attempts >= s.maxAttempts
        then m.(status := if m.attempts >= s.maxAttempts then Exhausted else Completed,
                disposition := Some(disposition))
        else m.(status := Pending, disposition := Some(disposition),
                nextAt := now + DelayFor(s.schedule, m.attempts + 1) * 60_000);
      db.(members := db.members[key := m'])
  }

  // ---- The statements, in order, in one process ---------------------------

  class CampaignDb {
    const phones: map<LeadId, string>
    const compliance: map<LeadId, Compliance>
    const campaigns: map<CampaignId, Settings>
    const plan: Option<Plan>
    const balance: Option<int>
    var members: map<(CampaignId, LeadId), Member>
    var calls: seq<Call>
    var alerts: seq<Alert>
    var jobs: seq<DialJob>

    function Contents(): Db
      reads this
    {
      Db(phones, compliance, campaigns, members, calls, plan, balance, alerts)
    }

    constructor (db: Db)
      ensures Contents() == db && jobs == []
    {
      phones, compliance, campaigns, plan, balance := db.phones, db.compliance, db.campaigns, db.plan, db.balance;
      members, calls, alerts, jobs := db.members, db.calls, db.alerts, [];
    }

    /** The guard's alert is written before the guard throws. */
    method AssertWalletHasBalance() returns (ok: bool)
      modifies this`alerts
      ensures ok <==> !WalletBlocks(Contents())
      ensures alerts == if ok then old(alerts) else old(alerts) + [CallBlocked(Balance(Contents()))]
    {
      if plan != Some(PrepaidWallet) && plan != Some(Hybrid) { return true; }
      var amount := if balance.Some? then balance.value else 0;
      if amount <= 0 {
        alerts := alerts + [CallBlocked(amount)];
        return false;
      }
      return true;
    }

    method CreateOutboundCall(lead: Option<LeadId>, campaign: Option<CampaignId>, at: Moment, reply: ProviderReply)
      returns (outcome: CallOutcome)
      modifies this`members, this`calls, this`alerts
      ensures (Contents(), outcome) == CreateCall(old(Contents()), lead, campaign, at, reply)
    {
      var savedMembers, savedCalls, savedAlerts := members, calls, alerts;  // BEGIN
      var refusal := Gate(Contents(), lead, campaign, at);
      if refusal.Some? { return ComplianceBlocked(refusal.value); }
      var funded := AssertWalletHasBalance();
      if !funded {
        members, calls, alerts := savedMembers, savedCalls, savedAlerts;  // ROLLBACK
        return ZeroBalanceBlocked;
      }
      if reply == ProviderNotConfigured { return NotConfigured; }
      if reply == ProviderThrew { return ProviderFailed; }
      var id := |calls|;
      calls := calls + [Call(lead.value, at.txStart, campaign)];
      if campaign.Some? && (campaign.value, lead.value) in members {
        var m := members[(campaign.value, lead.value)];
        members := members[(campaign.value, lead.value) :=
          m.(status := InProgress, attempts := m.attempts + 1, lastCall := Some(id))];
      }
      return Placed(id);  // COMMIT
    }

    /** One dial job per due member, at most 200; the members themselves are left as they are. */
    method EnqueueDueCampaignLeads(now: int) returns (n: nat)
      modifies this`jobs
      ensures n <= 200 && |jobs| == |old(jobs)| + n && jobs[..|old(jobs)|] == old(jobs)
      ensures Distinct(jobs[|old(jobs)|..])
      ensures forall k :: |old(jobs)| <= k < |jobs| ==> TickDue(Contents(), (jobs[k].campaign, jobs[k].lead), now)
      ensures n < 200 ==> forall key :: TickDue(Contents(), key, now) ==>
              DialJob(key.0, key.1) in jobs[|old(jobs)|..]
    {
      n := 0;
      var due := set key | key in members.Keys && TickDue(Contents(), key, now);
      while due != {} && n < TICK_LIMIT
        invariant n <= TICK_LIMIT && |jobs| == |old(jobs)| + n && jobs[..|old(jobs)|] == old(jobs)
        invariant Distinct(jobs[|old(jobs)|..])
        invariant forall key :: key in due ==>
                  TickDue(Contents(), key, now) && DialJob(key.0, key.1) !in jobs[|old(jobs)|..]
        invariant forall k :: |old(jobs)| <= k < |jobs| ==> TickDue(Contents(), (jobs[k].campaign, jobs[k].lead), now)
        invariant forall key :: TickDue(Contents(), key, now) ==>
                  key in due || DialJob(key.0, key.1) in jobs[|old(jobs)|..]
        decreases |due|
      {
        var key :| key in due;
        ghost var queued := jobs[|old(jobs)|..];
        jobs := jobs + [DialJob(key.0, key.1)];
        assert jobs[|old(jobs)|..] == queued + [DialJob(key.0, key.1)];
        due := due - {key};
        n := n + 1;
      }
    }

    /** Returns false where the handler throws and the queue is to retry the job. */
    method ProcessCampaignDialJob(job: DialJob, at: Moment, reply: ProviderReply) returns (finished: bool)
      modifies this`members, this`calls, this`alerts
      ensures var db := old(Contents());
        if job.lead !in db.phones || db.phones[job.lead] == ""
        then finished && Contents() == WithStatus(db, (job.campaign, job.lead), Blocked)
        else
          var (db', o) := CreateCall(db, Some(job.lead), Some(job.campaign), at, reply);
          && (finished <==> !o.NotConfigured? && !o.ProviderFailed?)
          && Contents() == if o.ComplianceBlocked? || o.ZeroBalanceBlocked?
                           then WithStatus(db, (job.campaign, job.lead), Blocked) else db'
    {
      if job.lead !in phones || phones[job.lead] == "" {
        MarkBlocked(job);
        return true;
      }
      var outcome := CreateOutboundCall(Some(job.lead), Some(job.campaign), at, reply);
      if outcome.ComplianceBlocked? || outcome.ZeroBalanceBlocked? {
        MarkBlocked(job);
        return true;
      }
      return outcome.Placed?;
    }

    method MarkBlocked(job: DialJob)
      modifies this`members
      ensures Contents() == WithStatus(old(Contents()), (job.campaign, job.lead), Blocked)
    {
      if (job.campaign, job.lead) in members {
        members := members[(job.campaign, job.lead) := members[(job.campaign, job.lead)].(status := Blocked)];
      }
    }

    method ScheduleNextAttempt(key: (CampaignId, LeadId), disposition: string, terminal: Option<seq<string>>, now: int)
      modifies this`members
      ensures Contents() == AfterDisposition(old(Contents()), key, disposition,
                                             if terminal.Some? then terminal.value else TERMINAL, now)
    {
      if key.0 !in campaigns { return; }
      var final := if terminal.Some? then terminal.value else TERMINAL;
      if key !in members { return; }  // the UPDATE below matches no row
      var m := members[key];
      var maxAttempts := campaigns[key.0].maxAttempts;
      if disposition in final || m.attempts >= maxAttempts {
        members := members[key := m.(status := if m.attempts >= maxAttempts then Exhausted else Completed,
                                     disposition := Some(disposition))];
        return;
      }
      var schedule := campaigns[key.0].schedule;
      var delay := FindDelay(schedule, m.attempts + 1);
      var m' := m.(status := Pending, disposition := Some(disposition), nextAt := now + delay * 60_000);
      members := members[key := m'];
    }
  }

  /** Entry `i` is the first of the schedule for this attempt. */
  predicate FirstFor(schedule: seq<RetryStep>, attempt: int, i: int) {
    0 <= i < |schedule| && schedule[i].attempt == attempt && forall k :: 0 <= k < i ==> schedule[k].attempt != attempt
  }

  /** The delay is that of the first matching entry, whatever follows it. */
  lemma {:induction false} DelayIsFirstMatch(schedule: seq<RetryStep>, attempt: int, i: nat)
    requires FirstFor(schedule, attempt, i)
    ensures DelayFor(schedule, attempt) == schedule[i].delayMinutes
  {
    DelayUnfolds(schedule, attempt);
    if i > 0 { DelayIsFirstMatch(schedule[1..], attempt, i - 1); }
  }

  /** schedule.find(...) ?? schedule[schedule.length - 1] */
  method FindDelay(schedule: seq<RetryStep>, attempt: int) returns (delay: int)
    ensures delay == DelayFor(schedule, attempt)
    ensures HasAttempt(schedule, attempt) ==>
      exists i :: FirstFor(schedule, attempt, i) && delay == schedule[i].delayMinutes
    ensures !HasAttempt(schedule, attempt)
            ==> delay == if schedule == [] then 0 else schedule[|schedule| - 1].delayMinutes
  {
    for i := 0 to |schedule|
      invariant forall k :: 0 <= k < i ==> schedule[k].attempt != attempt
      invariant DelayFor(schedule, attempt) == if i < |schedule| then DelayFor(schedule[i..], attempt)
                                               else if schedule == [] then 0 else schedule[|schedule| - 1].delayMinutes
    {
      DelayUnfolds(schedule[i..], attempt);
      if schedule[i].attempt == attempt {
        assert FirstFor(schedule, attempt, i);
        return schedule[i].delayMinutes;
      }
      assert i + 1 < |schedule| ==> schedule[i..][1..] == schedule[i + 1..];
    }
    return if schedule == [] then 0 else schedule[|schedule| - 1].delayMinutes;
  }

  /** The delay is that of the first entry for the attempt, or of the last entry when there is none. */
  lemma {:induction false} DelayUnfolds(schedule: seq<RetryStep>, attempt: int)
    ensures schedule == [] ==> DelayFor(schedule, attempt) == 0
    ensures |schedule| > 1 && schedule[0].attempt != attempt
            ==> DelayFor(schedule, attempt) == DelayFor(schedule[1..], attempt)
    ensures schedule != [] && !HasAttempt(schedule, attempt)
            ==> DelayFor(schedule, attempt) == schedule[|schedule| - 1].delayMinutes
  {
    if |schedule| > 1 && schedule[0].attempt != attempt {
      DelayUnfolds(schedule[1..], attempt);
      if HasAttempt(schedule, attempt) {
      } else {
        assert forall i :: 0 <= i < |schedule[1..]| ==> schedule[1..][i] == schedule[i + 1];
      }
    }
  }

  // ---- What the gates amount to -------------------------------------------

  /** Everything that must hold of the tables for a call to this lead, the campaign's part only with a campaign. */
  ghost predicate Permitted(db: Db, lead: LeadId, campaign: Option<CampaignId>, at: Moment) {
    && lead in db.compliance
    && var consent := db.compliance[lead];
    && consent.consent == Granted && !consent.optedOut
    && (consent.expiresAt.None? || at.now <= consent.expiresAt.value)
    && (campaign.Some? ==> Open(db, campaign.value, at))
    && (db.plan == Some(PrepaidWallet) || db.plan == Some(Hybrid) ==> db.balance.Some? && db.balance.value > 0)
  }

  /** The campaign may call now, and has not used up the last hour's calls. */
  ghost predicate Open(db: Db, campaign: CampaignId, at: Moment) {
    && campaign in db.campaigns
    && var settings := db.campaigns[campaign];
    && settings.status == Active && at.weekday in settings.callingDays
    && settings.hourStart <= at.hour < settings.hourEnd
    && |RecentCalls(db, campaign, at)| < settings.maxCallsPerHour
  }

  /** The calls of the last hour to leads enrolled in the campaign, whoever placed them. */
  ghost function RecentCalls(db: Db, campaign: CampaignId, at: Moment): set<nat> {
    set i: nat | i < |db.calls| && at.txStart - 3_600_000 <= db.calls[i].createdAt
                 && (campaign, db.calls[i].lead) in db.members
  }

  lemma RecentCallsCounted(db: Db, campaign: CampaignId, at: Moment)
    ensures Count(db.calls, CallsOf(db.members, campaign, at.txStart - HOUR)) == |RecentCalls(db, campaign, at)|
  {
    var recent := CallsOf(db.members, campaign, at.txStart - HOUR);
    CountIsCard(db.calls, recent);
    assert Positions(db.calls, recent) == RecentCalls(db, campaign, at);
  }

  lemma GatesPermit(db: Db, lead: LeadId, campaign: Option<CampaignId>, at: Moment)
    ensures Gate(db, Some(lead), campaign, at).None? && !WalletBlocks(db) <==> Permitted(db, lead, campaign, at)
  {
    if campaign.Some? { RecentCallsCounted(db, campaign.value, at); }
  }

  /** A call is placed exactly when it is permitted and the provider takes it. */
  lemma PlacedExactly(db: Db, lead: Option<LeadId>, campaign: Option<CampaignId>, at: Moment, reply: ProviderReply)
    ensures CreateCall(db, lead, campaign, at, reply).1.Placed? <==>
            lead.Some? && Permitted(db, lead.value, campaign, at) && reply == ProviderPlaced
  {
    if lead.Some? { GatesPermit(db, lead.value, campaign, at); }
  }

  /** A placed call is one new row; of the members only its own changes, and of that three columns. */
  lemma PlacedWrites(db: Db, lead: Option<LeadId>, campaign: Option<CampaignId>, at: Moment, reply: ProviderReply)
    requires CreateCall(db, lead, campaign, at, reply).1.Placed?
    ensures lead.Some?
    ensures var (db', o) := CreateCall(db, lead, campaign, at, reply);
            && o.id == |db.calls| && db'.calls == db.calls + [Call(lead.value, at.txStart, campaign)]
            && db' == db.(calls := db'.calls, members := db'.members)
            && db'.members.Keys == db.members.Keys
            && forall key :: key in db.members ==>
                 var m, m' := db.members[key], db'.members[key];
                 if campaign.Some? && key == (campaign.value, lead.value)
                 then m' == Member(InProgress, m.attempts + 1, m.nextAt, m.disposition, Some(o.id))
                 else m' == m
  {
  }

  /** Why a call is refused for want of consent: the reasons exclude one another and leave out no case. */
  lemma ConsentReasons(db: Db, lead: Option<LeadId>, campaign: Option<CampaignId>, at: Moment)
    ensures Gate(db, lead, campaign, at) == Some(NoLead) <==> lead.None?
    ensures lead.Some? && lead.value !in db.compliance ==> Gate(db, lead, campaign, at) == Some(NoConsent)
    ensures lead.Some? && lead.value in db.compliance ==>
              var row, why := db.compliance[lead.value], Gate(db, lead, campaign, at);
              && (why == Some(OptedOut) <==> row.optedOut)
              && (why == Some(DndWithoutConsent) <==> !row.optedOut && row.isDnd && row.consent != Granted)
              && (why == Some(NoConsent) <==> !row.optedOut && !row.isDnd && row.consent != Granted)
              && (why == Some(ConsentExpired) <==>
                    !row.optedOut && row.consent == Granted && row.expiresAt.Some? && row.expiresAt.value < at.now)
  {
  }

  /** Why a call to a consenting lead is refused by its campaign. */
  lemma CampaignReasons(db: Db, lead: LeadId, c: CampaignId, at: Moment)
    requires Permitted(db, lead, None, at)
    ensures var why := Gate(db, Some(lead), Some(c), at);
            && (why == Some(NoCampaign) <==> c !in db.campaigns)
            && (c in db.campaigns ==>
                  var s := db.campaigns[c];
                  var inHours := s.hourStart <= at.hour < s.hourEnd;
                  && (why == Some(CampaignNotActive) <==> s.status != Active)
                  && (why == Some(WrongDay) <==> s.status == Active && at.weekday !in s.callingDays)
                  && (why == Some(WrongHour) <==> s.status == Active && at.weekday in s.callingDays && !inHours)
                  && (why == Some(HourlyCapReached) <==>
                        s.status == Active && at.weekday in s.callingDays && inHours
                        && |RecentCalls(db, c, at)| >= s.maxCallsPerHour))
  {
    RecentCallsCounted(db, c, at);
  }

  // ---- When a member is due again -----------------------------------------

  /**
   * After a disposition the member is due again from its delay on, if the
   * disposition is not final and an attempt is left, and otherwise never.
   */
  lemma DueAgainExactly(db: Db, key: (CampaignId, LeadId), d: string, terminal: seq<string>, now: int, later: int)
    requires key in db.members && key.0 in db.campaigns
    ensures var s, m := db.campaigns[key.0], db.members[key];
            TickDue(AfterDisposition(db, key, d, terminal, now), key, later) <==>
            && s.status == Active && d !in terminal && m.attempts < s.maxAttempts
            && now + DelayFor(s.schedule, m.attempts + 1) * 60_000 <= later
  {
  }

  /** A placed or blocked member is never due, until a disposition or an edit makes it pending again. */
  lemma PlacedNotDue(db: Db, lead: LeadId, c: CampaignId, at: Moment, reply: ProviderReply, later: int)
    requires CreateCall(db, Some(lead), Some(c), at, reply).1.Placed?
    ensures !TickDue(CreateCall(db, Some(lead), Some(c), at, reply).0, (c, lead), later)
    ensures !TickDue(WithStatus(db, (c, lead), Blocked), (c, lead), later)
  {
  }

  /** Unless the caller names others, four dispositions are final. */
  lemma FinalByDefault(db: Db, key: (CampaignId, LeadId), d: string, now: int)
    requires key in db.members && key.0 in db.campaigns
    requires db.members[key].attempts < db.campaigns[key.0].maxAttempts
    ensures AfterDisposition(db, key, d, TERMINAL, now).members[key].status == Completed <==>
            d == "connected" || d == "converted" || d == "not_interested" || d == "dnd_request"
  {
  }
}
