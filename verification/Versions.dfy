/**
 * The prompt versions of an agent (agent-builder/commit.ts): one commit after
 * another, and commits whose transactions overlap. The table has no unique
 * constraint on versions and the code takes no lock before reading the last one.
 */
module Versions {
  import opened Common

  datatype Prompt = Prompt(agent: nat, version: nat, active: bool)

  /** The rows of one agent, oldest first. */
  function PromptsOf(prompts: seq<Prompt>, agent: nat): (own: seq<Prompt>)
    ensures forall p :: p in own ==> p.agent == agent
  {
    if prompts == [] then []
    else
      var p := prompts[|prompts| - 1];
      PromptsOf(prompts[..|prompts| - 1], agent) + if p.agent == agent then [p] else []
  }

  /** COALESCE(MAX(version), 0). */
  function LastVersion(prompts: seq<Prompt>, agent: nat): nat {
    if prompts == [] then 0
    else
      var p := prompts[|prompts| - 1];
      var before := LastVersion(prompts[..|prompts| - 1], agent);
      if p.agent == agent && p.version > before then p.version else before
  }

  function Deactivated(prompts: seq<Prompt>, agent: nat): (ps: seq<Prompt>)
    ensures |ps| == |prompts|
    ensures forall i :: 0 <= i < |ps| ==>
            ps[i] == if prompts[i].agent == agent then prompts[i].(active := false) else prompts[i]
  {
    seq(|prompts|, i requires 0 <= i < |prompts| =>
      if prompts[i].agent == agent then prompts[i].(active := false) else prompts[i])
  }

  /**
   * The rows once a commit that read `version` has written: its UPDATE saw the
   * first `rows` rows, deactivated the agent's among them, and its INSERT follows.
   */
  function Written(prompts: seq<Prompt>, agent: nat, version: nat, rows: nat): seq<Prompt>
    requires rows <= |prompts|
  {
    Deactivated(prompts[..rows], agent) + prompts[rows..] + [Prompt(agent, version, true)]
  }

  function Committed(prompts: seq<Prompt>, agent: nat): seq<Prompt> {
    Written(prompts, agent, LastVersion(prompts, agent) + 1, |prompts|)
  }

  /** An agent's rows are versions 1, 2, ... in order and only the newest is active. */
  ghost predicate VersionsOk(own: seq<Prompt>) {
    forall i :: 0 <= i < |own| ==> own[i].version == i + 1 && (own[i].active <==> i == |own| - 1)
  }

  ghost predicate PromptsOk(prompts: seq<Prompt>) {
    forall agent: nat :: VersionsOk(PromptsOf(prompts, agent))
  }

  lemma {:induction false} LastVersionOf(prompts: seq<Prompt>, agent: nat)
    requires forall i :: 0 <= i < |PromptsOf(prompts, agent)| ==> PromptsOf(prompts, agent)[i].version == i + 1
    ensures LastVersion(prompts, agent) == |PromptsOf(prompts, agent)|
  {
    if prompts != [] {
      var n := |prompts| - 1;
      var before, own := PromptsOf(prompts[..n], agent), PromptsOf(prompts, agent);
      assert forall i :: 0 <= i < |before| ==> before[i] == own[i];
      LastVersionOf(prompts[..n], agent);
      if prompts[n].agent == agent { assert own[|before|] == prompts[n]; }
    }
  }

  /** Whatever versions a table holds: the last one of an agent is its greatest, or zero without any. */
  lemma {:induction false} LastVersionIsGreatest(prompts: seq<Prompt>, agent: nat)
    ensures forall p :: p in prompts && p.agent == agent ==> p.version <= LastVersion(prompts, agent)
    ensures LastVersion(prompts, agent) == 0
         || exists p :: p in prompts && p.agent == agent && p.version == LastVersion(prompts, agent)
  {
    if prompts != [] {
      LastVersionIsGreatest(prompts[..|prompts| - 1], agent);
      LastMember(prompts);
    }
  }

  /**
   * A commit alone adds one active row, numbered one above every version of
   * the agent; of the others it deactivates the agent's and leaves the rest.
   */
  lemma CommittedIs(prompts: seq<Prompt>, agent: nat)
    ensures var after := Committed(prompts, agent);
            && |after| == |prompts| + 1
            && after[|prompts|].agent == agent && after[|prompts|].active
            && (forall p :: p in prompts && p.agent == agent ==> p.version < after[|prompts|].version)
            && (after[|prompts|].version == 1
                || exists p :: p in prompts && p.agent == agent && p.version == after[|prompts|].version - 1)
            && forall i :: 0 <= i < |prompts| ==>
                 after[i] == Prompt(prompts[i].agent, prompts[i].version, prompts[i].agent != agent
                     && prompts[i].active)
  {
    LastVersionIsGreatest(prompts, agent);
    assert prompts[..|prompts|] == prompts;
    assert Committed(prompts, agent)[|prompts|] == Prompt(agent, LastVersion(prompts, agent) + 1, true);
    assert forall i :: 0 <= i < |prompts| ==> Committed(prompts, agent)[i] == Deactivated(prompts, agent)[i];
  }

  lemma {:induction false} DeactivatedOf(prompts: seq<Prompt>, agent: nat, other: nat)
    ensures PromptsOf(Deactivated(prompts, agent), other) == Deactivated(PromptsOf(prompts, other), agent)
  {
    if prompts != [] {
      var n := |prompts| - 1;
      assert Deactivated(prompts, agent)[..n] == Deactivated(prompts[..n], agent);
      DeactivatedOf(prompts[..n], agent, other);
    }
  }

  lemma {:induction false} PromptsOfConcat(a: seq<Prompt>, b: seq<Prompt>, agent: nat)
    ensures PromptsOf(a + b, agent) == PromptsOf(a, agent) + PromptsOf(b, agent)
  {
    if b == [] {
      assert a + b == a && PromptsOf(a, agent) + PromptsOf(b, agent) == PromptsOf(a, agent);
    } else {
      var n := |b| - 1;
      assert (a + b)[..|a + b| - 1] == a + b[..n];
      PromptsOfConcat(a, b[..n], agent);
      Regroup(PromptsOf(a, agent), PromptsOf(b[..n], agent), if b[n].agent == agent then [b[n]] else []);
    }
  }

  lemma WrittenOf(prompts: seq<Prompt>, agent: nat, version: nat, rows: nat, other: nat)
    requires rows <= |prompts|
    ensures PromptsOf(prompts, other) == PromptsOf(prompts[..rows], other) + PromptsOf(prompts[rows..], other)
    ensures PromptsOf(Written(prompts, agent, version, rows), other)
         == Deactivated(PromptsOf(prompts[..rows], other), agent) + PromptsOf(prompts[rows..], other)
            + if other == agent then [Prompt(agent, version, true)] else []
  {
    assert prompts == prompts[..rows] + prompts[rows..];
    PromptsOfConcat(prompts[..rows], prompts[rows..], other);
    var row := [Prompt(agent, version, true)];
    PromptsOfConcat(Deactivated(prompts[..rows], agent) + prompts[rows..], row, other);
    PromptsOfConcat(Deactivated(prompts[..rows], agent), prompts[rows..], other);
    DeactivatedOf(prompts[..rows], agent, other);
    assert row[..0] == [];
    assert PromptsOf(row, other) == if other == agent then row else [];
  }

  lemma OtherAgentKept(prompts: seq<Prompt>, agent: nat, version: nat, rows: nat, other: nat)
    requires rows <= |prompts| && other != agent
    ensures PromptsOf(Written(prompts, agent, version, rows), other) == PromptsOf(prompts, other)
  {
    WrittenOf(prompts, agent, version, rows, other);
    assert Deactivated(PromptsOf(prompts[..rows], other), agent) == PromptsOf(prompts[..rows], other);
    assert PromptsOf(prompts, other) + [] == PromptsOf(prompts, other);
  }

  /** An agent's own rows after a commit: right just when the version is the next one and every older row was seen. */
  lemma OwnRowsExactly(seen: seq<Prompt>, unseen: seq<Prompt>, agent: nat, version: nat)
    requires VersionsOk(seen + unseen) && forall p :: p in seen ==> p.agent == agent
    ensures VersionsOk(Deactivated(seen, agent) + unseen + [Prompt(agent, version, true)])
            <==> version == |seen| + |unseen| + 1 && unseen == []
  {
    var own, after := seen + unseen, Deactivated(seen, agent) + unseen + [Prompt(agent, version, true)];
    var n := |own|;
    assert after[n] == Prompt(agent, version, true);
    assert forall i :: 0 <= i < |seen| ==> after[i] == own[i].(active := false);
    if unseen != [] {
      assert after[n - 1] == own[n - 1] && own[n - 1].active && |after| == n + 1;
    }
  }

  lemma OwnVersionsExactly(prompts: seq<Prompt>, agent: nat, version: nat, rows: nat)
    requires rows <= |prompts| && VersionsOk(PromptsOf(prompts, agent))
    ensures VersionsOk(PromptsOf(Written(prompts, agent, version, rows), agent))
            <==> version == LastVersion(prompts, agent) + 1 && PromptsOf(prompts[rows..], agent) == []
  {
    LastVersionOf(prompts, agent);
    WrittenOf(prompts, agent, version, rows, agent);
    OwnRowsExactly(PromptsOf(prompts[..rows], agent), PromptsOf(prompts[rows..], agent), agent, version);
  }

  /** A commit keeps all versions in order exactly when what it read, and its UPDATE saw, is still complete. */
  lemma WriteKeepsVersionsExactly(prompts: seq<Prompt>, agent: nat, version: nat, rows: nat)
    requires PromptsOk(prompts) && rows <= |prompts|
    ensures PromptsOk(Written(prompts, agent, version, rows))
            <==> version == LastVersion(prompts, agent) + 1 && PromptsOf(prompts[rows..], agent) == []
  {
    var after := Written(prompts, agent, version, rows);
    assert VersionsOk(PromptsOf(prompts, agent));
    OwnVersionsExactly(prompts, agent, version, rows);
    forall other: nat | other != agent ensures VersionsOk(PromptsOf(after, other)) {
      OtherAgentKept(prompts, agent, version, rows, other);
      assert VersionsOk(PromptsOf(prompts, other));
    }
    assert PromptsOk(after) ==> VersionsOk(PromptsOf(after, agent));
  }

  // ---- Commits that overlap -------------------------------------------------------

  /**
   * A commit's transaction as others can interleave with it: the SELECT of the
   * next version, then its UPDATE (which saw the first `rows` committed rows)
   * and INSERT, visible to others only together, when it commits.
   */
  datatype CommitStep = ReadNext(task: nat, agent: nat) | Write(task: nat, rows: nat)
  datatype Reading = Reading(agent: nat, version: nat, rows: nat)
  datatype Commits = Commits(prompts: seq<Prompt>, seen: map<nat, Reading>)

  /** The UPDATE runs after the SELECT and sees only what is committed by then. */
  function RowsSeen(prompts: seq<Prompt>, reading: Reading, rows: nat): nat {
    Min(|prompts|, Max(reading.rows, rows))
  }

  function AfterStep(s: Commits, step: CommitStep): Commits {
    match step
    case ReadNext(task, agent) =>
      s.(seen := s.seen[task := Reading(agent, LastVersion(s.prompts, agent) + 1, |s.prompts|)])
    case Write(task, rows) =>
      if task !in s.seen then s
      else
        var reading := s.seen[task];
        Commits(Written(s.prompts, reading.agent, reading.version, RowsSeen(s.prompts, reading, rows)), s.seen - {task})
  }

  /** The states the steps lead through, none of the tasks having begun before. */
  ghost predicate Run(steps: seq<CommitStep>, trace: seq<Commits>) {
    && |trace| == |steps| + 1 && trace[0].seen == map[]
    && forall k :: 0 <= k < |steps| ==> trace[k + 1] == AfterStep(trace[k], steps[k])
  }

  // ---- Which write belongs to which read, told from the steps alone ------------------

  /** The last of the first `k` steps taken by the task. */
  function Latest(steps: seq<CommitStep>, task: nat, k: nat): (l: Option<nat>)
    requires k <= |steps|
    ensures l.Some? ==> l.value < k && steps[l.value].task == task
  {
    if k == 0 then None else if steps[k - 1].task == task then Some(k - 1) else Latest(steps, task, k - 1)
  }

  /** The read the task has open after `k` steps. */
  function OpenRead(steps: seq<CommitStep>, task: nat, k: nat): (i: Option<nat>)
    requires k <= |steps|
    ensures i.Some? ==> i.value < k && steps[i.value].ReadNext? && steps[i.value].task == task
  {
    var l := Latest(steps, task, k);
    if l.Some? && steps[l.value].ReadNext? then l else None
  }

  /** The read whose version step `j` writes, if it writes any. */
  function ReadBy(steps: seq<CommitStep>, j: nat): (i: Option<nat>)
    requires j < |steps|
    ensures i.Some? ==> i.value < j && steps[i.value].ReadNext? && steps[i.value].task == steps[j].task
  {
    if steps[j].Write? then OpenRead(steps, steps[j].task, j) else None
  }

  /** Step `m` writes a commit to the agent. */
  predicate WritesTo(steps: seq<CommitStep>, m: nat, agent: nat)
    requires m < |steps|
  {
    ReadBy(steps, m).Some? && steps[ReadBy(steps, m).value].agent == agent
  }

  /** Step `m` writes, to the agent of the commit written at `j`, after that commit's read. */
  predicate Overtakes(steps: seq<CommitStep>, m: nat, j: nat)
    requires m < j < |steps|
  {
    ReadBy(steps, j).Some? && ReadBy(steps, j).value < m && WritesTo(steps, m, steps[ReadBy(steps, j).value].agent)
  }

  function ReadingAt(steps: seq<CommitStep>, trace: seq<Commits>, i: nat): Reading
    requires i < |steps| < |trace| && steps[i].ReadNext?
  {
    var rows := trace[i].prompts;
    Reading(steps[i].agent, LastVersion(rows, steps[i].agent) + 1, |rows|)
  }

  lemma {:induction false} SeenExactly(steps: seq<CommitStep>, trace: seq<Commits>, task: nat, k: nat)
    requires Run(steps, trace) && k <= |steps|
    ensures var s, i := trace[k], OpenRead(steps, task, k);
            (task in s.seen <==> i.Some?) && (i.Some? ==> s.seen[task] == ReadingAt(steps, trace, i.value))
  {
    if k > 0 { SeenExactly(steps, trace, task, k - 1); }
  }

  /** What step `m` does to the table. */
  lemma StepWrites(steps: seq<CommitStep>, trace: seq<Commits>, m: nat)
    requires Run(steps, trace) && m < |steps|
    ensures var before, i := trace[m].prompts, ReadBy(steps, m);
            if i.None? then trace[m + 1].prompts == before
            else
              var r := ReadingAt(steps, trace, i.value);
              trace[m + 1].prompts
              == Written(before, r.agent, r.version, RowsSeen(before, r, steps[m].rows))
  {
    SeenExactly(steps, trace, steps[m].task, m);
  }

  /** An agent gains one row with every commit to it, and no other way. */
  lemma RowsStep(steps: seq<CommitStep>, trace: seq<Commits>, agent: nat, m: nat)
    requires Run(steps, trace) && m < |steps|
    ensures |PromptsOf(trace[m + 1].prompts, agent)|
         == |PromptsOf(trace[m].prompts, agent)| + if WritesTo(steps, m, agent) then 1 else 0
  {
    StepWrites(steps, trace, m);
    var before, i := trace[m].prompts, ReadBy(steps, m);
    if i.Some? {
      var r := ReadingAt(steps, trace, i.value);
      WrittenOf(before, r.agent, r.version, RowsSeen(before, r, steps[m].rows), agent);
    }
  }

  ghost predicate NoneWrites(steps: seq<CommitStep>, agent: nat, lo: nat, hi: nat)
    requires hi <= |steps|
  {
    forall m :: lo <= m < hi ==> !WritesTo(steps, m, agent)
  }

  /** A table that grows by one row with every write is as large as before just when nothing was written. */
  lemma {:induction false} Growth(sizes: seq<nat>, writes: seq<bool>, i: nat, k: nat)
    requires i <= k < |sizes| == |writes| + 1
    requires forall m :: 0 <= m < |writes| ==> sizes[m + 1] == sizes[m] + if writes[m] then 1 else 0
    ensures sizes[i] <= sizes[k] && (sizes[i] == sizes[k] <==> forall m :: i <= m < k ==> !writes[m])
  {
    if i < k {
      Growth(sizes, writes, i, k - 1);
      assert sizes[k - 1 + 1] == sizes[k];
    }
  }

  lemma RowsBetween(steps: seq<CommitStep>, trace: seq<Commits>, agent: nat, i: nat, k: nat)
    requires Run(steps, trace) && i <= k <= |steps|
    ensures var was, now := |PromptsOf(trace[i].prompts, agent)|, |PromptsOf(trace[k].prompts, agent)|;
            was <= now && (was == now <==> NoneWrites(steps, agent, i, k))
  {
    var sizes: seq<nat> := seq(|trace|, m requires 0 <= m < |trace| => |PromptsOf(trace[m].prompts, agent)|);
    var writes := seq(|steps|, m requires 0 <= m < |steps| => WritesTo(steps, m, agent));
    forall m | 0 <= m < |steps| ensures sizes[m + 1] == sizes[m] + if writes[m] then 1 else 0 {
      RowsStep(steps, trace, agent, m);
    }
    Growth(sizes, writes, i, k);
    forall m | i <= m < k ensures writes[m] == WritesTo(steps, m, agent) {
    }
  }

  ghost predicate AgentsKept(was: seq<Prompt>, now: seq<Prompt>) {
    |was| <= |now| && forall x :: 0 <= x < |was| ==> now[x].agent == was[x].agent
  }

  lemma AgentsStep(steps: seq<CommitStep>, trace: seq<Commits>, m: nat)
    requires Run(steps, trace) && m < |steps|
    ensures AgentsKept(trace[m].prompts, trace[m + 1].prompts)
  {
    StepWrites(steps, trace, m);
  }

  lemma AgentsThen(a: seq<Prompt>, b: seq<Prompt>, c: seq<Prompt>)
    requires AgentsKept(a, b) && AgentsKept(b, c)
    ensures AgentsKept(a, c)
  {
  }

  /** Rows are only ever appended, and keep their agents. */
  lemma {:induction false} AgentsStay(steps: seq<CommitStep>, trace: seq<Commits>, i: nat, k: nat)
    requires Run(steps, trace) && i <= k <= |steps|
    ensures AgentsKept(trace[i].prompts, trace[k].prompts)
  {
    if i < k {
      AgentsStay(steps, trace, i, k - 1);
      AgentsStep(steps, trace, k - 1);
      AgentsThen(trace[i].prompts, trace[k - 1].prompts, trace[k].prompts);
    }
  }

  lemma {:induction false} SameAgents(a: seq<Prompt>, b: seq<Prompt>, agent: nat)
    requires |a| == |b| && forall x :: 0 <= x < |a| ==> a[x].agent == b[x].agent
    ensures |PromptsOf(a, agent)| == |PromptsOf(b, agent)|
  {
    if a != [] { SameAgents(a[..|a| - 1], b[..|b| - 1], agent); }
  }

  /** Rows that were already there account for all of an agent's rows while it gains none. */
  lemma AllSeen(was: seq<Prompt>, now: seq<Prompt>, agent: nat, rows: nat)
    requires AgentsKept(was, now) && |was| <= rows <= |now|
    requires |PromptsOf(was, agent)| == |PromptsOf(now, agent)|
    ensures PromptsOf(now[rows..], agent) == []
  {
    var first, between, rest := now[..|was|], now[|was|..rows], now[rows..];
    SameAgents(was, first, agent);
    assert now == first + between + rest;
    PromptsOfConcat(first + between, rest, agent);
    PromptsOfConcat(first, between, agent);
  }

  // ---- Exactly when versions stay right ---------------------------------------------

  ghost predicate RightUpTo(trace: seq<Commits>, n: nat) {
    forall k: nat :: k <= n && k < |trace| ==> PromptsOk(trace[k].prompts)
  }

  /** Nothing written between the read and the write of a commit, by another commit to the same agent. */
  ghost predicate NeverOvertaken(steps: seq<CommitStep>, n: nat)
    requires n <= |steps|
  {
    forall m: nat, j: nat :: m < j < n ==> !Overtakes(steps, m, j)
  }

  /** After right versions, a write is right just when nobody has overtaken it. */
  lemma WriteRightExactly(steps: seq<CommitStep>, trace: seq<Commits>, j: nat)
    requires Run(steps, trace) && j < |steps| && ReadBy(steps, j).Some? && RightUpTo(trace, j)
    ensures PromptsOk(trace[j + 1].prompts)
            <==> NoneWrites(steps, steps[ReadBy(steps, j).value].agent, ReadBy(steps, j).value, j)
  {
    var i := ReadBy(steps, j).value;
    var r, was, now := ReadingAt(steps, trace, i), trace[i].prompts, trace[j].prompts;
    var rows := RowsSeen(now, r, steps[j].rows);
    assert PromptsOk(was) && PromptsOk(now);
    assert VersionsOk(PromptsOf(was, r.agent)) && VersionsOk(PromptsOf(now, r.agent));
    LastVersionOf(was, r.agent);
    LastVersionOf(now, r.agent);
    StepWrites(steps, trace, j);
    WriteKeepsVersionsExactly(now, r.agent, r.version, rows);
    RowsBetween(steps, trace, r.agent, i, j);
    AgentsStay(steps, trace, i, j);
    if NoneWrites(steps, r.agent, i, j) { AllSeen(was, now, r.agent, rows); }
  }

  lemma {:induction false} RightExactlyUpTo(steps: seq<CommitStep>, trace: seq<Commits>, n: nat)
    requires Run(steps, trace) && PromptsOk(trace[0].prompts) && n <= |steps|
    ensures RightUpTo(trace, n) <==> NeverOvertaken(steps, n)
  {
    if n > 0 {
      var j := n - 1;
      RightExactlyUpTo(steps, trace, j);
      StepWrites(steps, trace, j);
      if RightUpTo(trace, j) && ReadBy(steps, j).Some? {
        WriteRightExactly(steps, trace, j);
        OvertakenByWrites(steps, j);
      }
    }
  }

  lemma OvertakenByWrites(steps: seq<CommitStep>, j: nat)
    requires j < |steps| && ReadBy(steps, j).Some?
    ensures NoneWrites(steps, steps[ReadBy(steps, j).value].agent, ReadBy(steps, j).value, j)
            <==> forall m: nat :: m < j ==> !Overtakes(steps, m, j)
  {
    var i := ReadBy(steps, j).value;
    assert !WritesTo(steps, i, steps[i].agent);
    forall m: nat | i < m < j ensures WritesTo(steps, m, steps[i].agent) <==> Overtakes(steps, m, j) {}
  }

  /**
   * Over any interleaving of commits the versions are right in every state if
   * and only if no commit is written, for the agent of another commit, between
   * what that commit reads and what it writes.
   */
  lemma VersionsRightExactly(steps: seq<CommitStep>, trace: seq<Commits>)
    requires Run(steps, trace) && PromptsOk(trace[0].prompts)
    ensures RightUpTo(trace, |steps|) <==> NeverOvertaken(steps, |steps|)
  {
    RightExactlyUpTo(steps, trace, |steps|);
  }

  /** Two commits that overlap on an agent without prompts both become its version 1, and both stay active. */
  lemma OverlappingCommits(agent: nat) returns (trace: seq<Commits>)
    ensures Run([ReadNext(0, agent), ReadNext(1, agent), Write(0, 0), Write(1, 0)], trace)
    ensures trace[0].prompts == [] && trace[4].prompts == [Prompt(agent, 1, true), Prompt(agent, 1, true)]
  {
    var reading := Reading(agent, 1, 0);
    var first, second := Commits([], map[0 := reading]), Commits([], map[0 := reading, 1 := reading]);
    var third := Commits([Prompt(agent, 1, true)], map[1 := reading]);
    var start, last := Commits([], map[]), Commits([Prompt(agent, 1, true), Prompt(agent, 1, true)], map[]);
    assert AfterStep(start, ReadNext(0, agent)) == first && AfterStep(first, ReadNext(1, agent)) == second;
    assert Written([], agent, 1, 0) == third.prompts && Written(third.prompts, agent, 1, 0) == last.prompts;
    assert AfterStep(second, Write(0, 0)) == third by { assert second.seen - {0} == third.seen; }
    assert AfterStep(third, Write(1, 0)) == last by { assert third.seen - {1} == last.seen; }
    trace := [start, first, second, third, last];
  }
}
