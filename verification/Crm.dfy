/**
 * Committing a generated agent (agent-builder/commit.ts) and moving leads through
 * its pipeline (crm/pipeline.ts), within one organisation.
 */
module Crm {
  import opened Common
  import opened KeyedTables
  import opened LeadHistory
  import opened Slug
  import opened Versions

  // ---- What is suggested --------------------------------------------------------------

  datatype StageInfo = StageInfo(name: string, order: nat, terminal: bool, outcome: Option<string>, source: string)
  datatype DispositionInfo = DispositionInfo(name: string, category: Option<string>, source: string)
  datatype Hint = High | Medium | Low
  datatype Criterion = Criterion(text: string, hint: Option<Hint>)
  datatype CriterionInfo = CriterionInfo(name: string, weight: int, hint: Hint)

  const BUILDER := "prompt_to_agent_builder"

  const LOST_NAMES := {"lost", "closed lost", "closed_lost", "not converted", "declined"}
  const WON_NAMES := {"won", "closed won", "closed_won", "converted", "booked"}

  /** What String.prototype.trim removes. */
  predicate Blank(c: char) {
    || c == ' ' || '\t' <= c <= '\r' || c == '\U{A0}' || c == '\U{1680}' || '\U{2000}' <= c <= '\U{200A}'
    || c == '\U{2028}' || c == '\U{2029}' || c == '\U{202F}' || c == '\U{205F}' || c == '\U{3000}' || c == '\U{FEFF}'
  }

  function Trimmed(s: string): string
    decreases |s|
  {
    if s != "" && Blank(s[0]) then Trimmed(s[1..])
    else if s != "" && Blank(s[|s| - 1]) then Trimmed(s[..|s| - 1])
    else s
  }

  function ToStage(name: string, index: nat, total: nat, lower: Lowering): Suggestion<StageInfo> {
    var plain := lower(Trimmed(name));
    var outcome := if plain in LOST_NAMES then Some("lost") else if plain in WON_NAMES then Some("won") else None;
    var terminal := outcome.Some? || (index == total - 1 && total > 1);
    Suggestion(Slugify(name, lower), StageInfo(name, index, terminal, outcome, BUILDER))
  }

  function ToStages(names: seq<string>, lower: Lowering): (suggestions: seq<Suggestion<StageInfo>>)
    ensures |suggestions| == |names|
  {
    seq(|names|, i requires 0 <= i < |names| => ToStage(names[i], i, |names|, lower))
  }

  function ToDispositions(names: seq<string>, lower: Lowering): (suggestions: seq<Suggestion<DispositionInfo>>)
    ensures |suggestions| == |names|
  {
    seq(|names|, i requires 0 <= i < |names| =>
      Suggestion(Slugify(names[i], lower), DispositionInfo(names[i], None, BUILDER)))
  }

  function Weight(hint: Hint): int {
    match hint
    case High => 3
    case Medium => 2
    case Low => 1
  }

  function ToCriterion(c: Criterion, lower: Lowering): Suggestion<CriterionInfo> {
    var hint := if c.hint.Some? then c.hint.value else Medium;
    Suggestion(CriterionKey(c.text, lower), CriterionInfo(c.text, Weight(hint), hint))
  }

  function ToCriteria(cs: seq<Criterion>, lower: Lowering): (suggestions: seq<Suggestion<CriterionInfo>>)
    ensures |suggestions| == |cs|
  {
    seq(|cs|, i requires 0 <= i < |cs| => ToCriterion(cs[i], lower))
  }

  ghost function Keys<T>(xs: seq<T>, key: T -> string): set<string> { set x | x in xs :: key(x) }

  /** The keys of suggestions made one by one from `xs`. */
  lemma KeysMade<C, T>(suggestions: seq<Suggestion<C>>, xs: seq<T>, key: T -> string)
    requires |suggestions| == |xs| && forall i :: 0 <= i < |xs| ==> suggestions[i].key == key(xs[i])
    ensures KeysIn(suggestions) == Keys(xs, key)
  {
    forall x | x in xs ensures key(x) in KeysIn(suggestions) {
      var i :| 0 <= i < |xs| && xs[i] == x;
      assert suggestions[i] in suggestions;
    }
    forall k | k in KeysIn(suggestions) ensures exists x :: x in xs && key(x) == k {
      var s :| s in suggestions && s.key == k;
      var i :| 0 <= i < |suggestions| && suggestions[i] == s;
      assert xs[i] in xs;
    }
  }

  lemma NothingAsked<C, T>(table: seq<Row<C>>, agent: Option<nat>, suggestions: seq<Suggestion<C>>, xs: seq<T>,
                           key: T -> string)
    requires suggestions == [] && xs == []
    ensures Inserted(table, agent, suggestions) == [] && Keys(xs, key) == {} && table + [] == table
  {
  }

  function SlugKey(lower: Lowering): string -> string { (name: string) => Slugify(name, lower) }

  function TextKey(lower: Lowering): Criterion -> string { (c: Criterion) => CriterionKey(c.text, lower) }

  /** How many rows are created for an agent, in terms of the names alone. */
  lemma StagesFromNames(table: seq<Row<StageInfo>>, agent: nat, names: seq<string>, lower: Lowering)
    requires KeysOk(table)
    ensures |Inserted(table, Some(agent), ToStages(names, lower))|
         == |Keys(names, SlugKey(lower)) - KeysOf(table, Some(agent))|
  {
    hide Inserted, KeysOf, KeysIn, KeysOk, Keys, CriterionKey, Trimmed;
    CreatedExactly(table, Some(agent), ToStages(names, lower));
    KeysMade(ToStages(names, lower), names, SlugKey(lower));
  }

  lemma DispositionsFromNames(table: seq<Row<DispositionInfo>>, agent: nat, names: seq<string>, lower: Lowering)
    requires KeysOk(table)
    ensures |Inserted(table, Some(agent), ToDispositions(names, lower))|
         == |Keys(names, SlugKey(lower)) - KeysOf(table, Some(agent))|
  {
    hide Inserted, KeysOf, KeysIn, KeysOk, Keys, CriterionKey, Trimmed;
    CreatedExactly(table, Some(agent), ToDispositions(names, lower));
    KeysMade(ToDispositions(names, lower), names, SlugKey(lower));
  }

  lemma CriteriaFromTexts(table: seq<Row<CriterionInfo>>, agent: nat, cs: seq<Criterion>, lower: Lowering)
    requires KeysOk(table)
    ensures |Inserted(table, Some(agent), ToCriteria(cs, lower))|
         == |Keys(cs, TextKey(lower)) - KeysOf(table, Some(agent))|
  {
    hide Inserted, KeysOf, KeysIn, KeysOk, Keys, CriterionKey, Trimmed;
    CreatedExactly(table, Some(agent), ToCriteria(cs, lower));
    KeysMade(ToCriteria(cs, lower), cs, TextKey(lower));
  }

  // ---- The operations over the tables ---------------------------------------------------

  datatype Result<+T> = Ok(value: T) | Err(error: string)
  datatype Config = Config(clarificationNeeded: bool, needsReview: bool, stageNames: seq<string>,
                           dispositionNames: seq<string>, criteria: seq<Criterion>)
  datatype CommitResult = CommitResult(agent: nat, version: nat, stagesCreated: nat, dispositionsCreated: nat,
                                       criteriaCreated: nat)

  /** Which of the three transactions after the first fail, each rolled back by itself. */
  datatype Faults = Faults(stages: bool, dispositions: bool, criteria: bool)

  method InsertRows<C>(table: seq<Row<C>>, agent: Option<nat>, suggestions: seq<Suggestion<C>>)
    returns (after: seq<Row<C>>, created: seq<Row<C>>)
    ensures created == Inserted(table, agent, suggestions) && after == table + created
  {
    after, created := table, [];
    for i := 0 to |suggestions|
      invariant after == table + created
      invariant Inserted(table, agent, suggestions) == created + Inserted(after, agent, suggestions[i..])
    {
      assert suggestions[i..][1..] == suggestions[i + 1..];
      if !Conflicts(after, agent, suggestions[i].key) {
        var row := Row(agent, suggestions[i]);
        Regroup(created, [row], Inserted(after + [row], agent, suggestions[i + 1..]));
        Regroup(table, created, [row]);
        after := after + [row];
        created := created + [row];
      }
    }
    assert created + [] == created;
  }

  /** A commit is refused before anything is written. */
  predicate Refuses(agents: seq<string>, agentId: Option<nat>, agentName: Option<string>) {
    if agentId.None? then agentName.None? || Trimmed(agentName.value) == "" else agentId.value >= |agents|
  }

  class CrmDb {
    const lower: Lowering
    var agents: seq<string>
    var prompts: seq<Prompt>
    var stages: seq<Row<StageInfo>>
    var dispositions: seq<Row<DispositionInfo>>
    var criteria: seq<Row<CriterionInfo>>
    var leads: Leads

    constructor (lower: Lowering)
      ensures this.lower == lower && agents == [] && prompts == [] && leads == Leads(map[], [], 0)
      ensures stages == [] && dispositions == [] && criteria == []
      ensures PromptsOk(prompts) && HistoryOk(leads, map[])
    {
      this.lower := lower;
      agents, prompts, stages, dispositions, criteria, leads := [], [], [], [], [], Leads(map[], [], 0);
    }

    /** The first transaction of a commit: the agent, if new, and its next prompt version. */
    method CommitPrompt(agentId: Option<nat>, agentName: Option<string>) returns (r: Result<(nat, nat)>)
      modifies this`agents, this`prompts
      ensures r.Err? <==> if agentId.Some? then agentId.value >= |old(agents)|
                          else agentName.None? || Trimmed(agentName.value) == ""
      ensures r.Err? ==> agents == old(agents) && prompts == old(prompts)
      ensures r.Ok? ==>
        && r.value.0 == (if agentId.Some? then agentId.value else |old(agents)|) < |agents|
        && agents == old(agents) + (if agentId.Some? then [] else [Trimmed(agentName.value)])
        && r.value.1 == LastVersion(old(prompts), r.value.0) + 1
        && prompts == Committed(old(prompts), r.value.0)
      ensures old(PromptsOk(prompts)) ==> PromptsOk(prompts)
    {
      var agent: nat;
      if agentId.None? {
        if agentName.None? || Trimmed(agentName.value) == "" {
          return Err("agentName is required when creating a new agent.");
        }
        agent := |agents|;
        agents := agents + [Trimmed(agentName.value)];
      } else {
        agent := agentId.value;
        if agent >= |agents| { return Err("agent_prompts.agent_id references no agent"); }
      }
      var version := LastVersion(prompts, agent) + 1;
      if old(PromptsOk(prompts)) { WriteKeepsVersionsExactly(prompts, agent, version, |prompts|); }
      assert prompts[..|prompts|] == prompts
             && Deactivated(prompts, agent) + prompts[|prompts|..] == Deactivated(prompts, agent);
      prompts := Deactivated(prompts, agent);
      prompts := prompts + [Prompt(agent, version, true)];
      r := Ok((agent, version));
    }

    /**
     * The whole commit: the prompt, and then, at the same time, the three lists
     * of suggestions, each in a transaction of its own. Where one of those fails
     * the commit throws, but the prompt and the other lists stay.
     */
    method CommitGeneratedConfig(agentId: Option<nat>, agentName: Option<string>, config: Config, faults: Faults)
      returns (r: Result<CommitResult>)
      modifies this`agents, this`prompts, this`stages, this`dispositions, this`criteria
      ensures var refused := config.clarificationNeeded || config.needsReview
              || Refuses(old(agents), agentId, agentName);
              var agent := if agentId.Some? then agentId.value else |old(agents)|;
        if refused then
          && r.Err? && agents == old(agents) && prompts == old(prompts)
          && stages == old(stages) && dispositions == old(dispositions) && criteria == old(criteria)
        else
          && prompts == Committed(old(prompts), agent)
          && stages == old(stages)
                       + (if faults.stages then []
                          else Inserted(old(stages), Some(agent), ToStages(config.stageNames, lower)))
          && dispositions == old(dispositions)
                             + (if faults.dispositions then []
                                else
                                  var suggested := ToDispositions(config.dispositionNames, lower);
                                  Inserted(old(dispositions), Some(agent), suggested))
          && criteria == old(criteria)
                         + (if faults.criteria then []
                            else Inserted(old(criteria), Some(agent), ToCriteria(config.criteria, lower)))
          && (r.Ok? <==> && (faults.stages ==> config.stageNames == [])
                         && (faults.dispositions ==> config.dispositionNames == [])
                         && (faults.criteria ==> config.criteria == []))
          && (r.Ok? ==> r.value == CommitResult(agent, LastVersion(old(prompts), agent) + 1, |stages| - |old(stages)|,
                                                |dispositions| - |old(dispositions)|, |criteria| - |old(criteria)|))
      ensures r.Ok? && old(KeysOk(stages)) ==>
        r.value.stagesCreated == |Keys(config.stageNames, SlugKey(lower)) - old(KeysOf(stages, Some(r.value.agent)))|
      ensures r.Ok? && old(KeysOk(dispositions)) ==>
        r.value.dispositionsCreated
          == |Keys(config.dispositionNames, SlugKey(lower)) - old(KeysOf(dispositions, Some(r.value.agent)))|
      ensures r.Ok? && old(KeysOk(criteria)) ==>
        r.value.criteriaCreated == |Keys(config.criteria, TextKey(lower)) - old(KeysOf(criteria, Some(r.value.agent)))|
      ensures old(PromptsOk(prompts)) ==> PromptsOk(prompts)
      ensures old(KeysOk(stages)) ==> KeysOk(stages)
      ensures old(KeysOk(dispositions)) ==> KeysOk(dispositions)
      ensures old(KeysOk(criteria)) ==> KeysOk(criteria)
    {
      hide Inserted, KeysOk, KeysOf, Keys, PromptsOk, Committed, Trimmed;
      if config.clarificationNeeded || config.needsReview {
        return Err("clarification needed, or flagged needs_review");
      }
      var committed := CommitPrompt(agentId, agentName);
      if committed.Err? { return Err(committed.error); }
      var (agent, version) := committed.value;
      var newStages := InsertStages(agent, config.stageNames, faults.stages);
      var newDispositions := InsertDispositions(agent, config.dispositionNames, faults.dispositions);
      var newCriteria := InsertCriteria(agent, config.criteria, faults.criteria);
      if newStages.None? || newDispositions.None? || newCriteria.None? { return Err("a transaction was rolled back"); }
      r := Ok(CommitResult(agent, version, newStages.value, newDispositions.value, newCriteria.value));
    }

    /** How many stages were created; None if the transaction, begun for a non-empty list, failed. */
    method InsertStages(agent: nat, names: seq<string>, fault: bool) returns (created: Option<nat>)
      modifies this`stages
      ensures stages == old(stages) + if fault then [] else Inserted(old(stages), Some(agent), ToStages(names, lower))
      ensures created == if fault && names != [] then None else Some(|stages| - |old(stages)|)
      ensures created.Some? && old(KeysOk(stages)) ==>
        created.value == |Keys(names, SlugKey(lower)) - old(KeysOf(stages, Some(agent)))|
      ensures old(KeysOk(stages)) ==> KeysOk(stages)
    {
      hide Inserted, KeysOf, KeysIn, KeysOk, Keys;
      if names == [] {
        NothingAsked(stages, Some(agent), ToStages(names, lower), names, SlugKey(lower));
        return Some(0);
      }
      if fault { return None; }
      var suggestions := ToStages(names, lower);
      if KeysOk(stages) {
        CreatedExactly(stages, Some(agent), suggestions);
        StagesFromNames(stages, agent, names, lower);
      }
      var rows;
      stages, rows := InsertRows(stages, Some(agent), suggestions);
      return Some(|rows|);
    }

    method InsertDispositions(agent: nat, names: seq<string>, fault: bool) returns (created: Option<nat>)
      modifies this`dispositions
      ensures dispositions == old(dispositions)
                              + if fault then []
                                else Inserted(old(dispositions), Some(agent), ToDispositions(names, lower))
      ensures created == if fault && names != [] then None else Some(|dispositions| - |old(dispositions)|)
      ensures created.Some? && old(KeysOk(dispositions)) ==>
        created.value == |Keys(names, SlugKey(lower)) - old(KeysOf(dispositions, Some(agent)))|
      ensures old(KeysOk(dispositions)) ==> KeysOk(dispositions)
    {
      hide Inserted, KeysOf, KeysIn, KeysOk, Keys;
      if names == [] {
        NothingAsked(dispositions, Some(agent), ToDispositions(names, lower), names, SlugKey(lower));
        return Some(0);
      }
      if fault { return None; }
      var suggestions := ToDispositions(names, lower);
      if KeysOk(dispositions) {
        CreatedExactly(dispositions, Some(agent), suggestions);
        DispositionsFromNames(dispositions, agent, names, lower);
      }
      var rows;
      dispositions, rows := InsertRows(dispositions, Some(agent), suggestions);
      return Some(|rows|);
    }

    method InsertCriteria(agent: nat, cs: seq<Criterion>, fault: bool) returns (created: Option<nat>)
      modifies this`criteria
      ensures criteria == old(criteria) + if fault then []
              else Inserted(old(criteria), Some(agent), ToCriteria(cs, lower))
      ensures created == if fault && cs != [] then None else Some(|criteria| - |old(criteria)|)
      ensures created.Some? && old(KeysOk(criteria)) ==>
        created.value == |Keys(cs, TextKey(lower)) - old(KeysOf(criteria, Some(agent)))|
      ensures old(KeysOk(criteria)) ==> KeysOk(criteria)
    {
      hide Inserted, KeysOf, KeysIn, KeysOk, Keys;
      if cs == [] {
        NothingAsked(criteria, Some(agent), ToCriteria(cs, lower), cs, TextKey(lower));
        return Some(0);
      }
      if fault { return None; }
      var suggestions := ToCriteria(cs, lower);
      if KeysOk(criteria) {
        CreatedExactly(criteria, Some(agent), suggestions);
        CriteriaFromTexts(criteria, agent, cs, lower);
      }
      var rows;
      criteria, rows := InsertRows(criteria, Some(agent), suggestions);
      return Some(|rows|);
    }

    /** Moves a lead and records the move; nothing changes if the lead or the stage is unknown. */
    method TransitionLeadStage(lead: nat, to: nat, ghost begun: map<nat, Option<nat>>) returns (r: Result<Move>)
      modifies this`leads
      ensures leads == Transitioned(old(leads), |stages|, lead, to)
      ensures r.Ok? <==> lead in old(leads).current && to < |stages|
      ensures r.Ok? ==>
        && r.value == Move(lead, old(leads).current[lead], to, old(leads).now)
        && leads.current[lead] == Some(to)
      ensures HistoryOk(old(leads), begun) ==> HistoryOk(leads, begun)
    {
      if lead !in leads.current { return Err("Lead not found in this org"); }
      var from := leads.current[lead];
      if to >= |stages| { return Err("Target pipeline stage not found in this org"); }
      if HistoryOk(leads, begun) { TransitionKeepsList(leads, begun, |stages|, lead, to); }
      leads := leads.(current := leads.current[lead := Some(to)]);
      var move := Move(lead, from, to, leads.now);
      leads := leads.(history := leads.history + [move], now := leads.now + 1);
      r := Ok(move);
    }
  }

  // ---- What a suggestion says ---------------------------------------------------------

  /** The characters that are trimmed, one by one. */
  lemma BlanksAre(c: char)
    ensures Blank(c) <==>
            c in "\t\n\U{0B}\U{0C}\r \U{A0}\U{1680}\U{2000}\U{2001}\U{2002}\U{2003}\U{2004}\U{2005}\U{2006}"
               + "\U{2007}\U{2008}\U{2009}\U{200A}\U{2028}\U{2029}\U{202F}\U{205F}\U{3000}\U{FEFF}"
  {
  }

  /** Trimming leaves a part of the text, without a blank at either end, and drops only blanks. */
  lemma {:induction false} TrimmedIs(s: string) returns (a: nat, b: nat)
    ensures a <= b <= |s| && Trimmed(s) == s[a..b]
    ensures forall i :: 0 <= i < a || b <= i < |s| ==> Blank(s[i])
    ensures Trimmed(s) != "" ==> !Blank(s[a]) && !Blank(s[b - 1])
    decreases |s|
  {
    hide Blank;
    a, b := 0, |s|;
    if s != "" && Blank(s[0]) {
      var a', b' := TrimmedIs(s[1..]);
      a, b := a' + 1, b' + 1;
      assert s[1..][a'..b'] == s[a..b] && forall i :: 0 < i < |s| ==> s[i] == s[1..][i - 1];
    } else if s != "" && Blank(s[|s| - 1]) {
      a, b := TrimmedIs(s[..|s| - 1]);
      assert s[..|s| - 1][a..b] == s[a..b];
    }
  }

  /**
   * The row suggested for the i-th stage name: won or lost by its lower-case
   * name, terminal if it is either or the last of several.
   */
  lemma StageSays(names: seq<string>, i: nat, lower: Lowering)
    requires i < |names|
    ensures var s := ToStages(names, lower)[i];
            var plain := lower(Trimmed(names[i]));
            && s.key == Slugify(names[i], lower)
            && s.content.name == names[i] && s.content.order == i && s.content.source == "prompt_to_agent_builder"
            && (s.content.outcome == Some("won") <==>
                  plain == "won" || plain == "closed won" || plain == "closed_won" || plain == "converted"
                  || plain == "booked")
            && (s.content.outcome == Some("lost") <==>
                  plain == "lost" || plain == "closed lost" || plain == "closed_lost" || plain == "not converted"
                  || plain == "declined")
            && (s.content.outcome.None? || s.content.outcome == Some("won") || s.content.outcome == Some("lost"))
            && (s.content.terminal <==> s.content.outcome.Some? || (|names| > 1 && i == |names| - 1))
  {
  }

  /** The rows suggested for dispositions and criteria; a criterion without a hint is of medium weight. */
  lemma OthersSay(names: seq<string>, cs: seq<Criterion>, lower: Lowering)
    ensures forall i :: 0 <= i < |names| ==>
              ToDispositions(names, lower)[i]
              == Suggestion(Slugify(names[i], lower), DispositionInfo(names[i], None, "prompt_to_agent_builder"))
    ensures forall i :: 0 <= i < |cs| ==>
              var s, hint := ToCriteria(cs, lower)[i], cs[i].hint;
              && s.key == CriterionKey(cs[i].text, lower) && s.content.name == cs[i].text
              && (s.content.hint == High <==> hint == Some(High)) && (s.content.weight == 3 <==> hint == Some(High))
              && (s.content.hint == Low <==> hint == Some(Low)) && (s.content.weight == 1 <==> hint == Some(Low))
              && (s.content.weight == 2 <==> hint.None? || hint == Some(Medium))
  {
  }
}
