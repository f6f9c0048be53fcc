/**
 * The tables an agent's suggestions are copied into: pipeline stages,
 * dispositions and scoring criteria (crm/pipeline.ts, crm/dispositions.ts,
 * crm/scoring.ts). Each has a unique constraint on organisation, agent and key.
 */
module KeyedTables {
  import opened Common

  /** What else a row holds, apart from its agent and key, is `C`. */
  datatype Suggestion<C> = Suggestion(key: string, content: C)
  datatype Row<C> = Row(agent: Option<nat>, suggested: Suggestion<C>)

  /** ON CONFLICT (org_id, agent_id, key) DO NOTHING: a null agent conflicts with nothing. */
  predicate Conflicts<C>(table: seq<Row<C>>, agent: Option<nat>, key: string) {
    agent.Some? && exists i :: 0 <= i < |table| && table[i].agent == agent && table[i].suggested.key == key
  }

  function Inserted<C>(table: seq<Row<C>>, agent: Option<nat>, suggestions: seq<Suggestion<C>>): seq<Row<C>>
    decreases |suggestions|
  {
    if suggestions == [] then []
    else if Conflicts(table, agent, suggestions[0].key) then Inserted(table, agent, suggestions[1..])
    else
      var row := Row(agent, suggestions[0]);
      [row] + Inserted(table + [row], agent, suggestions[1..])
  }

  ghost predicate KeysOk<C>(table: seq<Row<C>>) {
    forall i, j :: 0 <= i < j < |table| && table[i].agent == table[j].agent && table[i].agent.Some? ==>
      table[i].suggested.key != table[j].suggested.key
  }

  function KeysIn<C>(suggestions: seq<Suggestion<C>>): (keys: set<string>)
    ensures forall s :: s in suggestions ==> s.key in keys
    ensures forall key :: key in keys ==> exists s :: s in suggestions && s.key == key
  {
    if suggestions == [] then {}
    else
      assert suggestions == [suggestions[0]] + suggestions[1..];
      {suggestions[0].key} + KeysIn(suggestions[1..])
  }

  function KeysOf<C>(table: seq<Row<C>>, agent: Option<nat>): set<string> {
    if table == [] then {}
    else
      var r := table[|table| - 1];
      KeysOf(table[..|table| - 1], agent) + if r.agent == agent then {r.suggested.key} else {}
  }

  lemma KeysOfAppend<C>(table: seq<Row<C>>, row: Row<C>)
    ensures KeysOf(table + [row], row.agent) == KeysOf(table, row.agent) + {row.suggested.key}
  {
    assert (table + [row])[..|table|] == table;
  }

  lemma {:induction false} ConflictsByKey<C>(table: seq<Row<C>>, agent: Option<nat>, key: string)
    requires agent.Some?
    ensures Conflicts(table, agent, key) <==> key in KeysOf(table, agent)
  {
    if table != [] {
      var n := |table| - 1;
      ConflictsByKey(table[..n], agent, key);
      ConflictsLast(table, agent, key);
    }
  }

  lemma ConflictsLast<C>(table: seq<Row<C>>, agent: Option<nat>, key: string)
    requires table != [] && agent.Some?
    ensures var last := table[|table| - 1];
            Conflicts(table, agent, key)
            <==> (Conflicts(table[..|table| - 1], agent, key) || (last.agent == agent && last.suggested.key == key))
  {
    var n := |table| - 1;
    if Conflicts(table, agent, key) {
      var i :| 0 <= i <= n && table[i].agent == agent && table[i].suggested.key == key;
      if i < n { assert table[..n][i] == table[i]; }
    }
  }

  lemma {:induction false} CreatedKeepsKeys<C>(table: seq<Row<C>>, agent: Option<nat>, suggestions: seq<Suggestion<C>>)
    requires agent.Some? && KeysOk(table)
    ensures KeysOk(table + Inserted(table, agent, suggestions))
    decreases |suggestions|
  {
    if suggestions == [] {
      assert table + [] == table;
    } else if Conflicts(table, agent, suggestions[0].key) {
      CreatedKeepsKeys(table, agent, suggestions[1..]);
    } else {
      var row := Row(agent, suggestions[0]);
      KeysOkAppend(table, row);
      CreatedKeepsKeys(table + [row], agent, suggestions[1..]);
      Regroup(table, [row], Inserted(table + [row], agent, suggestions[1..]));
    }
  }

  lemma {:induction false} CreatedKeys<C>(table: seq<Row<C>>, agent: Option<nat>, suggestions: seq<Suggestion<C>>)
    requires agent.Some?
    ensures KeysOf(table + Inserted(table, agent, suggestions), agent) == KeysOf(table, agent) + KeysIn(suggestions)
    decreases |suggestions|
  {
    if suggestions == [] {
      assert table + [] == table;
    } else {
      var key, tail := suggestions[0].key, suggestions[1..];
      ConflictsByKey(table, agent, key);
      if Conflicts(table, agent, key) {
        CreatedKeys(table, agent, tail);
      } else {
        var row := Row(agent, suggestions[0]);
        KeysOfAppend(table, row);
        CreatedKeys(table + [row], agent, tail);
        Regroup(table, [row], Inserted(table + [row], agent, tail));
      }
    }
  }

  lemma {:induction false} CreatedCount<C>(table: seq<Row<C>>, agent: Option<nat>, suggestions: seq<Suggestion<C>>)
    requires agent.Some?
    ensures |Inserted(table, agent, suggestions)| == |KeysIn(suggestions) - KeysOf(table, agent)|
    decreases |suggestions|
  {
    if suggestions != [] {
      var key, tail, present := suggestions[0].key, suggestions[1..], KeysOf(table, agent);
      ConflictsByKey(table, agent, key);
      if Conflicts(table, agent, key) {
        CreatedCount(table, agent, tail);
        assert KeysIn(suggestions) - present == KeysIn(tail) - present;
      } else {
        var row := Row(agent, suggestions[0]);
        KeysOfAppend(table, row);
        CreatedCount(table + [row], agent, tail);
        OneMore(key, KeysIn(tail), present);
      }
    }
  }

  /** For a real agent one row is created for each suggested key not already present, and keys stay distinct. */
  lemma CreatedExactly<C>(table: seq<Row<C>>, agent: Option<nat>, suggestions: seq<Suggestion<C>>)
    requires agent.Some? && KeysOk(table)
    ensures var created := Inserted(table, agent, suggestions);
      && KeysOk(table + created)
      && KeysOf(table + created, agent) == KeysOf(table, agent) + KeysIn(suggestions)
      && |created| == |KeysIn(suggestions) - KeysOf(table, agent)|
  {
    CreatedKeepsKeys(table, agent, suggestions);
    CreatedKeys(table, agent, suggestions);
    CreatedCount(table, agent, suggestions);
  }

  lemma OneMore(key: string, wanted: set<string>, present: set<string>)
    requires key !in present
    ensures |({key} + wanted) - present| == 1 + |wanted - (present + {key})|
  {
    assert ({key} + wanted) - present == {key} + (wanted - (present + {key}));
  }

  lemma KeysOkAppend<C>(table: seq<Row<C>>, row: Row<C>)
    requires KeysOk(table) && !Conflicts(table, row.agent, row.suggested.key)
    ensures KeysOk(table + [row])
  {
  }

  lemma {:induction false} AllPresent<C>(table: seq<Row<C>>, agent: Option<nat>, suggestions: seq<Suggestion<C>>)
    requires agent.Some? && KeysIn(suggestions) <= KeysOf(table, agent)
    ensures Inserted(table, agent, suggestions) == []
  {
    if suggestions != [] {
      ConflictsByKey(table, agent, suggestions[0].key);
      AllPresent(table, agent, suggestions[1..]);
    }
  }

  lemma {:induction false} NoAgentAllInserted<C>(table: seq<Row<C>>, suggestions: seq<Suggestion<C>>)
    ensures |Inserted(table, None, suggestions)| == |suggestions|
    decreases |suggestions|
  {
    if suggestions != [] {
      NoAgentAllInserted(table + [Row(None, suggestions[0])], suggestions[1..]);
    }
  }

  ghost predicate FirstWithKey<C>(suggestions: seq<Suggestion<C>>, s: Suggestion<C>) {
    suggestions != [] && (suggestions[0] == s || (suggestions[0].key != s.key && FirstWithKey(suggestions[1..], s)))
  }

  /** Of several suggestions with one key the first is created, and never over a stage already present. */
  lemma {:induction false} FirstSuggestionWins<C>(table: seq<Row<C>>, agent: Option<nat>,
                                                  suggestions: seq<Suggestion<C>>)
    requires agent.Some?
    ensures forall r :: r in Inserted(table, agent, suggestions) ==>
      && r.agent == agent
      && r.suggested.key !in KeysOf(table, agent)
      && FirstWithKey(suggestions, r.suggested)
    decreases |suggestions|
  {
    if suggestions != [] {
      var tail := suggestions[1..];
      ConflictsByKey(table, agent, suggestions[0].key);
      if Conflicts(table, agent, suggestions[0].key) {
        FirstSuggestionWins(table, agent, tail);
      } else {
        var row := Row(agent, suggestions[0]);
        KeysOfAppend(table, row);
        FirstSuggestionWins(table + [row], agent, tail);
      }
    }
  }

  /**
   * Repeating an insertion creates nothing exactly when there is a real agent, or
   * nothing was asked for: without an agent every stage is inserted again.
   */
  lemma RerunExactly<C>(table: seq<Row<C>>, agent: Option<nat>, suggestions: seq<Suggestion<C>>)
    requires KeysOk(table)
    ensures var created := Inserted(table, agent, suggestions);
            Inserted(table + created, agent, suggestions) == [] <==> agent.Some? || suggestions == []
  {
    var created := Inserted(table, agent, suggestions);
    if agent.Some? {
      CreatedExactly(table, agent, suggestions);
      AllPresent(table + created, agent, suggestions);
    } else {
      NoAgentAllInserted(table + created, suggestions);
    }
  }

  /** Suggestion `i` is the first with its key, and no row of the table has it. */
  ghost predicate Wanted<C>(table: seq<Row<C>>, agent: Option<nat>, suggestions: seq<Suggestion<C>>, i: int) {
    && 0 <= i < |suggestions|
    && (forall k :: 0 <= k < |table| && table[k].agent == agent ==> table[k].suggested.key != suggestions[i].key)
    && (forall k :: 0 <= k < i ==> suggestions[k].key != suggestions[i].key)
  }

  lemma WantedLater<C>(table: seq<Row<C>>, agent: Option<nat>, suggestions: seq<Suggestion<C>>, i: int)
    requires agent.Some? && suggestions != [] && i > 0
    ensures var table' := if Conflicts(table, agent, suggestions[0].key) then table
                          else table + [Row(agent, suggestions[0])];
            Wanted(table, agent, suggestions, i) <==> Wanted(table', agent, suggestions[1..], i - 1)
  {
    var tail := suggestions[1..];
    assert forall k :: 0 < k < |suggestions| ==> suggestions[k] == tail[k - 1];
    if !Conflicts(table, agent, suggestions[0].key) {
      var table' := table + [Row(agent, suggestions[0])];
      assert table'[|table|] == Row(agent, suggestions[0]) && forall k :: 0 <= k < |table| ==> table'[k] == table[k];
    } else {
      var k :| 0 <= k < |table| && table[k].agent == agent && table[k].suggested.key == suggestions[0].key;
    }
  }

  /** The rows made of these suggestions, in this order. */
  ghost predicate MadeFrom<C>(rows: seq<Row<C>>, agent: Option<nat>, suggestions: seq<Suggestion<C>>, picks: seq<int>) {
    |picks| == |rows| && forall k :: 0 <= k < |picks| ==>
      0 <= picks[k] < |suggestions| && rows[k] == Row(agent, suggestions[picks[k]])
  }

  /** The created rows are exactly those of the wanted suggestions, with all they say and in their order. */
  lemma {:induction false} CreatedInOrder<C>(table: seq<Row<C>>, agent: Option<nat>, suggestions: seq<Suggestion<C>>)
    returns (picks: seq<int>)
    requires agent.Some?
    ensures MadeFrom(Inserted(table, agent, suggestions), agent, suggestions, picks) && Rising(picks)
    ensures forall i :: i in picks <==> Wanted(table, agent, suggestions, i)
    decreases |suggestions|
  {
    picks := [];
    if suggestions != [] {
      var skipped := Conflicts(table, agent, suggestions[0].key);
      var table' := if skipped then table else table + [Row(agent, suggestions[0])];
      var rest := CreatedInOrder(table', agent, suggestions[1..]);
      assert Wanted(table, agent, suggestions, 0) <==> !skipped;
      assert forall i :: Wanted(table, agent, suggestions, i) ==> i >= 0;
      hide Wanted, Conflicts, MadeFrom, Rising;
      picks := PicksShifted(Inserted(table', agent, suggestions[1..]), agent, suggestions, rest, !skipped);
      forall i ensures i in picks <==> Wanted(table, agent, suggestions, i) {
        if i > 0 { WantedLater(table, agent, suggestions, i); }
      }
    }
  }

  lemma HeadMade<C>(rows: seq<Row<C>>, agent: Option<nat>, suggestions: seq<Suggestion<C>>, picks: seq<int>)
    requires suggestions != [] && MadeFrom(rows, agent, suggestions, picks) && Rising(picks) && 0 !in picks
    ensures MadeFrom([Row(agent, suggestions[0])] + rows, agent, suggestions, [0] + picks) && Rising([0] + picks)
  {
    assert forall k :: 0 <= k < |picks| ==> picks[k] in picks;
  }

  /** Positions in a tail as positions in the whole, with or without the head. */
  lemma PicksShifted<C>(rows: seq<Row<C>>, agent: Option<nat>, suggestions: seq<Suggestion<C>>, rest: seq<int>,
                        first: bool) returns (picks: seq<int>)
    requires suggestions != [] && MadeFrom(rows, agent, suggestions[1..], rest) && Rising(rest)
    ensures MadeFrom((if first then [Row(agent, suggestions[0])] else []) + rows, agent, suggestions, picks)
    ensures Rising(picks)
    ensures forall i :: i in picks <==> (first && i == 0) || (i > 0 && i - 1 in rest)
  {
    picks := Shifted(rest);
    ShiftedMembers(rest);
    assert forall k :: 0 <= k < |rest| ==> rest[k] >= 0;
    assert MadeFrom(rows, agent, suggestions, picks) && Rising(picks);
    hide MadeFrom, Rising;
    if first {
      HeadMade(rows, agent, suggestions, picks);
      picks := [0] + picks;
    } else {
      assert [] + rows == rows;
    }
  }
}
