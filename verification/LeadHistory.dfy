/**
 * A lead's moves through its pipeline (crm/pipeline.ts), one after another. A
 * move is dated by now(), the time its transaction began, and the history is
 * read back in the order of those dates, which need not be the order of writing.
 */
module LeadHistory {
  import opened Common

  datatype Move = Move(lead: nat, from: Option<nat>, to: nat, at: nat)

  /** A lead's moves in the order in which they were written. */
  function MovesOf(history: seq<Move>, lead: nat): seq<Move> {
    if history == [] then []
    else
      var m := history[|history| - 1];
      MovesOf(history[..|history| - 1], lead) + if m.lead == lead then [m] else []
  }

  lemma MovesOfAppend(history: seq<Move>, m: Move, lead: nat)
    ensures MovesOf(history + [m], lead) == MovesOf(history, lead) + if m.lead == lead then [m] else []
  {
    assert (history + [m])[..|history|] == history;
  }

  lemma {:induction false} MovesAreRows(history: seq<Move>, lead: nat, m: Move)
    requires m in MovesOf(history, lead)
    ensures m in history
  {
    if history != [] {
      var n := |history| - 1;
      if m in MovesOf(history[..n], lead) { MovesAreRows(history[..n], lead, m); }
      LastMember(history);
    }
  }

  // ---- The order of reading ---------------------------------------------------------

  /** A row read back: after those that began no later. */
  function Placed(moves: seq<Move>, m: Move): seq<Move> {
    if moves == [] || m.at < moves[0].at then [m] + moves else [moves[0]] + Placed(moves[1..], m)
  }

  /** ORDER BY created_at ASC. */
  function Listed(moves: seq<Move>): seq<Move> {
    if moves == [] then [] else Placed(Listed(moves[..|moves| - 1]), moves[|moves| - 1])
  }

  lemma ListedAppend(moves: seq<Move>, m: Move)
    ensures Listed(moves + [m]) == Placed(Listed(moves), m)
  {
    assert (moves + [m])[..|moves|] == moves;
  }

  ghost predicate Ordered(moves: seq<Move>) {
    moves != [] ==> (forall m :: m in moves[1..] ==> moves[0].at <= m.at) && Ordered(moves[1..])
  }

  lemma {:induction false} PlacedMembers(moves: seq<Move>, m: Move)
    ensures multiset(Placed(moves, m)) == multiset(moves) + multiset{m}
  {
    if moves != [] && moves[0].at <= m.at {
      PlacedMembers(moves[1..], m);
      assert moves == [moves[0]] + moves[1..];
    }
  }

  lemma {:induction false} PlacedIsSorted(moves: seq<Move>, m: Move)
    requires Ordered(moves)
    ensures Ordered(Placed(moves, m))
  {
    if moves != [] && moves[0].at <= m.at {
      PlacedIsSorted(moves[1..], m);
      PlacedMembers(moves[1..], m);
      forall x | x in Placed(moves[1..], m) ensures moves[0].at <= x.at {
        assert x in multiset(moves[1..]) + multiset{m};
      }
      assert Placed(moves, m)[1..] == Placed(moves[1..], m);
    } else {
      assert Placed(moves, m)[1..] == moves;
    }
  }

  /** The listing holds the same moves, by date. */
  lemma {:induction false} ListedIsSorted(moves: seq<Move>)
    ensures Ordered(Listed(moves)) && multiset(Listed(moves)) == multiset(moves)
  {
    if moves != [] {
      var before, m := moves[..|moves| - 1], moves[|moves| - 1];
      ListedIsSorted(before);
      PlacedIsSorted(Listed(before), m);
      PlacedMembers(Listed(before), m);
      assert moves == before + [m];
    }
  }

  lemma ListedMembers(moves: seq<Move>, m: Move)
    ensures m in Listed(moves) <==> m in moves
  {
    ListedIsSorted(moves);
    assert m in multiset(Listed(moves)) <==> m in multiset(moves);
  }

  // ---- Chains -------------------------------------------------------------------------

  /** Each move starts where the one before it ended. */
  predicate Chain(moves: seq<Move>, start: Option<nat>, current: Option<nat>) {
    if moves == [] then start == current
    else moves[0].from == start && Chain(moves[1..], Some(moves[0].to), current)
  }

  /** The stage that moves so listed show at a time. */
  function StageShown(moves: seq<Move>, start: Option<nat>, at: nat): Option<nat> {
    if moves == [] || at < moves[0].at then start else StageShown(moves[1..], Some(moves[0].to), at)
  }

  ghost predicate NoneLater(moves: seq<Move>, at: nat) { forall m :: m in moves ==> m.at <= at }

  lemma {:induction false} ChainEnds(moves: seq<Move>, start: Option<nat>, current: Option<nat>, other: Option<nat>)
    requires Chain(moves, start, current)
    ensures Chain(moves, start, other) <==> other == current
  {
    if moves != [] { ChainEnds(moves[1..], Some(moves[0].to), current, other); }
  }

  lemma {:induction false} ChainGrowsExactly(moves: seq<Move>, start: Option<nat>, current: Option<nat>, m: Move)
    requires Chain(moves, start, current)
    ensures Chain(moves + [m], start, Some(m.to)) <==> m.from == current
  {
    if moves != [] {
      ChainGrowsExactly(moves[1..], Some(moves[0].to), current, m);
      assert (moves + [m])[1..] == moves[1..] + [m];
    }
  }

  /** Before others a move only fits where nothing moves: from a stage to that same stage. */
  lemma {:induction false} PlacedChainsExactly(moves: seq<Move>, start: Option<nat>, current: Option<nat>, m: Move)
    requires Chain(moves, start, current)
    ensures Chain(Placed(moves, m), start, Some(m.to))
            <==> m.from == current && (NoneLater(moves, m.at) || m.from == Some(m.to) == StageShown(moves, start, m.at))
  {
    if moves == [] {
    } else if m.at < moves[0].at {
      assert Placed(moves, m)[1..] == moves && moves[0] in moves;
      ChainEnds(moves[1..], Some(moves[0].to), current, Some(m.to));
    } else {
      PlacedChainsExactly(moves[1..], Some(moves[0].to), current, m);
      assert Placed(moves, m)[1..] == Placed(moves[1..], m);
      assert moves == [moves[0]] + moves[1..];
    }
  }

  /** The last move listed by a time. */
  function LastShown(moves: seq<Move>, at: nat): (m: Option<Move>)
    ensures m.Some? ==> m.value in moves && m.value.at <= at
  {
    if moves == [] || at < moves[0].at then None
    else
      var later := LastShown(moves[1..], at);
      if later.Some? then later else Some(moves[0])
  }

  lemma {:induction false} ShownIsLast(moves: seq<Move>, start: Option<nat>, at: nat)
    ensures StageShown(moves, start, at)
         == if LastShown(moves, at).None? then start else Some(LastShown(moves, at).value.to)
  {
    if moves != [] { ShownIsLast(moves[1..], Some(moves[0].to), at); }
  }

  lemma {:induction false} ShownAtEnd(moves: seq<Move>, start: Option<nat>, current: Option<nat>, at: nat)
    requires Chain(moves, start, current) && NoneLater(moves, at)
    ensures StageShown(moves, start, at) == current
  {
    if moves != [] {
      assert moves[0] in moves;
      ShownAtEnd(moves[1..], Some(moves[0].to), current, at);
    }
  }

  lemma {:induction false} PlacedLast(moves: seq<Move>, m: Move, at: nat)
    requires Ordered(moves)
    ensures var last := LastShown(moves, at);
            LastShown(Placed(moves, m), at)
            == if m.at <= at && (last.None? || last.value.at <= m.at) then Some(m) else last
  {
    if moves == [] {
    } else if m.at < moves[0].at {
      assert Placed(moves, m)[1..] == moves;
      assert moves == [moves[0]] + moves[1..];
    } else {
      PlacedLast(moves[1..], m, at);
      assert Placed(moves, m)[1..] == Placed(moves[1..], m);
    }
  }

  // ---- The tables ---------------------------------------------------------------------

  /** Leads, their moves, and the time the next transaction would begin. */
  datatype Leads = Leads(current: map<nat, Option<nat>>, history: seq<Move>, now: nat)

  ghost predicate PastOnly(s: Leads) { forall i :: 0 <= i < |s.history| ==> s.history[i].at < s.now }

  /** The lead's listed history leads from the stage it was created in to its current one. */
  predicate ListOk(s: Leads, lead: nat, start: Option<nat>)
    requires lead in s.current
  {
    Chain(Listed(MovesOf(s.history, lead)), start, s.current[lead])
  }

  /** The same for the order of writing, which no query asks for. */
  predicate WritingOk(s: Leads, lead: nat, start: Option<nat>)
    requires lead in s.current
  {
    Chain(MovesOf(s.history, lead), start, s.current[lead])
  }

  ghost predicate SameLeads(s: Leads, begun: map<nat, Option<nat>>) {
    forall lead: nat :: lead in begun <==> lead in s.current
  }

  /** `begun` remembers the stage each lead was created in. */
  ghost predicate HistoryOk(s: Leads, begun: map<nat, Option<nat>>) {
    SameLeads(s, begun) && PastOnly(s) && forall lead: nat :: lead in begun ==> ListOk(s, lead, begun[lead])
  }

  ghost predicate WrittenOk(s: Leads, begun: map<nat, Option<nat>>) {
    SameLeads(s, begun) && forall lead: nat :: lead in begun ==> WritingOk(s, lead, begun[lead])
  }

  /** The rows once a transition that began at `at` and read stage `from` has written. */
  function Moved(s: Leads, lead: nat, from: Option<nat>, to: nat, at: nat): Leads {
    Leads(s.current[lead := Some(to)], s.history + [Move(lead, from, to, at)], s.now + 1)
  }

  lemma OthersKept(s: Leads, lead: nat, from: Option<nat>, to: nat, at: nat, other: nat)
    requires other != lead
    ensures MovesOf(Moved(s, lead, from, to, at).history, other) == MovesOf(s.history, other)
  {
    MovesOfAppend(s.history, Move(lead, from, to, at), other);
  }

  lemma OwnMoves(s: Leads, lead: nat, from: Option<nat>, to: nat, at: nat)
    ensures MovesOf(Moved(s, lead, from, to, at).history, lead) == MovesOf(s.history, lead) + [Move(lead, from, to, at)]
  {
    MovesOfAppend(s.history, Move(lead, from, to, at), lead);
  }

  /** A move keeps every history a chain, as written, exactly when the stage it read is still the lead's stage. */
  lemma MoveKeepsChainExactly(s: Leads, begun: map<nat, Option<nat>>, lead: nat, from: Option<nat>, to: nat, at: nat)
    requires WrittenOk(s, begun) && lead in begun
    ensures WrittenOk(Moved(s, lead, from, to, at), begun) <==> from == s.current[lead]
  {
    var after := Moved(s, lead, from, to, at);
    assert WritingOk(s, lead, begun[lead]);
    OwnMoves(s, lead, from, to, at);
    ChainGrowsExactly(MovesOf(s.history, lead), begun[lead], s.current[lead], Move(lead, from, to, at));
    assert WritingOk(after, lead, begun[lead]) <==> from == s.current[lead];
    forall other: nat | other in begun && other != lead ensures WritingOk(after, other, begun[other]) {
      assert WritingOk(s, other, begun[other]);
      OthersKept(s, lead, from, to, at, other);
    }
  }

  /** The stage in which the listed history shows the lead at that time. */
  function ShownAt(s: Leads, lead: nat, start: Option<nat>, at: nat): Option<nat> {
    StageShown(Listed(MovesOf(s.history, lead)), start, at)
  }

  /** The move fits in where it is listed. */
  ghost predicate Fits(s: Leads, start: Option<nat>, lead: nat, from: Option<nat>, to: nat, at: nat)
    requires lead in s.current
  {
    && from == s.current[lead]
    && (NoneLater(MovesOf(s.history, lead), at) || from == Some(to) == ShownAt(s, lead, start, at))
  }

  lemma NoneListedLater(moves: seq<Move>, at: nat)
    ensures NoneLater(Listed(moves), at) <==> NoneLater(moves, at)
  {
    forall m ensures m in Listed(moves) <==> m in moves {
      ListedMembers(moves, m);
    }
  }

  lemma OwnListExactly(s: Leads, start: Option<nat>, lead: nat, from: Option<nat>, to: nat, at: nat)
    requires lead in s.current && ListOk(s, lead, start)
    ensures ListOk(Moved(s, lead, from, to, at), lead, start) <==> Fits(s, start, lead, from, to, at)
  {
    var moves, m := MovesOf(s.history, lead), Move(lead, from, to, at);
    OwnMoves(s, lead, from, to, at);
    NoneListedLater(moves, at);
    ListedAppend(moves, m);
    PlacedChainsExactly(Listed(moves), start, s.current[lead], m);
  }

  lemma OthersListOk(s: Leads, start: Option<nat>, lead: nat, from: Option<nat>, to: nat, at: nat, other: nat)
    requires other in s.current && other != lead && ListOk(s, other, start)
    ensures ListOk(Moved(s, lead, from, to, at), other, start)
  {
    OthersKept(s, lead, from, to, at, other);
  }

  lemma StaysPast(s: Leads, lead: nat, from: Option<nat>, to: nat, at: nat)
    requires PastOnly(s) && at <= s.now
    ensures PastOnly(Moved(s, lead, from, to, at))
  {
  }

  /**
   * As listed, there is one more condition: no written move of the lead began
   * later; or else the move changes nothing, and did not where it is listed.
   */
  lemma MoveKeepsListExactly(s: Leads, begun: map<nat, Option<nat>>, lead: nat, from: Option<nat>, to: nat, at: nat)
    requires HistoryOk(s, begun) && lead in begun && at <= s.now
    ensures HistoryOk(Moved(s, lead, from, to, at), begun) <==> Fits(s, begun[lead], lead, from, to, at)
  {
    var after := Moved(s, lead, from, to, at);
    assert ListOk(s, lead, begun[lead]);
    StaysPast(s, lead, from, to, at);
    var own := ListOk(after, lead, begun[lead]);
    assert own <==> Fits(s, begun[lead], lead, from, to, at) by { OwnListExactly(s, begun[lead], lead, from, to, at); }
    forall other: nat | other in begun && other != lead ensures ListOk(after, other, begun[other]) {
      OthersListOk(s, begun[other], lead, from, to, at, other);
    }
    assert HistoryOk(after, begun) <==> own;
  }

  lemma NothingLater(s: Leads, lead: nat, at: nat)
    requires PastOnly(s) && s.now <= at + 1
    ensures NoneLater(MovesOf(s.history, lead), at)
  {
    forall m | m in MovesOf(s.history, lead) ensures m.at <= at {
      MovesAreRows(s.history, lead, m);
    }
  }

  /** From now on the listing shows the current stage. */
  lemma ShownNow(s: Leads, lead: nat, start: Option<nat>, at: nat)
    requires PastOnly(s) && s.now <= at + 1 && lead in s.current && ListOk(s, lead, start)
    ensures ShownAt(s, lead, start, at) == s.current[lead]
  {
    var moves := MovesOf(s.history, lead);
    NothingLater(s, lead, at);
    NoneListedLater(moves, at);
    ShownAtEnd(Listed(moves), start, s.current[lead], at);
  }

  // ---- One after another --------------------------------------------------------------

  /** transitionLeadStage as a whole, given how many stages exist. */
  function Transitioned(s: Leads, stages: nat, lead: nat, to: nat): Leads {
    if lead !in s.current || to >= stages then s else Moved(s, lead, s.current[lead], to, s.now)
  }

  function RunMoves(s: Leads, stages: nat, moves: seq<(nat, nat)>): Leads
    decreases |moves|
  {
    if moves == [] then s else RunMoves(Transitioned(s, stages, moves[0].0, moves[0].1), stages, moves[1..])
  }

  lemma TransitionKeepsList(s: Leads, begun: map<nat, Option<nat>>, stages: nat, lead: nat, to: nat)
    requires HistoryOk(s, begun)
    ensures HistoryOk(Transitioned(s, stages, lead, to), begun)
  {
    if lead in s.current && to < stages {
      NothingLater(s, lead, s.now);
      MoveKeepsListExactly(s, begun, lead, s.current[lead], to, s.now);
    }
  }

  /** One after another, any moves (some refused) leave every lead's history a chain ending at its current stage. */
  lemma {:induction false} HistoryIsAChain(s: Leads, begun: map<nat, Option<nat>>, stages: nat, moves: seq<(nat, nat)>)
    requires HistoryOk(s, begun)
    ensures HistoryOk(RunMoves(s, stages, moves), begun)
    decreases |moves|
  {
    if moves != [] {
      var (lead, to) := moves[0];
      TransitionKeepsList(s, begun, stages, lead, to);
      HistoryIsAChain(Transitioned(s, stages, lead, to), begun, stages, moves[1..]);
    }
  }
}
