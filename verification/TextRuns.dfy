/**
 * The maximal runs of certain characters in a text, told by their positions
 * alone: the reference against which splitting into words is proved.
 */
module TextRuns {
  /** `[a, b)` is a run of characters in `keep` that cannot be lengthened on either side. */
  ghost predicate RunAt(text: string, keep: char -> bool, a: nat, b: nat) {
    && a < b <= |text|
    && (forall i :: a <= i < b ==> keep(text[i]))
    && (a > 0 ==> !keep(text[a - 1]))
    && (b < |text| ==> !keep(text[b]))
  }

  ghost predicate WordAt(text: string, keep: char -> bool, a: nat, word: string) {
    RunAt(text, keep, a, a + |word|) && text[a..a + |word|] == word
  }

  ghost predicate Increasing(starts: seq<nat>) { forall j, k :: 0 <= j < k < |starts| ==> starts[j] < starts[k] }

  /** `words` are the runs of `text` that begin at `from` or later, from left to right; they begin at `starts`. */
  ghost predicate AreRuns(text: string, keep: char -> bool, from: nat, words: seq<string>, starts: seq<nat>) {
    && |starts| == |words| && Increasing(starts)
    && (forall k :: 0 <= k < |starts| ==> from <= starts[k] && WordAt(text, keep, starts[k], words[k]))
    && (forall a: nat, b: nat :: from <= a && RunAt(text, keep, a, b) ==> a in starts)
  }

  /** No run begins inside another one. */
  lemma NoneInside(text: string, keep: char -> bool, a: nat, b: nat, a': nat, b': nat)
    requires RunAt(text, keep, a, b) && RunAt(text, keep, a', b') && a < a'
    ensures b < a'
  {
    assert a' <= b ==> a <= a' - 1 < b;
  }

  lemma IncreasingFirst(a: nat, starts: seq<nat>)
    requires Increasing(starts) && forall k :: 0 <= k < |starts| ==> a < starts[k]
    ensures Increasing([a] + starts)
  {
  }

  /** A run in front of the others. */
  lemma RunFirst(text: string, keep: char -> bool, a: nat, b: nat, words: seq<string>, starts: seq<nat>)
    requires RunAt(text, keep, a, b) && AreRuns(text, keep, b, words, starts)
    ensures AreRuns(text, keep, a, [text[a..b]] + words, [a] + starts)
  {
    hide Increasing;
    var words', starts' := [text[a..b]] + words, [a] + starts;
    IncreasingFirst(a, starts);
    assert WordAt(text, keep, a, words'[0]);
    hide RunAt, WordAt;
    forall k | 0 < k < |starts'| ensures b <= starts'[k] && WordAt(text, keep, starts'[k], words'[k]) {
      assert starts'[k] == starts[k - 1] && words'[k] == words[k - 1];
    }
    forall a': nat, b': nat | a <= a' && RunAt(text, keep, a', b') ensures a' in starts' {
      if a' == a { assert starts'[0] == a; } else {
        NoneInside(text, keep, a, b, a', b');
      }
    }
  }

  lemma NoMoreRuns(text: string, keep: char -> bool)
    ensures AreRuns(text, keep, |text|, [], [])
  {
  }

  /** A character that belongs to no run. */
  lemma RunSkip(text: string, keep: char -> bool, from: nat, words: seq<string>, starts: seq<nat>)
    requires from < |text| && !keep(text[from]) && AreRuns(text, keep, from + 1, words, starts)
    ensures AreRuns(text, keep, from, words, starts)
  {
  }

  /** The word that a run is, and that it is the first one just when nothing of a run precedes it. */
  lemma RunIsWord(text: string, keep: char -> bool, words: seq<string>, starts: seq<nat>, a: nat, b: nat)
    returns (j: nat)
    requires AreRuns(text, keep, 0, words, starts) && RunAt(text, keep, a, b)
    ensures j < |words| && starts[j] == a && words[j] == text[a..b]
    ensures j == 0 <==> forall i :: 0 <= i < a ==> !keep(text[i])
  {
    j :| 0 <= j < |starts| && starts[j] == a;
    assert WordAt(text, keep, a, words[j]);
    if j > 0 {
      assert starts[0] < a && WordAt(text, keep, starts[0], words[0]);
      assert keep(text[starts[0]]);
    } else if i :| 0 <= i < a && keep(text[i]) {
      var a', b' := RunAround(text, keep, i);
    }
  }

  /** Every such character lies in a run. */
  lemma RunAround(text: string, keep: char -> bool, i: nat) returns (a: nat, b: nat)
    requires i < |text| && keep(text[i])
    ensures a <= i < b && RunAt(text, keep, a, b)
  {
    a := LeftEnd(text, keep, i);
    b := RightEnd(text, keep, i);
  }

  lemma {:induction false} LeftEnd(text: string, keep: char -> bool, i: nat) returns (a: nat)
    requires i < |text| && keep(text[i])
    ensures a <= i && (forall k :: a <= k <= i ==> keep(text[k])) && (a > 0 ==> !keep(text[a - 1]))
  {
    a := i;
    if i > 0 && keep(text[i - 1]) { a := LeftEnd(text, keep, i - 1); }
  }

  lemma {:induction false} RightEnd(text: string, keep: char -> bool, i: nat) returns (b: nat)
    requires i < |text| && keep(text[i])
    ensures i < b <= |text| && (forall k :: i <= k < b ==> keep(text[k])) && (b < |text| ==> !keep(text[b]))
    decreases |text| - i
  {
    b := i + 1;
    if b < |text| && keep(text[b]) { b := RightEnd(text, keep, b); }
  }
}
