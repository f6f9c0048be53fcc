/**
 * The stage and disposition keys made from display names (agent-builder/commit.ts).
 * String.prototype.toLowerCase is a parameter: nothing is assumed of it but that
 * it leaves keys alone.
 */
module Slug {
  import opened Common
  import TextRuns

  predicate KeyChar(c: char) { 'a' <= c <= 'z' || '0' <= c <= '9' }

  type Lowering = string -> string

  /** Lower-casing changes no text of lower-case letters, digits and underscores. */
  ghost predicate LeavesKeys(lower: Lowering) {
    forall s: string :: (forall i :: 0 <= i < |s| ==> KeyChar(s[i]) || s[i] == '_') ==> lower(s) == s
  }

  /** What follows the characters that start no key. */
  function Skip(s: string): (rest: string)
    ensures |rest| <= |s| && (rest != "" ==> KeyChar(rest[0]))
    ensures s != "" && !KeyChar(s[0]) ==> |rest| < |s|
  {
    if s != "" && !KeyChar(s[0]) then Skip(s[1..]) else s
  }

  /** Every run of other characters becomes one underscore. */
  function Squeeze(s: string): string
    decreases |s|
  {
    if s == "" then ""
    else if KeyChar(s[0]) then [s[0]] + Squeeze(s[1..])
    else "_" + Squeeze(Skip(s))
  }

  function TrimLeft(s: string): string {
    if s != "" && s[0] == '_' then TrimLeft(s[1..]) else s
  }

  function TrimRight(s: string): string {
    if s != "" && s[|s| - 1] == '_' then TrimRight(s[..|s| - 1]) else s
  }

  /** The key of a scoring criterion; that of a stage or disposition is never empty. */
  function CriterionKey(text: string, lower: Lowering): string { TrimRight(TrimLeft(Squeeze(lower(text)))) }

  function Slugify(text: string, lower: Lowering): string {
    var slug := CriterionKey(text, lower);
    if slug == "" then "stage" else slug
  }

  // ---- What a slug is -----------------------------------------------------------

  /** How many key characters `s` starts with. */
  function Run(s: string): (n: nat)
    ensures n <= |s| && (forall i :: 0 <= i < n ==> KeyChar(s[i])) && (n < |s| ==> !KeyChar(s[n]))
    ensures s != "" && KeyChar(s[0]) ==> n > 0
  {
    if s != "" && KeyChar(s[0]) then 1 + Run(s[1..]) else 0
  }

  /** The words of a text: its maximal runs of key characters. */
  function Words(s: string): seq<string>
    decreases |s|
  {
    if s == "" then []
    else if KeyChar(s[0]) then [s[..Run(s)]] + Words(s[Run(s)..])
    else Words(s[1..])
  }

  function Join(words: seq<string>): string {
    if words == [] then "" else if |words| == 1 then words[0] else words[0] + "_" + Join(words[1..])
  }

  ghost predicate Word(w: string) { w != "" && forall i :: 0 <= i < |w| ==> KeyChar(w[i]) }

  ghost predicate AllWords(words: seq<string>) { forall w :: w in words ==> Word(w) }

  lemma {:induction false} WordsAreWords(s: string)
    ensures AllWords(Words(s))
    decreases |s|
  {
    if s != "" {
      if KeyChar(s[0]) { WordsAreWords(s[Run(s)..]); } else { WordsAreWords(s[1..]); }
    }
  }

  lemma {:induction false} SkipKeepsWords(s: string)
    ensures Words(Skip(s)) == Words(s)
  {
    if s != "" && !KeyChar(s[0]) { SkipKeepsWords(s[1..]); }
  }

  lemma {:induction false} SqueezeRun(s: string)
    ensures Squeeze(s) == s[..Run(s)] + Squeeze(s[Run(s)..])
  {
    if s != "" && KeyChar(s[0]) {
      var tail := s[1..];
      SqueezeRun(tail);
      assert [s[0]] + tail[..Run(tail)] == s[..Run(s)];
      assert tail[Run(tail)..] == s[Run(s)..];
      assert [s[0]] + (tail[..Run(tail)] + Squeeze(s[Run(s)..])) == s[..Run(s)] + Squeeze(s[Run(s)..]);
    }
  }

  lemma {:induction false} TrimRightAfter(a: string, b: string)
    requires TrimRight(b) != ""
    ensures TrimRight(a + b) == a + TrimRight(b)
    decreases |b|
  {
    var n := |b| - 1;
    if b[n] == '_' {
      assert (a + b)[..|a + b| - 1] == a + b[..n];
      TrimRightAfter(a, b[..n]);
    }
  }

  lemma {:induction false} JoinNotEmpty(words: seq<string>)
    requires words != [] && AllWords(words)
    ensures Join(words) != "" && KeyChar(Join(words)[0])
  {
    assert Word(words[0]);
  }

  /** A text that starts with a word is its words joined, but for underscores at the end. */
  lemma {:induction false} SqueezeJoins(s: string)
    requires s != "" && KeyChar(s[0])
    ensures TrimRight(Squeeze(s)) == Join(Words(s)) && Words(s) != []
    decreases |s|
  {
    SqueezeRun(s);
    var run, rest := s[..Run(s)], s[Run(s)..];
    assert TrimRight(run) == run;
    if rest == "" {
      assert Squeeze(s) == run;
      assert Words(s) == [run];
    } else {
      var next := Skip(rest);
      SkipKeepsWords(rest);
      assert Squeeze(s) == run + "_" + Squeeze(next);
      assert Words(s) == [run] + Words(next);
      if next == "" {
        assert Squeeze(s)[..|run|] == run && Squeeze(s)[|run|] == '_';
      } else {
        SqueezeJoins(next);
        WordsAreWords(next);
        JoinNotEmpty(Words(next));
        TrimRightAfter(run + "_", Squeeze(next));
      }
    }
  }

  /** The slug of a text is its lower-case words joined by underscores, or "stage" if it has none. */
  lemma SlugIsWords(text: string, lower: Lowering)
    ensures Slugify(text, lower) == if Words(lower(text)) == [] then "stage" else Join(Words(lower(text)))
  {
    var s := lower(text);
    var first := Skip(s);
    SkipKeepsWords(s);
    if first == "" {
      if s != "" { assert Squeeze(s) == "_" + Squeeze(first); }
    } else {
      SqueezeJoins(first);
      WordsAreWords(first);
      JoinNotEmpty(Words(first));
      SqueezeRun(first);
      if !KeyChar(s[0]) {
        assert Squeeze(s)[1..] == Squeeze(first);
      }
      assert TrimLeft(Squeeze(s)) == Squeeze(first);
    }
  }

  // ---- Equal slugs ---------------------------------------------------------------

  /** The words a slug stands for. */
  function SlugWords(text: string, lower: Lowering): seq<string> {
    if Words(lower(text)) == [] then ["stage"] else Words(lower(text))
  }

  lemma SlugJoins(text: string, lower: Lowering)
    ensures Slugify(text, lower) == Join(SlugWords(text, lower)) && SlugWords(text, lower) != []
            && AllWords(SlugWords(text, lower))
  {
    SlugIsWords(text, lower);
    WordsAreWords(lower(text));
    assert Word("stage");
  }

  lemma {:induction false} WordsOfJoin(words: seq<string>)
    requires AllWords(words)
    ensures Words(Join(words)) == words
  {
    if words != [] {
      var w := words[0];
      assert Word(w);
      if |words| == 1 {
        WordFirst(w, "");
        assert w + "" == w && words == [w];
      } else {
        var rest := Join(words[1..]);
        WordFirst(w, "_" + rest);
        WordsOfJoin(words[1..]);
        assert Join(words) == w + ("_" + rest);
        assert ("_" + rest)[1..] == rest;
      }
    }
  }

  lemma {:induction false} RunOf(w: string, rest: string)
    requires (forall i :: 0 <= i < |w| ==> KeyChar(w[i])) && (rest != "" ==> !KeyChar(rest[0]))
    ensures Run(w + rest) == |w|
  {
    if w == "" {
      assert w + rest == rest;
    } else {
      assert (w + rest)[1..] == w[1..] + rest;
      RunOf(w[1..], rest);
    }
  }

  lemma {:induction false} WordFirst(w: string, rest: string)
    requires Word(w) && (rest != "" ==> !KeyChar(rest[0]))
    ensures Words(w + rest) == [w] + Words(rest)
  {
    var s := w + rest;
    assert s[0] == w[0];
    RunOf(w, rest);
    assert s[..|w|] == w && s[|w|..] == rest;
  }

  /** Two names get one key exactly when they have the same words, whatever else is written between them. */
  lemma SameSlugExactly(a: string, b: string, lower: Lowering)
    ensures Slugify(a, lower) == Slugify(b, lower) <==> SlugWords(a, lower) == SlugWords(b, lower)
  {
    SlugJoins(a, lower);
    SlugJoins(b, lower);
    WordsOfJoin(SlugWords(a, lower));
    WordsOfJoin(SlugWords(b, lower));
  }

  lemma {:induction false} JoinIsKey(words: seq<string>)
    requires AllWords(words)
    ensures forall i :: 0 <= i < |Join(words)| ==> KeyChar(Join(words)[i]) || Join(words)[i] == '_'
  {
    if words != [] {
      assert Word(words[0]);
      JoinIsKey(words[1..]);
    }
  }

  /** A key is its own key. */
  lemma SlugOfSlug(text: string, lower: Lowering)
    requires LeavesKeys(lower)
    ensures Slugify(Slugify(text, lower), lower) == Slugify(text, lower)
  {
    var slug := Slugify(text, lower);
    SlugJoins(text, lower);
    JoinIsKey(SlugWords(text, lower));
    assert lower(slug) == slug;
    WordsOfJoin(SlugWords(text, lower));
    SlugIsWords(slug, lower);
  }

  // ---- Told from the text alone ----------------------------------------------------

  lemma {:induction false} WordsFindRuns(text: string, i: nat) returns (starts: seq<nat>)
    requires i <= |text|
    requires i == 0 || i == |text| || !KeyChar(text[i - 1]) || !KeyChar(text[i])
    ensures TextRuns.AreRuns(text, KeyChar, i, Words(text[i..]), starts)
    decreases |text| - i
  {
    hide TextRuns.AreRuns, TextRuns.RunAt, KeyChar;
    var rest := text[i..];
    if i == |text| {
      starts := [];
      TextRuns.NoMoreRuns(text, KeyChar);
    } else if KeyChar(text[i]) {
      var n := Run(rest);
      RunFillsOut(text, i);
      starts := WordsFindRuns(text, i + n);
      TextRuns.RunFirst(text, KeyChar, i, i + n, Words(text[i + n..]), starts);
      starts := [i] + starts;
    } else {
      starts := WordsFindRuns(text, i + 1);
      assert rest[1..] == text[i + 1..];
      TextRuns.RunSkip(text, KeyChar, i, Words(text[i + 1..]), starts);
    }
  }

  lemma RunFillsOut(text: string, i: nat)
    requires i < |text| && KeyChar(text[i]) && (i == 0 || !KeyChar(text[i - 1]))
    ensures TextRuns.RunAt(text, KeyChar, i, i + Run(text[i..]))
    ensures i + Run(text[i..]) < |text| ==> !KeyChar(text[i + Run(text[i..])])
    ensures var n, rest := Run(text[i..]), text[i..]; rest[..n] == text[i..i + n] && rest[n..] == text[i + n..]
  {
    var rest := text[i..];
    assert forall k :: i <= k < |text| ==> text[k] == rest[k - i];
  }

  /** The words of a text are its maximal runs of key characters, all of them and in order. */
  lemma WordsAreRuns(text: string) returns (starts: seq<nat>)
    ensures TextRuns.AreRuns(text, KeyChar, 0, Words(text), starts)
  {
    starts := WordsFindRuns(text, 0);
    assert text[0..] == text;
  }

  /** In lower-case letters and digits alone there is one word, which is its own key. */
  lemma PlainIsKey(text: string, lower: Lowering)
    requires LeavesKeys(lower) && text != ""
    requires forall i :: 0 <= i < |text| ==> 'a' <= text[i] <= 'z' || '0' <= text[i] <= '9'
    ensures Slugify(text, lower) == text
  {
    assert lower(text) == text;
    assert Word(text);
    WordsOfJoin([text]);
    SlugIsWords(text, lower);
  }

  /** A key is never empty, has single underscores between lower-case letters and digits, and none at its ends. */
  lemma SlugIsKey(text: string, lower: Lowering)
    ensures var slug := Slugify(text, lower);
            && slug != "" && slug[0] != '_' && slug[|slug| - 1] != '_'
            && (forall i :: 0 <= i < |slug| ==> 'a' <= slug[i] <= 'z' || '0' <= slug[i] <= '9' || slug[i] == '_')
            && (forall i :: 0 < i < |slug| ==> slug[i - 1] != '_' || slug[i] != '_')
  {
    SlugJoins(text, lower);
    JoinIsTidy(SlugWords(text, lower));
  }

  lemma {:induction false} JoinIsTidy(words: seq<string>)
    requires words != [] && AllWords(words)
    ensures var slug := Join(words);
            && slug != "" && slug[0] != '_' && slug[|slug| - 1] != '_'
            && (forall i :: 0 <= i < |slug| ==> KeyChar(slug[i]) || slug[i] == '_')
            && (forall i :: 0 < i < |slug| ==> slug[i - 1] != '_' || slug[i] != '_')
  {
    var w := words[0];
    assert Word(w);
    if |words| > 1 {
      var rest := Join(words[1..]);
      var slug := w + "_" + rest;
      JoinIsTidy(words[1..]);
      assert Join(words) == slug;
      forall i | 0 < i < |slug| ensures slug[i - 1] != '_' || slug[i] != '_' {
        if i > |w| + 1 { assert slug[i] == rest[i - |w| - 1] && slug[i - 1] == rest[i - |w| - 2]; }
      }
    }
  }
}
