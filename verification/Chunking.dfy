/**
 * The text chunker of the knowledge base (voice_gateway/knowledge/chunking.py).
 *
 * `ChunkText` is the loop; `SpansFrom` is the sequence of source intervals it
 * walks through. The theorems are about the intervals (they tile the text,
 * they never cut a word shorter than `maxChars`) and are carried back to the
 * words of the original, un-normalised text by `KeptWordsSurvive`.
 */
module Chunking {
  import opened Common
  import TextRuns

  datatype ChunkResult = Chunks(chunks: seq<string>) | MaxCharsNotPositive | OverlapOutOfRange

  /** The half-open source interval of one chunk. */
  datatype Span = Span(start: nat, end: nat)

  // ---- Whitespace, str.split, str.join, str.strip -------------------------

  predicate IsSpace(c: char) {
    || '\t' <= c <= '\r' || '\U{1C}' <= c <= ' ' || c == '\U{85}' || c == '\U{A0}' || c == '\U{1680}'
    || '\U{2000}' <= c <= '\U{200A}' || c == '\U{2028}' || c == '\U{2029}' || c == '\U{202F}'
    || c == '\U{205F}' || c == '\U{3000}'
  }

  predicate IsWord(w: string) {
    w != "" && forall i :: 0 <= i < |w| ==> !IsSpace(w[i])
  }

  function Flush(word: string): seq<string> {
    if word == "" then [] else [word]
  }

  /** `text.split()`, with the word read so far as an accumulator. */
  function SplitFrom(text: string, word: string): seq<string>
    decreases |text|
  {
    if text == "" then Flush(word)
    else if IsSpace(text[0]) then Flush(word) + SplitFrom(text[1..], "")
    else SplitFrom(text[1..], word + [text[0]])
  }

  function Words(text: string): seq<string> { SplitFrom(text, "") }

  function Join(words: seq<string>): string {
    if words == [] then ""
    else if |words| == 1 then words[0]
    else words[0] + " " + Join(words[1..])
  }

  function Normalize(text: string): string { Join(Words(text)) }

  function LStrip(s: string): string {
    if s != "" && IsSpace(s[0]) then LStrip(s[1..]) else s
  }

  function RStrip(s: string): string {
    if s != "" && IsSpace(s[|s| - 1]) then RStrip(s[..|s| - 1]) else s
  }

  function Strip(s: string): string { RStrip(LStrip(s)) }

  /** Normalised text: single blanks between words, none at either end. */
  ghost predicate Clean(t: string) {
    && (forall i :: 0 <= i < |t| && IsSpace(t[i]) ==> t[i] == ' ' && 0 < i < |t| - 1)
    && (forall i :: 0 < i < |t| && IsSpace(t[i - 1]) ==> !IsSpace(t[i]))
  }

  // ---- One step of the loop -----------------------------------------------

  /** `t.rfind(" ", lo, hi)` */
  function RFind(t: string, lo: nat, hi: nat): (r: int)
    requires hi <= |t|
    ensures r == -1 || (lo <= r < hi && t[r] == ' ')
    decreases hi
  {
    if hi <= lo then -1
    else if t[hi - 1] == ' ' then hi - 1
    else RFind(t, lo, hi - 1)
  }

  /** `t.find(" ", lo, hi)` */
  function Find(t: string, lo: nat, hi: nat): (r: int)
    requires hi <= |t|
    ensures r == -1 || (lo <= r < hi && t[r] == ' ')
    decreases hi - lo
  {
    if hi <= lo then -1
    else if t[lo] == ' ' then lo
    else Find(t, lo + 1, hi)
  }

  lemma {:induction false} RFindIsLast(t: string, lo: nat, hi: nat, i: nat)
    requires hi <= |t| && lo <= i < hi && RFind(t, lo, hi) < i
    ensures t[i] != ' '
    decreases hi
  {
    if i < hi - 1 { RFindIsLast(t, lo, hi - 1, i); }
  }

  lemma {:induction false} FindIsFirst(t: string, lo: nat, hi: nat, i: nat)
    requires hi <= |t| && lo <= i < hi && (Find(t, lo, hi) == -1 || i < Find(t, lo, hi))
    ensures t[i] != ' '
    decreases hi - lo
  {
    if i > lo { FindIsFirst(t, lo + 1, hi, i); }
  }

  predicate ValidSizes(maxChars: int, overlap: int) {
    0 < maxChars && 0 <= overlap < maxChars
  }

  /** Where the chunk beginning at `start` ends. */
  function BreakAt(t: string, start: nat, maxChars: nat): (end: nat)
    requires start < |t| && 0 < maxChars
    ensures start < end <= |t| && end - start <= maxChars
  {
    var hard := Min(start + maxChars, |t|);
    if hard < |t| && RFind(t, start, hard) > start then RFind(t, start, hard) else hard
  }

  /** Where the chunk after `[start, end)` begins. */
  function NextStart(t: string, start: nat, end: nat, overlap: nat): (next: nat)
    requires start < end <= |t|
    ensures start < next <= end && end - next <= overlap
    ensures next == end || t[next - 1] == ' '
  {
    var from := Max(end - overlap, start + 1);
    var blank := Find(t, from, end);
    if blank != -1 then blank + 1 else end
  }

  /** A chunk is never broken earlier than the last blank it could be broken at. */
  lemma BreakIsLatest(t: string, start: nat, maxChars: nat, p: nat)
    requires start < |t| && 0 < maxChars && start < p < |t|
    requires BreakAt(t, start, maxChars) < p < start + maxChars
    ensures t[p] != ' '
  {
    RFindIsLast(t, start, Min(start + maxChars, |t|), p);
  }

  /** It is broken just when it does not reach the end; and then at a blank, or for want of one at the size limit. */
  lemma BreakExactly(t: string, start: nat, maxChars: nat)
    requires start < |t| && 0 < maxChars
    ensures var end := BreakAt(t, start, maxChars);
            && (end == |t| <==> |t| - start <= maxChars)
            && (end < |t| ==> t[end] == ' ' || (end == start + maxChars && forall p :: start < p < end ==> t[p] != ' '))
  {
    var hard := Min(start + maxChars, |t|);
    forall p | start < p < hard && RFind(t, start, hard) <= start ensures t[p] != ' ' {
      RFindIsLast(t, start, hard, p);
    }
  }

  /** The next chunk repeats as much as `overlap` allows without starting inside a word. */
  lemma OverlapIsLargest(t: string, start: nat, end: nat, overlap: nat, p: nat)
    requires start < end <= |t| && Max(end - overlap, start + 1) < p < NextStart(t, start, end, overlap)
    ensures t[p - 1] != ' '
  {
    FindIsFirst(t, Max(end - overlap, start + 1), end, p - 1);
  }

  function SpansFrom(t: string, maxChars: nat, overlap: nat, start: nat): seq<Span>
    requires ValidSizes(maxChars, overlap) && start <= |t|
    decreases |t| - start
  {
    if start >= |t| then []
    else
      var end := BreakAt(t, start, maxChars);
      [Span(start, end)]
      + if end >= |t| then [] else SpansFrom(t, maxChars, overlap, NextStart(t, start, end, overlap))
  }

  ghost predicate InText(t: string, spans: seq<Span>) {
    forall k :: 0 <= k < |spans| ==> spans[k].start <= spans[k].end <= |t|
  }

  /** The chunks that are kept: each interval stripped, empty results dropped. */
  function Texts(t: string, spans: seq<Span>): seq<string>
    requires InText(t, spans)
  {
    if spans == [] then []
    else Flush(Strip(t[spans[0].start..spans[0].end])) + Texts(t, spans[1..])
  }

  // ---- The loop -----------------------------------------------------------

  lemma {:induction false} SpansInText(t: string, maxChars: nat, overlap: nat, start: nat)
    requires ValidSizes(maxChars, overlap) && start <= |t|
    ensures InText(t, SpansFrom(t, maxChars, overlap, start))
    decreases |t| - start
  {
    if start < |t| {
      var end := BreakAt(t, start, maxChars);
      if end < |t| { SpansInText(t, maxChars, overlap, NextStart(t, start, end, overlap)); }
    }
  }

  /** The chunks still to come when the loop stands at `start`. */
  function ChunksFrom(t: string, maxChars: nat, overlap: nat, start: nat): seq<string>
    requires ValidSizes(maxChars, overlap) && start <= |t|
  {
    SpansInText(t, maxChars, overlap, start);
    Texts(t, SpansFrom(t, maxChars, overlap, start))
  }

  lemma ChunksUnfold(t: string, maxChars: nat, overlap: nat, start: nat)
    requires ValidSizes(maxChars, overlap) && start < |t|
    ensures var end := BreakAt(t, start, maxChars);
            ChunksFrom(t, maxChars, overlap, start) == Flush(Strip(t[start..end]))
              + if end >= |t| then [] else ChunksFrom(t, maxChars, overlap, NextStart(t, start, end, overlap))
  {
    var spans := SpansFrom(t, maxChars, overlap, start);
    var end := BreakAt(t, start, maxChars);
    SpansInText(t, maxChars, overlap, start);
    var rest := if end >= |t| then [] else SpansFrom(t, maxChars, overlap, NextStart(t, start, end, overlap));
    assert spans == [Span(start, end)] + rest;
    assert spans[0] == Span(start, end) && spans[1..] == rest;
    assert Texts(t, spans) == Flush(Strip(t[start..end])) + Texts(t, rest);
    if end < |t| { assert ChunksFrom(t, maxChars, overlap, NextStart(t, start, end, overlap)) == Texts(t, rest); }
  }

  /** One round of the loop moves one chunk from what is to come to what is done. */
  lemma LoopStep(t: string, maxChars: nat, overlap: nat, start: nat, done: seq<string>, all: seq<string>)
    requires ValidSizes(maxChars, overlap) && start < |t|
    requires all == done + ChunksFrom(t, maxChars, overlap, start)
    ensures var end := BreakAt(t, start, maxChars);
            all == (done + Flush(Strip(t[start..end])))
              + if end >= |t| then [] else ChunksFrom(t, maxChars, overlap, NextStart(t, start, end, overlap))
  {
    ChunksUnfold(t, maxChars, overlap, start);
  }

  method ChunkEnd(t: string, start: nat, maxChars: nat) returns (end: nat)
    requires start < |t| && 0 < maxChars
    ensures end == BreakAt(t, start, maxChars)
  {
    end := Min(start + maxChars, |t|);
    if end < |t| {
      var lastSpace := RFind(t, start, end);
      if lastSpace > start { end := lastSpace; }
    }
  }

  method FollowingStart(t: string, start: nat, end: nat, overlap: nat) returns (next: nat)
    requires start < end <= |t|
    ensures next == NextStart(t, start, end, overlap)
  {
    var from := Max(end - overlap, start + 1);
    var blank := Find(t, from, end);
    next := if blank != -1 then blank + 1 else end;
  }

  method ChunkText(text: string, maxChars: int, overlap: int) returns (result: ChunkResult)
    ensures maxChars <= 0 ==> result == MaxCharsNotPositive
    ensures maxChars > 0 && (overlap < 0 || overlap >= maxChars) ==> result == OverlapOutOfRange
    ensures ValidSizes(maxChars, overlap) ==> result == Chunks(ChunksFrom(Normalize(text), maxChars, overlap, 0))
  {
    if maxChars <= 0 { return MaxCharsNotPositive; }
    if overlap < 0 || overlap >= maxChars { return OverlapOutOfRange; }
    var t := Normalize(text);
    if t == "" { return Chunks([]); }
    var chunks: seq<string> := [];
    ghost var all := ChunksFrom(t, maxChars, overlap, 0);
    var start, n := 0, |t|;
    while start < n
      invariant 0 <= start <= n
      invariant all == chunks + ChunksFrom(t, maxChars, overlap, start)
      decreases n - start
    {
      LoopStep(t, maxChars, overlap, start, chunks, all);
      var end := ChunkEnd(t, start, maxChars);
      var chunk := Strip(t[start..end]);
      chunks := chunks + Flush(chunk);
      if end >= n { return Chunks(chunks); }
      start := FollowingStart(t, start, end, overlap);
    }
    return Chunks(chunks);
  }

  // ---- The intervals tile the text ----------------------------------------

  ghost predicate Tiles(t: string, spans: seq<Span>, start: nat, maxChars: nat, overlap: nat) {
    && spans != [] && spans[0].start == start && spans[|spans| - 1].end == |t|
    && (forall k :: 0 <= k < |spans| ==> 0 < spans[k].end - spans[k].start <= maxChars && spans[k].end <= |t|)
    && (forall k :: 0 < k < |spans| ==>
          && spans[k - 1].start < spans[k].start <= spans[k - 1].end
          && spans[k - 1].end - spans[k].start <= overlap)
  }

  /** No gap, bounded overlap, bounded length, strict progress, reaching the end. */
  lemma {:induction false} SpansTile(t: string, maxChars: nat, overlap: nat, start: nat)
    requires ValidSizes(maxChars, overlap) && start < |t|
    ensures Tiles(t, SpansFrom(t, maxChars, overlap, start), start, maxChars, overlap)
    decreases |t| - start
  {
    var end := BreakAt(t, start, maxChars);
    if end < |t| {
      var next := NextStart(t, start, end, overlap);
      SpansTile(t, maxChars, overlap, next);
      TilesExtend(t, Span(start, end), SpansFrom(t, maxChars, overlap, next), next, maxChars, overlap);
    }
  }

  lemma TilesExtend(t: string, first: Span, rest: seq<Span>, next: nat, maxChars: nat, overlap: nat)
    requires Tiles(t, rest, next, maxChars, overlap)
    requires first.start < next <= first.end <= |t| && first.end - next <= overlap
    requires first.end - first.start <= maxChars
    ensures Tiles(t, [first] + rest, first.start, maxChars, overlap)
  {
    var spans := [first] + rest;
    assert spans[0] == first && spans[|spans| - 1] == rest[|rest| - 1];
    assert forall k :: 0 < k < |spans| ==> spans[k] == rest[k - 1];
  }

  lemma TilesTail(t: string, spans: seq<Span>, start: nat, maxChars: nat, overlap: nat)
    requires Tiles(t, spans, start, maxChars, overlap) && |spans| > 1
    ensures Tiles(t, spans[1..], spans[1].start, maxChars, overlap)
  {
    var rest := spans[1..];
    forall k | 0 <= k < |rest|
      ensures 0 < rest[k].end - rest[k].start <= maxChars && rest[k].end <= |t|
      ensures k > 0 ==>
        rest[k - 1].start < rest[k].start <= rest[k - 1].end && rest[k - 1].end - rest[k].start <= overlap
    {
      assert rest[k] == spans[k + 1];
      if k > 0 { assert rest[k - 1] == spans[k]; }
    }
  }

  /** Tiling intervals leave no character out. */
  lemma {:induction false} TilesCover(t: string, spans: seq<Span>, start: nat, maxChars: nat, overlap: nat, i: nat)
    requires Tiles(t, spans, start, maxChars, overlap) && start <= i < |t|
    ensures exists k :: 0 <= k < |spans| && spans[k].start <= i < spans[k].end
  {
    if i < spans[0].end {
      assert spans[0].start <= i;
    } else {
      var rest := spans[1..];
      TilesTail(t, spans, start, maxChars, overlap);
      TilesCover(t, rest, rest[0].start, maxChars, overlap, i);
      var k :| 0 <= k < |rest| && rest[k].start <= i < rest[k].end;
      assert spans[k + 1] == rest[k];
    }
  }

  // ---- Word integrity -----------------------------------------------------

  /** `[a, b)` is a maximal run of non-blank characters. */
  ghost predicate WordAt(t: string, a: nat, b: nat) {
    && a < b <= |t|
    && (forall i :: a <= i < b ==> t[i] != ' ')
    && (a > 0 ==> t[a - 1] == ' ')
    && (b < |t| ==> t[b] == ' ')
  }

  ghost predicate Whole(spans: seq<Span>, a: nat, b: nat) {
    exists k :: 0 <= k < |spans| && spans[k].start <= a && b <= spans[k].end
  }

  ghost predicate BeginsAt(spans: seq<Span>, a: nat) {
    exists k :: 0 <= k < |spans| && spans[k].start == a
  }

  /** A word ending after the chunk's end either begins there or fills the chunk. */
  lemma BreakSpares(t: string, start: nat, maxChars: nat, a: nat, b: nat)
    requires start < |t| && 0 < maxChars && WordAt(t, a, b) && start <= a
    ensures var end := BreakAt(t, start, maxChars);
            end < b && a < end ==> b - a > maxChars || (b - a == maxChars && start == a - 1)
  {
    var end := BreakAt(t, start, maxChars);
    if end < b && a < end {
      assert t[end] != ' ';
      if a - 1 > start { RFindIsLast(t, start, Min(start + maxChars, |t|), a - 1); }
    }
  }

  /** A word the first chunk ends inside of is whole in no chunk at all. */
  lemma CutWordLost(t: string, maxChars: nat, overlap: nat, start: nat, a: nat, b: nat)
    requires ValidSizes(maxChars, overlap) && start <= a && WordAt(t, a, b)
    requires a < BreakAt(t, start, maxChars) < b
    ensures !Whole(SpansFrom(t, maxChars, overlap, start), a, b)
    ensures b - a > maxChars || (b - a == maxChars && !BeginsAt(SpansFrom(t, maxChars, overlap, start), a))
  {
    var spans := SpansFrom(t, maxChars, overlap, start);
    SpansTile(t, maxChars, overlap, start);
    BreakSpares(t, start, maxChars, a, b);
    if b - a == maxChars {
      var end := BreakAt(t, start, maxChars);
      var next := NextStart(t, start, end, overlap);
      assert next == end;
      assert spans == [Span(start, end)] + SpansFrom(t, maxChars, overlap, next);
      forall k | 0 <= k < |spans| ensures spans[k].start != a && (spans[k].start > a || spans[k].end < b) {
        if k > 0 { StartsAfter(t, spans, start, maxChars, overlap, k); }
      }
    }
  }

  lemma {:induction false} StartsAfter(t: string, spans: seq<Span>, start: nat, maxChars: nat, overlap: nat, k: nat)
    requires Tiles(t, spans, start, maxChars, overlap) && 0 < k < |spans|
    ensures spans[k].start >= spans[1].start
  {
    if k > 1 { StartsAfter(t, spans, start, maxChars, overlap, k - 1); }
  }

  /** In terms of where chunks begin: every shorter word is whole, one of `maxChars` only at the start of a chunk. */
  lemma {:induction false} WholeWordByStarts(t: string, maxChars: nat, overlap: nat, start: nat, a: nat, b: nat)
    requires ValidSizes(maxChars, overlap) && start <= a && WordAt(t, a, b)
    ensures var spans := SpansFrom(t, maxChars, overlap, start);
            Whole(spans, a, b) <==> b - a < maxChars || (b - a == maxChars && BeginsAt(spans, a))
    decreases |t| - start
  {
    var spans := SpansFrom(t, maxChars, overlap, start);
    SpansTile(t, maxChars, overlap, start);
    var end := BreakAt(t, start, maxChars);
    BreakSpares(t, start, maxChars, a, b);
    if b <= end {
      assert spans[0].start <= a && b <= spans[0].end;
    } else {
      var next := NextStart(t, start, end, overlap);
      var rest := SpansFrom(t, maxChars, overlap, next);
      assert spans == [Span(start, end)] + rest;
      if a < end {
        CutWordLost(t, maxChars, overlap, start, a, b);
      } else {
        WholeWordByStarts(t, maxChars, overlap, next, a, b);
        WholeShift(Span(start, end), rest, a, b);
      }
    }
  }

  lemma WholeShift(first: Span, rest: seq<Span>, a: nat, b: nat)
    ensures Whole([first] + rest, a, b) <==> (first.start <= a && b <= first.end) || Whole(rest, a, b)
    ensures BeginsAt([first] + rest, a) <==> first.start == a || BeginsAt(rest, a)
  {
    var spans := [first] + rest;
    assert spans[0] == first;
    assert forall k :: 0 < k < |spans| ==> spans[k] == rest[k - 1];
    assert forall k :: 0 <= k < |rest| ==> rest[k] == spans[k + 1];
  }

  /** A chunk that begins earlier is never followed by one beginning with a word of `maxChars` characters. */
  lemma NoStartAtExactWord(t: string, maxChars: nat, overlap: nat, start: nat, a: nat, b: nat)
    requires ValidSizes(maxChars, overlap) && maxChars >= 2 && start < a && WordAt(t, a, b) && b - a == maxChars
    requires BreakAt(t, start, maxChars) < |t|
    ensures NextStart(t, start, BreakAt(t, start, maxChars), overlap) != a
  {
    var hard := Min(start + maxChars, |t|);
    if RFind(t, start, hard) <= start && start < a - 1 < hard { RFindIsLast(t, start, hard, a - 1); }
  }

  /** So no chunk after the first begins with such a word. */
  lemma {:induction false} NeverBegunLater(t: string, maxChars: nat, overlap: nat, start: nat, a: nat, b: nat)
    requires ValidSizes(maxChars, overlap) && maxChars >= 2 && start < a && WordAt(t, a, b) && b - a == maxChars
    ensures !BeginsAt(SpansFrom(t, maxChars, overlap, start), a)
    decreases |t| - start
  {
    var end := BreakAt(t, start, maxChars);
    if end < |t| {
      var next := NextStart(t, start, end, overlap);
      var rest := SpansFrom(t, maxChars, overlap, next);
      NoStartAtExactWord(t, maxChars, overlap, start, a, b);
      if next < a {
        NeverBegunLater(t, maxChars, overlap, next, a, b);
      } else {
        SpansTile(t, maxChars, overlap, next);
        NoneBegunBefore(t, rest, next, maxChars, overlap, a);
      }
      WholeShift(Span(start, end), rest, a, b);
    }
  }

  lemma NoneBegunBefore(t: string, spans: seq<Span>, start: nat, maxChars: nat, overlap: nat, a: nat)
    requires Tiles(t, spans, start, maxChars, overlap) && a < start
    ensures !BeginsAt(spans, a)
  {
    forall k | 0 <= k < |spans| ensures spans[k].start != a {
      if k > 0 { StartsAfter(t, spans, start, maxChars, overlap, k); }
    }
  }

  /** Single characters: every position begins a chunk. */
  lemma {:induction false} SinglesBeginEverywhere(t: string, start: nat, a: nat)
    requires start <= a < |t|
    ensures BeginsAt(SpansFrom(t, 1, 0, start), a)
    decreases |t| - start
  {
    var end := BreakAt(t, start, 1);
    var spans := SpansFrom(t, 1, 0, start);
    if start == a {
      assert spans[0].start == a;
    } else {
      var rest := SpansFrom(t, 1, 0, end);
      assert NextStart(t, start, end, 0) == end;
      SinglesBeginEverywhere(t, end, a);
      WholeShift(Span(start, end), rest, a, a);
      assert spans == [Span(start, end)] + rest;
    }
  }

  /** The words some chunk of a text holds whole, told from the word alone. */
  predicate Kept(maxChars: nat, length: nat, first: bool) {
    length < maxChars || (length == maxChars && (first || maxChars == 1))
  }

  /**
   * Exactly which words some chunk contains whole: every shorter word, a word
   * of `maxChars` characters only if it is the first of the text (or one
   * letter), and no longer one.
   */
  lemma WholeWordExactly(t: string, maxChars: nat, overlap: nat, a: nat, b: nat)
    requires ValidSizes(maxChars, overlap) && WordAt(t, a, b)
    ensures Whole(SpansFrom(t, maxChars, overlap, 0), a, b) <==> Kept(maxChars, b - a, a == 0)
  {
    WholeWordByStarts(t, maxChars, overlap, 0, a, b);
    if b - a == maxChars {
      if maxChars == 1 {
        SinglesBeginEverywhere(t, 0, a);
      } else if a > 0 {
        NeverBegunLater(t, maxChars, overlap, 0, a, b);
      } else {
        assert SpansFrom(t, maxChars, overlap, 0)[0].start == 0;
      }
    }
  }

  /** No boundary of any chunk falls strictly inside a word shorter than `maxChars`. */
  lemma {:induction false} ShortWordsNeverCut(t: string, maxChars: nat, overlap: nat, start: nat, a: nat, b: nat,
                                              k: nat)
    requires ValidSizes(maxChars, overlap) && start < |t| && WordAt(t, a, b) && b - a < maxChars
    requires !(a < start < b) && k < |SpansFrom(t, maxChars, overlap, start)|
    ensures var span := SpansFrom(t, maxChars, overlap, start)[k];
            !(a < span.start < b) && !(a < span.end < b)
    decreases |t| - start
  {
    var end := BreakAt(t, start, maxChars);
    if start <= a { BreakSpares(t, start, maxChars, a, b); }
    if k > 0 {
      var next := NextStart(t, start, end, overlap);
      assert SpansFrom(t, maxChars, overlap, start)[k] == SpansFrom(t, maxChars, overlap, next)[k - 1];
      ShortWordsNeverCut(t, maxChars, overlap, next, a, b, k - 1);
    }
  }

  /** The bound is tight: a word of exactly `maxChars` characters is cut here. */
  lemma ExactLengthWordCut()
    ensures var t := "ab cdefg";
            WordAt(t, 3, 8) && SpansFrom(t, 5, 0, 0) == [Span(0, 2), Span(2, 7), Span(7, 8)]
  {
    var t := "ab cdefg";
    assert RFind(t, 0, 5) == 2 by { assert RFind(t, 0, 3) == 2; assert RFind(t, 0, 4) == 2; }
    assert RFind(t, 2, 7) == 2 by {
      assert RFind(t, 2, 3) == 2; assert RFind(t, 2, 4) == 2; assert RFind(t, 2, 5) == 2; assert RFind(t, 2, 6) == 2;
    }
    assert BreakAt(t, 0, 5) == 2 && BreakAt(t, 2, 5) == 7 && BreakAt(t, 7, 5) == 8;
    assert SpansFrom(t, 5, 0, 7) == [Span(7, 8)];
    assert SpansFrom(t, 5, 0, 2) == [Span(2, 7)] + SpansFrom(t, 5, 0, 7);
    assert SpansFrom(t, 5, 0, 0) == [Span(0, 2)] + SpansFrom(t, 5, 0, 2);
  }

  // ---- Normalisation ------------------------------------------------------

  ghost predicate AllWords(ws: seq<string>) {
    forall i :: 0 <= i < |ws| ==> IsWord(ws[i])
  }

  lemma {:induction false} SplitGivesWords(text: string, word: string)
    requires word == "" || IsWord(word)
    ensures AllWords(SplitFrom(text, word))
    decreases |text|
  {
    if text != "" {
      if IsSpace(text[0]) { SplitGivesWords(text[1..], ""); }
      else { SplitGivesWords(text[1..], word + [text[0]]); }
    }
  }

  lemma {:induction false} SplitAbsorbs(w: string, rest: string, word: string)
    requires forall i :: 0 <= i < |w| ==> !IsSpace(w[i])
    ensures SplitFrom(w + rest, word) == SplitFrom(rest, word + w)
    decreases |w|
  {
    if w == "" {
      assert w + rest == rest && word + w == word;
    } else {
      assert (w + rest)[1..] == w[1..] + rest && word + [w[0]] + w[1..] == word + w;
      SplitAbsorbs(w[1..], rest, word + [w[0]]);
    }
  }

  lemma {:induction false} SplitJoin(ws: seq<string>)
    requires AllWords(ws)
    ensures Words(Join(ws)) == ws
  {
    if |ws| == 1 {
      SplitAbsorbs(ws[0], "", "");
      assert ws[0] + "" == ws[0] && "" + ws[0] == ws[0];
    } else if |ws| > 1 {
      var tail := " " + Join(ws[1..]);
      SplitAbsorbs(ws[0], tail, "");
      assert ws[0] + " " + Join(ws[1..]) == ws[0] + tail && "" + ws[0] == ws[0] && tail[1..] == Join(ws[1..]);
      SplitJoin(ws[1..]);
    }
  }

  /** Normalising changes neither the words nor an already normalised text. */
  lemma NormalizeKeepsWords(text: string)
    ensures Words(Normalize(text)) == Words(text)
    ensures Normalize(Normalize(text)) == Normalize(text)
  {
    SplitGivesWords(text, "");
    SplitJoin(Words(text));
  }

  lemma {:induction false} JoinIsClean(ws: seq<string>)
    requires AllWords(ws)
    ensures Clean(Join(ws))
    ensures ws != [] ==> Join(ws) != "" && !IsSpace(Join(ws)[0])
  {
    if |ws| > 1 {
      var tail := Join(ws[1..]);
      JoinIsClean(ws[1..]);
      var t, n := Join(ws), |ws[0]|;
      assert t == ws[0] + " " + tail;
      forall i | 0 <= i < |t|
        ensures IsSpace(t[i]) ==> t[i] == ' ' && 0 < i < |t| - 1
        ensures i > 0 && IsSpace(t[i - 1]) ==> !IsSpace(t[i])
      {
        if i < n { assert t[i] == ws[0][i]; } else if i > n { assert t[i] == tail[i - n - 1]; }
        if 0 < i <= n { assert t[i - 1] == ws[0][i - 1]; } else if i > n + 1 { assert t[i - 1] == tail[i - n - 2]; }
      }
    }
  }

  /** Where the j-th word stands in the normalised text. */
  function WordStart(ws: seq<string>, j: nat): nat
    requires j < |ws|
  {
    if j == 0 then 0 else |ws[0]| + 1 + WordStart(ws[1..], j - 1)
  }

  lemma {:induction false} WordInJoin(ws: seq<string>, j: nat)
    requires AllWords(ws) && j < |ws|
    ensures var a := WordStart(ws, j);
            WordAt(Join(ws), a, a + |ws[j]|) && Join(ws)[a..a + |ws[j]|] == ws[j] && (a == 0 <==> j == 0)
  {
    if j == 0 {
      if |ws| > 1 { assert Join(ws)[..|ws[0]|] == ws[0] && Join(ws)[|ws[0]|] == ' '; }
    } else {
      var a' := WordStart(ws[1..], j - 1);
      WordInJoin(ws[1..], j - 1);
      WordShift(ws[0] + " ", Join(ws[1..]), a', a' + |ws[j]|);
    }
  }

  lemma WordShift(front: string, t: string, a: nat, b: nat)
    requires WordAt(t, a, b) && front != "" && front[|front| - 1] == ' '
    ensures WordAt(front + t, |front| + a, |front| + b)
    ensures (front + t)[|front| + a..|front| + b] == t[a..b]
  {
    var whole := front + t;
    assert forall i :: |front| <= i < |whole| ==> whole[i] == t[i - |front|];
    if a == 0 { assert whole[|front| - 1] == front[|front| - 1]; }
  }

  // ---- From intervals to the chunks themselves ----------------------------

  lemma {:induction false} LStripIsSuffix(s: string) returns (d: nat)
    ensures d <= |s| && LStrip(s) == s[d..] && forall i :: 0 <= i < d ==> IsSpace(s[i])
    ensures d < |s| ==> !IsSpace(s[d])
  {
    d := 0;
    if s != "" && IsSpace(s[0]) {
      var d' := LStripIsSuffix(s[1..]);
      d := d' + 1;
      assert s[1..][d'..] == s[d..];
      assert forall i :: 0 < i < d ==> s[i] == s[1..][i - 1];
    }
  }

  lemma {:induction false} RStripIsPrefix(s: string) returns (e: nat)
    ensures e <= |s| && RStrip(s) == s[..e] && forall i :: e <= i < |s| ==> IsSpace(s[i])
    ensures e > 0 ==> !IsSpace(s[e - 1])
  {
    e := |s|;
    if s != "" && IsSpace(s[|s| - 1]) {
      e := RStripIsPrefix(s[..|s| - 1]);
      assert s[..|s| - 1][..e] == s[..e];
    }
  }

  ghost predicate OccursAt(s: string, w: string, i: int) {
    0 <= i <= |s| - |w| && s[i..i + |w|] == w
  }

  ghost predicate Contains(s: string, w: string) {
    exists i :: OccursAt(s, w, i)
  }

  /** Stripping keeps every word of the text it strips. */
  lemma StripKeepsWord(s: string, p: nat, q: nat)
    requires p < q <= |s| && IsWord(s[p..q])
    ensures Contains(Strip(s), s[p..q]) && 0 < |Strip(s)| <= |s|
  {
    var d := LStripIsSuffix(s);
    var l := LStrip(s);
    var e := RStripIsPrefix(l);
    assert !IsSpace(s[p..q][0]) && !IsSpace(s[p..q][q - p - 1]);
    assert !IsSpace(s[p]);
    assert l[q - 1 - d] == s[q - 1];
    assert OccursAt(Strip(s), s[p..q], p - d);
  }

  lemma {:induction false} TextsHas(t: string, spans: seq<Span>, k: nat)
    requires InText(t, spans) && k < |spans|
    requires Strip(t[spans[k].start..spans[k].end]) != ""
    ensures Strip(t[spans[k].start..spans[k].end]) in Texts(t, spans)
  {
    if k > 0 {
      assert spans[1..][k - 1] == spans[k];
      TextsHas(t, spans[1..], k - 1);
    }
  }

  lemma WholeWordInTexts(t: string, spans: seq<Span>, a: nat, b: nat) returns (c: string)
    requires InText(t, spans) && a < b <= |t| && IsWord(t[a..b]) && Whole(spans, a, b)
    ensures c in Texts(t, spans) && Contains(c, t[a..b])
  {
    var k :| 0 <= k < |spans| && spans[k].start <= a && b <= spans[k].end;
    SliceOfSlice(t, spans[k].start, spans[k].end, a, b);
    StripKeepsWord(t[spans[k].start..spans[k].end], a - spans[k].start, b - spans[k].start);
    TextsHas(t, spans, k);
    c := Strip(t[spans[k].start..spans[k].end]);
  }

  lemma SliceOfSlice(t: string, lo: nat, hi: nat, a: nat, b: nat)
    requires lo <= a <= b <= hi <= |t|
    ensures t[lo..hi][a - lo..b - lo] == t[a..b]
  {
    assert forall i :: 0 <= i < b - a ==> t[lo..hi][a - lo..b - lo][i] == t[a..b][i];
  }

  /** Which words of the original text lie whole in one interval, told from their length and place in it. */
  lemma WordsKeptExactly(text: string, maxChars: nat, overlap: nat, j: nat)
    requires ValidSizes(maxChars, overlap) && j < |Words(text)|
    ensures var ws := Words(text);
            var a := WordStart(ws, j);
            Whole(SpansFrom(Normalize(text), maxChars, overlap, 0), a, a + |ws[j]|) <==> Kept(maxChars, |ws[j]|, j == 0)
  {
    hide SplitFrom, Join, IsSpace, IsWord, WordAt, Whole, SpansFrom, Kept;
    var ws := Words(text);
    SplitGivesWords(text, "");
    WordInJoin(ws, j);
    WholeWordExactly(Join(ws), maxChars, overlap, WordStart(ws, j), WordStart(ws, j) + |ws[j]|);
  }

  /** Every such word, so every one shorter than `maxChars`, can be read in some returned chunk. */
  lemma KeptWordsSurvive(text: string, maxChars: nat, overlap: nat, j: nat)
    requires ValidSizes(maxChars, overlap) && j < |Words(text)| && Kept(maxChars, |Words(text)[j]|, j == 0)
    ensures exists c :: c in ChunksFrom(Normalize(text), maxChars, overlap, 0) && Contains(c, Words(text)[j])
  {
    hide SplitFrom, Join, IsSpace, IsWord, WordAt, Whole, SpansFrom, Kept, Texts;
    var ws := Words(text);
    SplitGivesWords(text, "");
    WordInJoin(ws, j);
    assert IsWord(ws[j]);
    WordsKeptExactly(text, maxChars, overlap, j);
    WholeIsRead(Normalize(text), maxChars, overlap, WordStart(ws, j), ws[j]);
  }

  lemma WholeIsRead(t: string, maxChars: nat, overlap: nat, a: nat, w: string)
    requires ValidSizes(maxChars, overlap) && a + |w| <= |t| && t[a..a + |w|] == w && IsWord(w)
    requires Whole(SpansFrom(t, maxChars, overlap, 0), a, a + |w|)
    ensures exists c :: c in ChunksFrom(t, maxChars, overlap, 0) && Contains(c, w)
  {
    SpansInText(t, maxChars, overlap, 0);
    var c := WholeWordInTexts(t, SpansFrom(t, maxChars, overlap, 0), a, a + |w|);
    assert c in ChunksFrom(t, maxChars, overlap, 0);
  }

  /** With `maxChars` at least two, no interval is all blank, so none is dropped. */
  lemma {:induction false} EverySpanKept(t: string, maxChars: nat, overlap: nat, start: nat)
    requires ValidSizes(maxChars, overlap) && maxChars >= 2 && Clean(t) && start <= |t|
    ensures |ChunksFrom(t, maxChars, overlap, start)| == |SpansFrom(t, maxChars, overlap, start)|
    decreases |t| - start
  {
    if start < |t| {
      var end := BreakAt(t, start, maxChars);
      var s := t[start..end];
      ChunksUnfold(t, maxChars, overlap, start);
      var p: nat := if IsSpace(t[start]) then 1 else 0;
      assert p < |s| && !IsSpace(s[p]);
      assert s[p..p + 1] == [s[p]];
      StripKeepsWord(s, p, p + 1);
      if end < |t| { EverySpanKept(t, maxChars, overlap, NextStart(t, start, end, overlap)); }
    }
  }

  lemma {:induction false} ChunksFit(t: string, maxChars: nat, overlap: nat, start: nat, c: string)
    requires ValidSizes(maxChars, overlap) && start <= |t| && c in ChunksFrom(t, maxChars, overlap, start)
    ensures 0 < |c| <= maxChars
    decreases |t| - start
  {
    if start < |t| {
      var end := BreakAt(t, start, maxChars);
      var s := t[start..end];
      ChunksUnfold(t, maxChars, overlap, start);
      var d := LStripIsSuffix(s);
      var e := RStripIsPrefix(LStrip(s));
      if c !in Flush(Strip(s)) { ChunksFit(t, maxChars, overlap, NextStart(t, start, end, overlap), c); }
    }
  }

  // ---- Told from the raw text ---------------------------------------------

  const NotSpace: char -> bool := (c: char) => !IsSpace(c)

  lemma SplitStep(text: string, a: nat, i: nat)
    requires a <= i < |text|
    ensures SplitFrom(text[i..], text[a..i])
         == if IsSpace(text[i]) then Flush(text[a..i]) + SplitFrom(text[i + 1..], text[i + 1..i + 1])
            else SplitFrom(text[i + 1..], text[a..i + 1])
  {
    assert text[i..][1..] == text[i + 1..] && text[i + 1..i + 1] == "" && text[a..i] + [text[i]] == text[a..i + 1];
  }

  lemma SplitEnd(text: string, a: nat)
    requires a <= |text|
    ensures SplitFrom(text[|text|..], text[a..|text|]) == Flush(text[a..|text|])
  {
  }

  /** The word that ends before `i`, if there is one, in front of the runs that follow. */
  lemma FlushFinds(text: string, a: nat, i: nat, words: seq<string>, rest: seq<nat>) returns (starts: seq<nat>)
    requires a <= i <= |text| && (a > 0 ==> IsSpace(text[a - 1])) && forall k :: a <= k < i ==> !IsSpace(text[k])
    requires (i < |text| ==> IsSpace(text[i])) && TextRuns.AreRuns(text, NotSpace, i, words, rest)
    ensures TextRuns.AreRuns(text, NotSpace, a, Flush(text[a..i]) + words, starts)
  {
    hide TextRuns.AreRuns;
    if a < i {
      assert TextRuns.RunAt(text, NotSpace, a, i);
      TextRuns.RunFirst(text, NotSpace, a, i, words, rest);
      starts := [a] + rest;
    } else {
      assert Flush(text[a..i]) + words == words;
      starts := rest;
    }
  }

  /** What splitting finds in the rest of a text when `text[a..i]` is the word read so far. */
  lemma {:induction false} SplitFindsRuns(text: string, a: nat, i: nat) returns (starts: seq<nat>)
    requires a <= i <= |text| && (a > 0 ==> IsSpace(text[a - 1])) && forall k :: a <= k < i ==> !IsSpace(text[k])
    ensures TextRuns.AreRuns(text, NotSpace, a, SplitFrom(text[i..], text[a..i]), starts)
    decreases |text| - i
  {
    hide TextRuns.AreRuns, IsSpace, SplitFrom, Flush;
    if i == |text| {
      SplitEnd(text, a);
      TextRuns.NoMoreRuns(text, NotSpace);
      starts := FlushFinds(text, a, i, [], []);
      assert Flush(text[a..i]) + [] == Flush(text[a..i]);
    } else if IsSpace(text[i]) {
      SplitStep(text, a, i);
      var words := SplitFrom(text[i + 1..], text[i + 1..i + 1]);
      var rest := SplitFindsRuns(text, i + 1, i + 1);
      TextRuns.RunSkip(text, NotSpace, i, words, rest);
      starts := FlushFinds(text, a, i, words, rest);
    } else {
      SplitStep(text, a, i);
      starts := SplitFindsRuns(text, a, i + 1);
    }
  }

  /** The words of a text are its maximal runs of other characters than whitespace, all of them and in order. */
  lemma WordsAreRuns(text: string) returns (starts: seq<nat>)
    ensures |starts| == |Words(text)|
    ensures forall j, k :: 0 <= j < k < |starts| ==> starts[j] < starts[k]
    ensures forall k :: 0 <= k < |starts| ==>
              && TextRuns.RunAt(text, NotSpace, starts[k], starts[k] + |Words(text)[k]|)
              && text[starts[k]..starts[k] + |Words(text)[k]|] == Words(text)[k]
    ensures forall a: nat, b: nat :: TextRuns.RunAt(text, NotSpace, a, b) ==> a in starts
  {
    starts := SplitFindsRuns(text, 0, 0);
    assert text[0..] == text && text[0..0] == "";
    forall k | 0 <= k < |starts| ensures TextRuns.WordAt(text, NotSpace, starts[k], Words(text)[k]) {}
  }

  /**
   * Every run of the original text shorter than `maxChars`, and one of exactly
   * `maxChars` if nothing but whitespace precedes it or `maxChars` is one, can
   * be read in some returned chunk.
   */
  lemma RunsSurvive(text: string, maxChars: nat, overlap: nat, a: nat, b: nat)
    requires ValidSizes(maxChars, overlap) && TextRuns.RunAt(text, NotSpace, a, b) && b - a <= maxChars
    requires b - a == maxChars && maxChars > 1 ==> forall i :: 0 <= i < a ==> IsSpace(text[i])
    ensures exists c :: c in ChunksFrom(Normalize(text), maxChars, overlap, 0) && Contains(c, text[a..b])
  {
    var starts := SplitFindsRuns(text, 0, 0);
    assert text[0..] == text && text[0..0] == "";
    var j := TextRuns.RunIsWord(text, NotSpace, Words(text), starts, a, b);
    KeptWordsSurvive(text, maxChars, overlap, j);
  }

  /** The characters that split words, one by one. */
  lemma SpacesAre(c: char)
    ensures IsSpace(c) <==>
            c in "\t\n\U{0B}\U{0C}\r\U{1C}\U{1D}\U{1E}\U{1F} \U{85}\U{A0}\U{1680}\U{2000}\U{2001}\U{2002}\U{2003}"
               + "\U{2004}\U{2005}\U{2006}\U{2007}\U{2008}\U{2009}\U{200A}\U{2028}\U{2029}\U{202F}\U{205F}\U{3000}"
  {
  }

  /** Whitespace in ASCII terms: printable characters between blanks, tabs and line ends make a word. */
  lemma PrintableWord(text: string, a: nat, b: nat)
    requires a < b <= |text| && forall i :: a <= i < b ==> '!' <= text[i] <= '~'
    requires a > 0 ==> text[a - 1] in " \t\n\r"
    requires b < |text| ==> text[b] in " \t\n\r"
    ensures text[a..b] in Words(text)
  {
    var starts := SplitFindsRuns(text, 0, 0);
    assert text[0..] == text && text[0..0] == "";
    assert TextRuns.RunAt(text, NotSpace, a, b);
    var j := TextRuns.RunIsWord(text, NotSpace, Words(text), starts, a, b);
  }

  /** A trimmed, non-blank part of the text. */
  ghost predicate Stands(t: string, chunk: string, at: Span) {
    && at.start < at.end <= |t| && chunk == t[at.start..at.end]
    && chunk[0] != ' ' && chunk[|chunk| - 1] != ' '
  }

  ghost predicate ForwardFrom(at: seq<Span>, start: nat) {
    && (at != [] ==> start <= at[0].start)
    && forall k :: 0 < k < |at| ==> at[k - 1].start < at[k].start
  }

  ghost predicate Covers(t: string, at: seq<Span>, start: nat) {
    forall i :: start <= i < |t| && t[i] != ' ' ==> exists k :: 0 <= k < |at| && at[k].start <= i < at[k].end
  }

  /** Stripping a part of the text leaves a part of it, and loses only blanks. */
  lemma StripStands(t: string, start: nat, end: nat) returns (at: Span)
    requires start <= end <= |t| && Clean(t)
    ensures var c := Strip(t[start..end]);
            && start <= at.start <= at.end <= end && c == t[at.start..at.end]
            && (forall i :: start <= i < end && t[i] != ' ' ==> at.start <= i < at.end)
            && (c != "" ==> Stands(t, c, at))
  {
    var s := t[start..end];
    var d := LStripIsSuffix(s);
    var e := RStripIsPrefix(LStrip(s));
    at := Span(start + d, start + d + e);
    assert s[d..][..e] == s[d..d + e];
    SliceOfSlice(t, start, end, at.start, at.end);
    forall i | start <= i < end && t[i] != ' ' ensures at.start <= i < at.end {
      assert t[i] == s[i - start];
    }
  }

  /** The chunk that follows begins further on than the text of this one. */
  lemma NextIsFurther(t: string, start: nat, end: nat, overlap: nat, at: Span)
    requires start < end <= |t| && Clean(t) && start <= at.start < end && t[at.start] != ' '
    requires forall i :: start <= i < at.start ==> t[i] == ' '
    ensures at.start < NextStart(t, start, end, overlap)
  {
    if at.start > start + 1 { assert IsSpace(t[start]) && IsSpace(t[start + 1]); }
  }

  /** The chunks are parts of the text from `start` on, in its order, and leave out no other character than blanks. */
  ghost predicate PartsOf(t: string, chunks: seq<string>, at: seq<Span>, start: nat) {
    && |at| == |chunks| && ForwardFrom(at, start) && Covers(t, at, start)
    && forall k :: 0 <= k < |at| ==> Stands(t, chunks[k], at[k])
  }

  lemma PartsFirst(t: string, c: string, first: Span, chunks: seq<string>, at: seq<Span>, start: nat, end: nat,
                   next: nat)
    requires PartsOf(t, chunks, at, next) && start <= first.start < next <= end && Stands(t, c, first)
    requires forall i :: start <= i < end && i < |t| && t[i] != ' ' ==> first.start <= i < first.end
    ensures PartsOf(t, [c] + chunks, [first] + at, start)
  {
    var chunks', at' := [c] + chunks, [first] + at;
    hide Stands;
    assert Covers(t, at', start) by {
      hide ForwardFrom;
      assert at'[0] == first;
      assert forall k :: 0 <= k < |at| ==> at'[k + 1] == at[k];
    }
    hide Covers;
    assert ForwardFrom(at', start);
    hide ForwardFrom;
    forall k | 0 <= k < |at'| ensures Stands(t, chunks'[k], at'[k]) {
      if k > 0 { assert chunks'[k] == chunks[k - 1]; }
    }
  }

  lemma PartsSkip(t: string, chunks: seq<string>, at: seq<Span>, start: nat, end: nat, next: nat)
    requires PartsOf(t, chunks, at, next) && start <= next <= end
    requires forall i :: start <= i < end && i < |t| ==> t[i] == ' '
    ensures PartsOf(t, chunks, at, start)
  {
  }

  lemma {:induction false} ChunksStand(t: string, maxChars: nat, overlap: nat, start: nat) returns (at: seq<Span>)
    requires ValidSizes(maxChars, overlap) && start <= |t| && Clean(t)
    ensures PartsOf(t, ChunksFrom(t, maxChars, overlap, start), at, start)
    decreases |t| - start
  {
    at := [];
    if start < |t| {
      var end := BreakAt(t, start, maxChars);
      var next := if end < |t| then NextStart(t, start, end, overlap) else end;
      var rest := if end < |t| then ChunksFrom(t, maxChars, overlap, next) else [];
      ChunksUnfold(t, maxChars, overlap, start);
      if end < |t| { at := ChunksStand(t, maxChars, overlap, next); }
      assert PartsOf(t, rest, at, next);
      at := OneMorePart(t, start, end, overlap, next, rest, at);
    }
  }

  lemma OneMorePart(t: string, start: nat, end: nat, overlap: nat, next: nat, rest: seq<string>, at: seq<Span>)
    returns (at': seq<Span>)
    requires start < end <= |t| && Clean(t) && (next == end || next == NextStart(t, start, end, overlap))
    requires PartsOf(t, rest, at, next)
    ensures PartsOf(t, Flush(Strip(t[start..end])) + rest, at', start)
  {
    var c := Strip(t[start..end]);
    var first := StripStands(t, start, end);
    hide PartsOf, Clean, Strip, NextStart;
    if c == "" {
      PartsSkip(t, rest, at, start, end, next);
      at' := at;
      assert Flush(c) + rest == rest;
    } else {
      NextIsFurther(t, start, end, overlap, first);
      PartsFirst(t, c, first, rest, at, start, end, next);
      at' := [first] + at;
    }
  }

  lemma NoBreaks(t: string, c: string, at: Span)
    requires Clean(t) && Stands(t, c, at)
    ensures '\t' !in c && '\n' !in c && '\r' !in c
  {
    forall i | 0 <= i < |c| ensures c[i] != '\t' && c[i] != '\n' && c[i] != '\r' {
      assert c[i] == t[at.start + i];
    }
  }

  /**
   * The chunks are parts of the normalised text, each beginning further on
   * than the one before, without a blank at either end. No other character is
   * left out, and no chunk holds a tab or a line break.
   */
  lemma ChunksAreParts(text: string, maxChars: nat, overlap: nat) returns (at: seq<Span>)
    requires ValidSizes(maxChars, overlap)
    ensures var t, chunks := Normalize(text), ChunksFrom(Normalize(text), maxChars, overlap, 0);
            && PartsOf(t, chunks, at, 0)
            && forall k :: 0 <= k < |chunks| ==>
                 '\t' !in chunks[k] && '\n' !in chunks[k] && '\r' !in chunks[k]
  {
    var t, chunks := Normalize(text), ChunksFrom(Normalize(text), maxChars, overlap, 0);
    SplitGivesWords(text, "");
    JoinIsClean(Words(text));
    at := ChunksStand(t, maxChars, overlap, 0);
    forall k | 0 <= k < |chunks| ensures '\t' !in chunks[k] && '\n' !in chunks[k] && '\r' !in chunks[k] {
      NoBreaks(t, chunks[k], at[k]);
    }
  }

  /** A text that fits is its one chunk, whole; a blank text has none. */
  lemma FittingText(text: string, maxChars: nat, overlap: nat)
    requires ValidSizes(maxChars, overlap) && |Normalize(text)| <= maxChars
    ensures ChunksFrom(Normalize(text), maxChars, overlap, 0) == if Words(text) == [] then [] else [Join(Words(text))]
  {
    var t := Normalize(text);
    SplitGivesWords(text, "");
    JoinIsClean(Words(text));
    if t != "" {
      BreakExactly(t, 0, maxChars);
      ChunksUnfold(t, maxChars, overlap, 0);
      var at := StripStands(t, 0, |t|);
      assert t[0..|t|] == t && at.start <= 0 < at.end && at.start <= |t| - 1 < at.end;
      assert Flush(t) + [] == [t];
    }
  }
}
