/**
 * One conversational turn of the voice gateway: the inbound frames
 * (media_stream/server.py), the tool-calling reply (orchestrator/pipeline.py),
 * its latency marks (latency.py) and barge-in (orchestrator/barge_in.py).
 *
 * Everything foreign is an input: what the recogniser hears, the event streams
 * of successive LLM calls, what tools answer, the audio synthesised for a text,
 * when somebody interrupts, and the clock.
 */
module Turn {
  import opened Common

  datatype Role = System | User | Assistant | Tool
  datatype Message = Message(role: Role, content: string, answers: Option<ToolCall>)
  datatype ToolCall = ToolCall(id: string, name: string)
  datatype LlmEvent = TextDelta(text: string) | CallsTool(call: ToolCall) | StreamDone
  datatype Frame = Media(audio: seq<nat>) | Interruption | Stop | OtherFrame
  type Audio = nat

  datatype World = World(
    hear: seq<seq<nat>> -> seq<string>,        // final transcripts recognised on the last of the chunks fed so far
    trailing: seq<seq<nat>> -> Option<string>, // what closing the recogniser returns after these chunks
    streams: seq<seq<LlmEvent>>,               // the successive LLM calls of the turn
    toolAnswer: Option<ToolCall -> string>,    // the dispatcher, if one is configured
    ground: Option<string -> string>,          // the grounded system prompt for a question, if configured
    synthesise: string -> seq<Audio>,
    raised: nat -> bool,                       // barge-in raised just before the k-th playback check
    clock: nat -> real)                        // successive readings

  // ---- The turn as a function ---------------------------------------------

  /** The audio chunks fed to the recogniser: those before the stream stops. */
  function Fed(frames: seq<Frame>): seq<seq<nat>> {
    if frames == [] || frames[0].Stop? then []
    else (if frames[0].Media? && frames[0].audio != [] then [frames[0].audio] else []) + Fed(frames[1..])
  }

  /** The last final transcript recognised while feeding these chunks. */
  function Heard(w: World, fed: seq<seq<nat>>): Option<string> {
    if fed == [] then None
    else
      var finals := w.hear(fed);
      if finals == [] then Heard(w, fed[..|fed| - 1]) else Some(finals[|finals| - 1])
  }

  /** The text the turn is about; empty when nothing was understood. */
  function Question(w: World, frames: seq<Frame>): string {
    var fed := Fed(frames);
    var final := if w.trailing(fed).Some? then w.trailing(fed) else Heard(w, fed);
    if final.Some? then final.value else ""
  }

  /** The text deltas up to the first tool call, and that call. */
  function Scan(events: seq<LlmEvent>): (string, Option<ToolCall>) {
    if events == [] then ("", None)
    else match events[0]
      case TextDelta(t) => (t + Scan(events[1..]).0, Scan(events[1..]).1)
      case CallsTool(c) => ("", Some(c))
      case StreamDone => Scan(events[1..])
  }

  /** What is known of a scan once `text` has been read before it. */
  function Prepended(text: string, rest: (string, Option<ToolCall>)): (string, Option<ToolCall>) {
    (text + rest.0, rest.1)
  }

  lemma ScanStep(text: string, events: seq<LlmEvent>, i: nat)
    requires i < |events|
    ensures match events[i]
            case TextDelta(t) => Prepended(text, Scan(events[i..])) == Prepended(text + t, Scan(events[i + 1..]))
            case CallsTool(c) => Prepended(text, Scan(events[i..])) == (text, Some(c))
            case StreamDone => Scan(events[i..]) == Scan(events[i + 1..])
  {
    assert events[i..][1..] == events[i + 1..] && events[i..][0] == events[i];
    assert text + "" == text;
    if events[i].TextDelta? {
      assert text + (events[i].text + Scan(events[i + 1..]).0) == text + events[i].text + Scan(events[i + 1..]).0;
    }
  }

  function FirstStream(streams: seq<seq<LlmEvent>>): seq<LlmEvent> {
    if streams == [] then [] else streams[0]
  }

  /** The tools called, one per LLM call but the last, then the text of the last. */
  function ToolsCalled(streams: seq<seq<LlmEvent>>): seq<ToolCall> {
    var (_, call) := Scan(FirstStream(streams));
    if call.None? then [] else [call.value] + ToolsCalled(streams[1..])
  }

  function ReplyText(streams: seq<seq<LlmEvent>>): string {
    var (text, call) := Scan(FirstStream(streams));
    if call.None? then text else ReplyText(streams[1..])
  }

  /** Whether any LLM call of the turn produced text, spoken or not. */
  predicate AnyText(streams: seq<seq<LlmEvent>>) {
    var (text, call) := Scan(FirstStream(streams));
    text != "" || (call.Some? && AnyText(streams[1..]))
  }

  lemma {:induction false} SpokenHasText(streams: seq<seq<LlmEvent>>)
    requires ReplyText(streams) != ""
    ensures AnyText(streams)
  {
    if Scan(FirstStream(streams)).1.Some? { SpokenHasText(streams[1..]); }
  }

  function ToolMessage(w: World, call: ToolCall): Message {
    Message(Tool,
            if w.toolAnswer.Some? then w.toolAnswer.value(call)
            else "(no tool dispatcher configured for " + call.name + ")",
            Some(call))
  }

  function ToolMessages(w: World, calls: seq<ToolCall>): (ms: seq<Message>)
    ensures |ms| == |calls| && forall i :: 0 <= i < |calls| ==> ms[i] == ToolMessage(w, calls[i])
  {
    if calls == [] then [] else [ToolMessage(w, calls[0])] + ToolMessages(w, calls[1..])
  }

  function ReplyMessages(w: World, streams: seq<seq<LlmEvent>>): seq<Message> {
    ToolMessages(w, ToolsCalled(streams))
    + if ReplyText(streams) == "" then [] else [Message(Assistant, ReplyText(streams), None)]
  }

  /** How many chunks are played before the first interruption raised from check `k` on. */
  function PlayedFrom(chunks: seq<Audio>, raised: nat -> bool, k: nat): nat
    requires k <= |chunks|
    decreases |chunks| - k
  {
    if k == |chunks| || raised(k) then k else PlayedFrom(chunks, raised, k + 1)
  }

  function Spoken(w: World, streams: seq<seq<LlmEvent>>): seq<Audio> {
    if ReplyText(streams) == "" then []
    else
      var chunks := w.synthesise(ReplyText(streams));
      PlayedIsPrefix(chunks, w.raised, 0);
      chunks[..PlayedFrom(chunks, w.raised, 0)]
  }

  /** What a turn plays. */
  function AudioOf(w: World, frames: seq<Frame>): seq<Audio> {
    if Question(w, frames) == "" then [] else Spoken(w, w.streams)
  }

  lemma SpeechHasText(w: World, streams: seq<seq<LlmEvent>>)
    requires Spoken(w, streams) != []
    ensures AnyText(streams)
  {
    SpokenHasText(streams);
  }

  lemma {:induction false} PlayedIsPrefix(chunks: seq<Audio>, raised: nat -> bool, k: nat)
    requires k <= |chunks|
    ensures k <= PlayedFrom(chunks, raised, k) <= |chunks|
    ensures forall j :: k <= j < PlayedFrom(chunks, raised, k) ==> !raised(j)
    ensures PlayedFrom(chunks, raised, k) < |chunks| ==> raised(PlayedFrom(chunks, raised, k))
    decreases |chunks| - k
  {
    if k < |chunks| && !raised(k) { PlayedIsPrefix(chunks, raised, k + 1); }
  }

  function NonSystem(ms: seq<Message>): seq<Message> {
    if ms == [] then []
    else
      var last := ms[|ms| - 1];
      NonSystem(ms[..|ms| - 1]) + if last.role == System then [] else [last]
  }

  function Grounded(w: World, ms: seq<Message>, question: string): seq<Message> {
    if w.ground.None? then ms else [Message(System, w.ground.value(question), None)] + NonSystem(ms)
  }

  /** The message list after a turn. */
  function AfterTurn(w: World, frames: seq<Frame>, ms: seq<Message>): seq<Message> {
    var question := Question(w, frames);
    if question == "" then ms
    else Grounded(w, ms + [Message(User, question, None)], question) + ReplyMessages(w, w.streams)
  }

  // ---- Latency ------------------------------------------------------------

  datatype Mark = EndOfSpeech | TranscriptReceived | FirstToken | FirstByte
  datatype Latency = Latency(toTranscript: Option<real>, toFirstToken: Option<real>, toFirstByte: Option<real>,
                             endToEnd: Option<real>)

  function Minus(a: real, b: Option<real>, otherwise: Option<real>): Option<real> {
    if b.Some? then Some(a - b.value) else otherwise
  }

  class TurnLatencyTracker {
    var endOfSpeech: Option<real>
    var transcript: Option<real>
    var firstToken: Option<real>
    var result: Latency
    ghost var marks: seq<Mark>

    constructor ()
      ensures endOfSpeech == transcript == firstToken == None && result == Latency(None, None, None, None)
              && marks == []
    {
      endOfSpeech, transcript, firstToken, result := None, None, None, Latency(None, None, None, None);
      marks := [];
    }

    method MarkEndOfSpeech(now: real)
      modifies this
      ensures endOfSpeech == Some(now) && transcript == old(transcript) && firstToken == old(firstToken)
      ensures result == old(result) && marks == old(marks) + [EndOfSpeech]
    {
      endOfSpeech := Some(now);
      marks := marks + [EndOfSpeech];
    }

    method MarkTranscriptReceived(now: real)
      modifies this
      ensures transcript == Some(now) && endOfSpeech == old(endOfSpeech) && firstToken == old(firstToken)
      ensures result == old(result).(toTranscript := Minus(now, endOfSpeech, old(result).toTranscript))
      ensures marks == old(marks) + [TranscriptReceived]
    {
      transcript := Some(now);
      if endOfSpeech.Some? { result := result.(toTranscript := Some(now - endOfSpeech.value)); }
      marks := marks + [TranscriptReceived];
    }

    method MarkLlmFirstToken(now: real)
      modifies this
      ensures firstToken == Some(now) && endOfSpeech == old(endOfSpeech) && transcript == old(transcript)
      ensures result == old(result).(toFirstToken := Minus(now, transcript, old(result).toFirstToken))
      ensures marks == old(marks) + [FirstToken]
    {
      firstToken := Some(now);
      if transcript.Some? { result := result.(toFirstToken := Some(now - transcript.value)); }
      marks := marks + [FirstToken];
    }

    method MarkFirstTtsByte(now: real)
      modifies this
      ensures endOfSpeech == old(endOfSpeech) && transcript == old(transcript) && firstToken == old(firstToken)
      ensures result == old(result).(toFirstByte := Minus(now, firstToken, old(result).toFirstByte),
                                     endToEnd := Minus(now, endOfSpeech, old(result).endToEnd))
      ensures marks == old(marks) + [FirstByte]
    {
      if firstToken.Some? { result := result.(toFirstByte := Some(now - firstToken.value)); }
      if endOfSpeech.Some? { result := result.(endToEnd := Some(now - endOfSpeech.value)); }
      marks := marks + [FirstByte];
    }
  }

  /** The provider that served each layer, where the caller knows it. */
  datatype Providers = Providers(stt: Option<string>, llm: Option<string>, tts: Option<string>)
  datatype LatencyRow = LatencyRow(layer: string, provider: string, duration: real)
  datatype Measured = Measured(duration: Option<real>, layer: string, provider: Option<string>)

  function Stages(p: Providers, l: Latency): seq<Measured> {
    [Measured(l.toTranscript, "stt", p.stt), Measured(l.toFirstToken, "llm", p.llm),
        Measured(l.toFirstByte, "tts", p.tts)]
  }

  /** A row for each stage that was measured and whose provider is known. */
  function RowsOf(stages: seq<Measured>): seq<LatencyRow> {
    if stages == [] then []
    else
      var m := stages[|stages| - 1];
      RowsOf(stages[..|stages| - 1])
      + if m.duration.Some? && m.provider.Some? then [LatencyRow(m.layer, m.provider.value, m.duration.value)] else []
  }

  function TotalDuration(rows: seq<LatencyRow>): real {
    if rows == [] then 0.0 else TotalDuration(rows[..|rows| - 1]) + rows[|rows| - 1].duration
  }

  /** What a fully measured turn records adds up to the time the caller waited. */
  lemma RowsAddUp(p: Providers, l: Latency)
    requires p.stt.Some? && p.llm.Some? && p.tts.Some?
    requires l.toTranscript.Some? && l.toFirstToken.Some? && l.toFirstByte.Some?
    ensures RowsOf(Stages(p, l)) == [LatencyRow("stt", p.stt.value, l.toTranscript.value),
                                     LatencyRow("llm", p.llm.value, l.toFirstToken.value),
                                     LatencyRow("tts", p.tts.value, l.toFirstByte.value)]
    ensures TotalDuration(RowsOf(Stages(p, l))) == l.toTranscript.value + l.toFirstToken.value + l.toFirstByte.value
  {
    hide RowsOf, TotalDuration;
    var all := Stages(p, l);
    var a, b, c := LatencyRow("stt", p.stt.value, l.toTranscript.value),
        LatencyRow("llm", p.llm.value, l.toFirstToken.value),
                   LatencyRow("tts", p.tts.value, l.toFirstByte.value);
    RowsStep([], all[0]);
    RowsStep([all[0]], all[1]);
    RowsStep([all[0], all[1]], all[2]);
    assert [] + [all[0]] == [all[0]] && [all[0]] + [all[1]] == [all[0], all[1]] && [all[0], all[1]] + [all[2]] == all;
    EmptyRows();
    assert [] + [a] == [a] && [a] + [b] == [a, b] && [a, b] + [c] == [a, b, c];
    DurationStep([], a);
    DurationStep([a], b);
    DurationStep([a, b], c);
  }

  lemma EmptyRows()
    ensures RowsOf([]) == [] && TotalDuration([]) == 0.0
  {
  }

  lemma RowsStep(stages: seq<Measured>, m: Measured)
    ensures RowsOf(stages + [m]) == RowsOf(stages)
              + if m.duration.Some? && m.provider.Some? then [LatencyRow(m.layer, m.provider.value, m.duration.value)]
                  else []
  {
    assert (stages + [m])[..|stages|] == stages;
  }

  lemma DurationStep(rows: seq<LatencyRow>, row: LatencyRow)
    ensures TotalDuration(rows + [row]) == TotalDuration(rows) + row.duration
  {
    assert (rows + [row])[..|rows|] == rows;
  }

  /** What the silence ladder (orchestrator/silence.py) starts again from. */
  class SilenceMonitor {
    var lastActivity: Option<real>
    var prompted: bool
    var ended: bool

    constructor ()
      ensures lastActivity == None && !prompted && !ended
    {
      lastActivity, prompted, ended := None, false, false;
    }

    method NotifyActivity(now: real)
      modifies this
      ensures lastActivity == Some(now) && !prompted && !ended
    {
      lastActivity, prompted, ended := Some(now), false, false;
    }
  }

  class BargeInController {
    var interrupted: bool

    constructor ()
      ensures !interrupted
    {
      interrupted := false;
    }

    method Trigger()
      modifies this
      ensures interrupted
    {
      interrupted := true;
    }

    method Reset()
      modifies this
      ensures !interrupted
    {
      interrupted := false;
    }
  }

  // ---- The orchestrator ---------------------------------------------------

  class ConversationOrchestrator {
    var messages: seq<Message>
    var readings: nat
    var rows: seq<LatencyRow>
    const bargeIn: BargeInController
    const monitor: SilenceMonitor
    const providers: Providers

    constructor (bargeIn: BargeInController, monitor: SilenceMonitor, providers: Providers)
      ensures messages == [] && rows == []
      ensures this.bargeIn == bargeIn && this.monitor == monitor && this.providers == providers
    {
      messages, readings, rows := [], 0, [];
      this.bargeIn, this.monitor, this.providers := bargeIn, monitor, providers;
    }

    /**
     * _inbound_audio_frames feeding the recogniser: reads until a stop frame or
     * the end of the connection; interruptions raise the barge-in flag.
     */
    method Listen(w: World, frames: seq<Frame>) returns (final: Option<string>, fed: seq<seq<nat>>)
      modifies bargeIn
      ensures fed == Fed(frames) && final == Heard(w, fed)
    {
      final, fed := None, [];
      for i := 0 to |frames|
        invariant Fed(frames) == fed + Fed(frames[i..]) && final == Heard(w, fed)
      {
        assert frames[i..][1..] == frames[i + 1..];
        var frame := frames[i];
        if frame.Media? && frame.audio != [] {
          Regroup(fed, [frame.audio], Fed(frames[i + 1..]));
          assert (fed + [frame.audio])[..|fed|] == fed;
          fed := fed + [frame.audio];
          var finals := w.hear(fed);
          if finals != [] { final := Some(finals[|finals| - 1]); }
        } else if frame.Interruption? {
          bargeIn.Trigger();
        } else if frame.Stop? {
          return;
        }
      }
    }

    method RunTurn(w: World, frames: seq<Frame>) returns (audio: seq<Audio>, tracker: TurnLatencyTracker)
      modifies this, bargeIn, monitor
      ensures fresh(tracker)
      ensures messages == AfterTurn(w, frames, old(messages))
      ensures audio == AudioOf(w, frames)
      ensures var token := if Question(w, frames) != "" && AnyText(w.streams) then [FirstToken] else [];
              var byte := if audio != [] then [FirstByte] else [];
              tracker.marks == [EndOfSpeech, TranscriptReceived] + token + byte
      ensures audio != [] ==>
        && tracker.marks == [EndOfSpeech, TranscriptReceived, FirstToken, FirstByte]
        && tracker.result.toTranscript.Some? && tracker.result.toFirstToken.Some?
        && tracker.result.toFirstByte.Some? && tracker.result.endToEnd.Some?
        && tracker.result.toTranscript.value + tracker.result.toFirstToken.value + tracker.result.toFirstByte.value
             == tracker.result.endToEnd.value
      ensures audio == [] ==> tracker.result.toFirstByte == None && tracker.result.endToEnd == None
      ensures if Question(w, frames) == "" then rows == old(rows) && unchanged(monitor)
              else
                && rows == old(rows) + RowsOf(Stages(providers, tracker.result))
                && monitor.lastActivity.Some? && !monitor.prompted && !monitor.ended
      ensures audio != [] && providers.stt.Some? && providers.llm.Some? && providers.tts.Some? ==>
        TotalDuration(rows[|old(rows)|..]) == tracker.result.endToEnd.value
    {
      hide Spoken, ReplyMessages, RowsOf, Stages, TotalDuration, Fed, Heard, Scan;
      tracker := new TurnLatencyTracker();
      audio := [];
      var final := Transcribe(w, frames, tracker);
      if final == "" { return; }
      monitor.NotifyActivity(w.clock(readings));
      readings := readings + 1;
      messages := messages + [Message(User, final, None)];
      if w.ground.Some? { ApplyGrounding(w, final); }
      audio := ReplyAndSpeak(w, w.streams, tracker, false);
      if audio != [] { SpeechHasText(w, w.streams); }
      PersistLatency(tracker.result);
      if audio != [] && providers.stt.Some? && providers.llm.Some? && providers.tts.Some? {
        RowsAddUp(providers, tracker.result);
        assert rows[|old(rows)|..] == RowsOf(Stages(providers, tracker.result));
      }
    }

    method PersistLatency(result: Latency)
      modifies this`rows
      ensures rows == old(rows) + RowsOf(Stages(providers, result))
    {
      var stages := Stages(providers, result);
      for i := 0 to |stages|
        invariant rows == old(rows) + RowsOf(stages[..i])
      {
        assert stages[..i + 1][..i] == stages[..i];
        var m := stages[i];
        if m.duration.Some? && m.provider.Some? {
          Regroup(old(rows), RowsOf(stages[..i]), [LatencyRow(m.layer, m.provider.value, m.duration.value)]);
          rows := rows + [LatencyRow(m.layer, m.provider.value, m.duration.value)];
        }
      }
      assert stages[..|stages|] == stages;
    }

    /** The first half of a turn: what the caller said, empty if nothing was understood. */
    method Transcribe(w: World, frames: seq<Frame>, tracker: TurnLatencyTracker) returns (text: string)
      requires tracker.marks == [] && tracker.endOfSpeech == tracker.transcript == tracker.firstToken == None
      modifies this`readings, bargeIn, tracker
      ensures text == Question(w, frames)
      ensures tracker.marks == [EndOfSpeech, TranscriptReceived] && tracker.firstToken == None
      ensures tracker.endOfSpeech.Some? && tracker.transcript.Some?
      ensures tracker.result
           == old(tracker.result).(toTranscript := Some(tracker.transcript.value - tracker.endOfSpeech.value))
    {
      var final, fed := Listen(w, frames);
      tracker.MarkEndOfSpeech(w.clock(readings));
      if w.trailing(fed).Some? { final := w.trailing(fed); }
      tracker.MarkTranscriptReceived(w.clock(readings + 1));
      readings := readings + 2;
      text := if final.Some? then final.value else "";
    }

    method ApplyGrounding(w: World, question: string)
      requires w.ground.Some?
      modifies this`messages
      ensures messages == Grounded(w, old(messages), question)
    {
      var kept: seq<Message> := [];
      for i := 0 to |messages|
        invariant messages == old(messages) && kept == NonSystem(messages[..i])
      {
        assert messages[..i + 1][..i] == messages[..i];
        if messages[i].role != System { kept := kept + [messages[i]]; }
      }
      assert messages[..|messages|] == messages;
      messages := [Message(System, w.ground.value(question), None)] + kept;
    }

    /** One LLM call; a tool call dispatches the tool and asks again, recursively. */
    method ReplyAndSpeak(w: World, streams: seq<seq<LlmEvent>>, tracker: TurnLatencyTracker, marked: bool)
      returns (audio: seq<Audio>)
      modifies this, bargeIn, tracker
      ensures rows == old(rows)
      ensures messages == old(messages) + ReplyMessages(w, streams)
      ensures audio == Spoken(w, streams)
      ensures tracker.endOfSpeech == old(tracker.endOfSpeech) && tracker.transcript == old(tracker.transcript)
      ensures tracker.result.toTranscript == old(tracker.result.toTranscript)
      ensures var token := if !marked && AnyText(streams) then [FirstToken] else [];
              var byte := if audio != [] then [FirstByte] else [];
              tracker.marks == old(tracker.marks) + token + byte
      ensures !marked && AnyText(streams) ==>
        && tracker.firstToken.Some?
        && tracker.result.toFirstToken
            == Minus(tracker.firstToken.value, tracker.transcript, old(tracker.result.toFirstToken))
      ensures marked || !AnyText(streams) ==>
        && tracker.firstToken == old(tracker.firstToken)
        && tracker.result.toFirstToken == old(tracker.result.toFirstToken)
      ensures audio == [] ==>
        && tracker.result.toFirstByte == old(tracker.result.toFirstByte)
        && tracker.result.endToEnd == old(tracker.result.endToEnd)
      ensures audio != [] ==> exists t: real ::
        && tracker.result.toFirstByte == Minus(t, tracker.firstToken, old(tracker.result.toFirstByte))
        && tracker.result.endToEnd == Minus(t, tracker.endOfSpeech, old(tracker.result.endToEnd))
      decreases |streams|
    {
      assert Scan([]) == ("", None);
      hide Scan, PlayedFrom, ToolMessages, Minus;
      var textBuffer, call, firstTokenMarked := ReadStream(w, FirstStream(streams), tracker, marked);
      if call.Some? {
        var answer := if w.toolAnswer.Some? then w.toolAnswer.value(call.value)
                      else "(no tool dispatcher configured for " + call.value.name + ")";
        messages := messages + [Message(Tool, answer, call)];
        audio := ReplyAndSpeak(w, streams[1..], tracker, firstTokenMarked);
        ToolFirst(w, streams, call.value);
        Regroup(old(messages), [Message(Tool, answer, call)], ReplyMessages(w, streams[1..]));
      } else if textBuffer == "" {
        audio := [];
      } else {
        messages := messages + [Message(Assistant, textBuffer, None)];
        audio := Play(w, textBuffer, tracker);
      }
    }

    /** Reads one LLM call up to its first tool call, marking the turn's first token. */
    method ReadStream(w: World, events: seq<LlmEvent>, tracker: TurnLatencyTracker, marked: bool)
      returns (textBuffer: string, call: Option<ToolCall>, firstTokenMarked: bool)
      modifies this`readings, tracker
      ensures (textBuffer, call) == Scan(events)
      ensures firstTokenMarked == (marked || textBuffer != "")
      ensures tracker.endOfSpeech == old(tracker.endOfSpeech) && tracker.transcript == old(tracker.transcript)
      ensures firstTokenMarked == marked ==>
        tracker.marks == old(tracker.marks) && tracker.firstToken == old(tracker.firstToken)
            && tracker.result == old(tracker.result)
      ensures firstTokenMarked != marked ==>
        && tracker.marks == old(tracker.marks) + [FirstToken] && tracker.firstToken.Some?
        && tracker.result == old(tracker.result).(toFirstToken :=
             Minus(tracker.firstToken.value, tracker.transcript, old(tracker.result.toFirstToken)))
    {
      textBuffer, call, firstTokenMarked := "", None, marked;
      assert events[0..] == events && "" + Scan(events).0 == Scan(events).0;
      for i := 0 to |events|
        invariant Scan(events) == Prepended(textBuffer, Scan(events[i..])) && call == None
        invariant firstTokenMarked == (marked || textBuffer != "")
        invariant tracker.endOfSpeech == old(tracker.endOfSpeech) && tracker.transcript == old(tracker.transcript)
        invariant firstTokenMarked == marked ==>
          tracker.marks == old(tracker.marks) && tracker.firstToken == old(tracker.firstToken)
              && tracker.result == old(tracker.result)
        invariant firstTokenMarked != marked ==>
          && tracker.marks == old(tracker.marks) + [FirstToken] && tracker.firstToken.Some?
          && tracker.result == old(tracker.result).(toFirstToken :=
               Minus(tracker.firstToken.value, tracker.transcript, old(tracker.result.toFirstToken)))
      {
        ScanStep(textBuffer, events, i);
        match events[i] {
          case TextDelta(text) =>
            assert text == "" ==> textBuffer + text == textBuffer;
            if text != "" {
              if !firstTokenMarked {
                tracker.MarkLlmFirstToken(w.clock(readings));
                readings := readings + 1;
                firstTokenMarked := true;
              }
              textBuffer := textBuffer + text;
            }
          case CallsTool(c) =>
            call := Some(c);
            return;
          case StreamDone =>
        }
      }
      assert textBuffer + "" == textBuffer;
    }

    /** Playback: the flag is cleared first, then checked before every chunk. */
    method Play(w: World, text: string, tracker: TurnLatencyTracker) returns (audio: seq<Audio>)
      modifies this`readings, bargeIn, tracker
      ensures var chunks := w.synthesise(text);
              PlayedFrom(chunks, w.raised, 0) <= |chunks| && audio == chunks[..PlayedFrom(chunks, w.raised, 0)]
      ensures bargeIn.interrupted <==> |audio| < |w.synthesise(text)|
      ensures tracker.endOfSpeech == old(tracker.endOfSpeech) && tracker.transcript == old(tracker.transcript)
      ensures tracker.firstToken == old(tracker.firstToken)
      ensures audio == [] ==> tracker.result == old(tracker.result) && tracker.marks == old(tracker.marks)
      ensures audio != [] ==>
        && tracker.marks == old(tracker.marks) + [FirstByte]
        && exists t: real :: tracker.result == old(tracker.result).(
             toFirstByte := Minus(t, tracker.firstToken, old(tracker.result.toFirstByte)),
             endToEnd := Minus(t, tracker.endOfSpeech, old(tracker.result.endToEnd)))
    {
      bargeIn.Reset();
      audio := [];
      var chunks := w.synthesise(text);
      PlayedIsPrefix(chunks, w.raised, 0);
      ghost var t := 0.0;
      for k := 0 to |chunks|
        invariant audio == chunks[..k] && !bargeIn.interrupted
        invariant PlayedFrom(chunks, w.raised, 0) == PlayedFrom(chunks, w.raised, k)
        invariant tracker.endOfSpeech == old(tracker.endOfSpeech) && tracker.transcript == old(tracker.transcript)
        invariant tracker.firstToken == old(tracker.firstToken)
        invariant k == 0 ==> tracker.result == old(tracker.result) && tracker.marks == old(tracker.marks)
        invariant k > 0 ==>
          && tracker.marks == old(tracker.marks) + [FirstByte]
          && tracker.result == old(tracker.result).(
               toFirstByte := Minus(t, tracker.firstToken, old(tracker.result.toFirstByte)),
               endToEnd := Minus(t, tracker.endOfSpeech, old(tracker.result.endToEnd)))
      {
        if w.raised(k) { bargeIn.Trigger(); }
        if bargeIn.interrupted { return; }
        if k == 0 {
          t := w.clock(readings);
          tracker.MarkFirstTtsByte(w.clock(readings));
          readings := readings + 1;
        }
        audio := audio + [chunks[k]];
      }
    }
  }

  lemma ToolFirst(w: World, streams: seq<seq<LlmEvent>>, call: ToolCall)
    requires streams != [] && Scan(streams[0]).1 == Some(call)
    ensures ReplyMessages(w, streams) == [ToolMessage(w, call)] + ReplyMessages(w, streams[1..])
    ensures Spoken(w, streams) == Spoken(w, streams[1..])
  {
    var calls := ToolsCalled(streams[1..]);
    ToolMessagesFirst(w, call, calls);
    var reply := if ReplyText(streams) == "" then [] else [Message(Assistant, ReplyText(streams), None)];
    Regroup([ToolMessage(w, call)], ToolMessages(w, calls), reply);
  }

  lemma ToolMessagesFirst(w: World, call: ToolCall, calls: seq<ToolCall>)
    ensures ToolMessages(w, [call] + calls) == [ToolMessage(w, call)] + ToolMessages(w, calls)
  {
    assert ([call] + calls)[1..] == calls;
  }

  // ---- Barge-in -------------------------------------------------------------

  function Quiet(frames: seq<Frame>): seq<Frame> {
    if frames == [] then [] else (if frames[0].Interruption? then [] else [frames[0]]) + Quiet(frames[1..])
  }

  lemma {:induction false} QuietFeeds(frames: seq<Frame>)
    ensures Fed(Quiet(frames)) == Fed(frames)
  {
    if frames != [] {
      var tail := frames[1..];
      QuietFeeds(tail);
      if frames[0].Interruption? {
        assert Quiet(frames) == Quiet(tail) && Fed(frames) == Fed(tail);
      } else {
        assert Quiet(frames)[0] == frames[0] && Quiet(frames)[1..] == Quiet(tail);
      }
    }
  }

  /**
   * Interrupting while the caller is still being heard cuts nothing off the
   * reply and changes nothing that is remembered: playback clears the flag first.
   */
  lemma EarlyInterruptionsCleared(w: World, frames: seq<Frame>, ms: seq<Message>)
    ensures AudioOf(w, Quiet(frames)) == AudioOf(w, frames)
    ensures AfterTurn(w, Quiet(frames), ms) == AfterTurn(w, frames, ms)
  {
    QuietFeeds(frames);
  }

  /** The reply stops after exactly `k` chunks just when the first interruption comes before chunk `k`. */
  lemma CutExactly(w: World, frames: seq<Frame>, k: nat)
    requires Question(w, frames) != "" && ReplyText(w.streams) != "" && k < |w.synthesise(ReplyText(w.streams))|
    ensures var chunks := w.synthesise(ReplyText(w.streams));
            && (AudioOf(w, frames) == chunks[..k] <==> w.raised(k) && forall j :: 0 <= j < k ==> !w.raised(j))
            && (AudioOf(w, frames) == chunks <==> forall j :: 0 <= j < |chunks| ==> !w.raised(j))
  {
    var chunks := w.synthesise(ReplyText(w.streams));
    PlayedIsPrefix(chunks, w.raised, 0);
    var played := PlayedFrom(chunks, w.raised, 0);
    assert |AudioOf(w, frames)| == played;
    assert chunks[..|chunks|] == chunks;
  }

  /** Nothing is said to what was not understood, and nothing without a reply. */
  lemma SilentTurn(w: World, frames: seq<Frame>)
    requires Question(w, frames) == "" || ReplyText(w.streams) == ""
    ensures AudioOf(w, frames) == []
  {
  }

  // ---- A conversation ---------------------------------------------------------

  datatype Utterance = Utterance(world: World, frames: seq<Frame>)

  /** The messages after several turns, oldest first. */
  function Converse(turns: seq<Utterance>, ms: seq<Message>): seq<Message> {
    if turns == [] then ms
    else Converse(turns[1..], AfterTurn(turns[0].world, turns[0].frames, ms))
  }

  /** What one turn adds to the history. */
  function Exchange(u: Utterance): seq<Message> {
    var question := Question(u.world, u.frames);
    if question == "" then []
    else [Message(User, question, None)] + ReplyMessages(u.world, u.world.streams)
  }

  function History(turns: seq<Utterance>): seq<Message> {
    if turns == [] then [] else Exchange(turns[0]) + History(turns[1..])
  }

  /** The system message standing after one turn: its own prompt if it was understood and grounded. */
  function PromptAfter(u: Utterance, before: seq<Message>): seq<Message> {
    var question := Question(u.world, u.frames);
    if question == "" || u.world.ground.None? then before
    else [Message(System, u.world.ground.value(question), None)]
  }

  /** That of the last understood turn with grounding. */
  function Prompt(turns: seq<Utterance>, before: seq<Message>): seq<Message> {
    if turns == [] then before else Prompt(turns[1..], PromptAfter(turns[0], before))
  }

  predicate Understood(u: Utterance) { Question(u.world, u.frames) != "" }

  predicate SomeUnderstood(turns: seq<Utterance>) {
    turns != [] && (Understood(turns[0]) || SomeUnderstood(turns[1..]))
  }

  predicate NoSystem(ms: seq<Message>) { forall m :: m in ms ==> m.role != System }

  predicate OnlySystem(ms: seq<Message>) { forall m :: m in ms ==> m.role == System }

  lemma {:induction false} SystemDropped(sys: seq<Message>)
    requires OnlySystem(sys)
    ensures NonSystem(sys) == []
  {
    if sys != [] {
      var n := |sys| - 1;
      assert sys[n] in sys;
      SystemDropped(sys[..n]);
    }
  }

  lemma {:induction false} NonSystemOf(sys: seq<Message>, rest: seq<Message>)
    requires OnlySystem(sys) && NoSystem(rest)
    ensures NonSystem(sys + rest) == rest
  {
    if rest == [] {
      SystemDropped(sys);
      assert sys + rest == sys;
    } else {
      var n := |rest| - 1;
      assert rest[n] in rest;
      NonSystemOf(sys, rest[..n]);
      NonSystemLast(sys + rest[..n], rest[n]);
      assert rest == rest[..n] + [rest[n]];
      Regroup(sys, rest[..n], [rest[n]]);
    }
  }

  lemma NonSystemLast(ms: seq<Message>, m: Message)
    ensures NonSystem(ms + [m]) == NonSystem(ms) + if m.role == System then [] else [m]
  {
    assert (ms + [m])[..|ms|] == ms;
  }

  /** The tools' answers in order of their calls, then at most one reply. */
  ghost predicate Answering(ms: seq<Message>, calls: seq<ToolCall>) {
    && |calls| <= |ms| <= |calls| + 1
    && (forall i :: 0 <= i < |calls| ==> ms[i].role == Tool && ms[i].answers == Some(calls[i]))
    && (|ms| == |calls| + 1 ==> ms[|calls|].role == Assistant)
  }

  /** An exchange is the user's words, then the tools' answers in order of their calls, and at most one reply. */
  lemma ExchangeShape(u: Utterance)
    ensures NoSystem(Exchange(u)) && (Exchange(u) == [] <==> !Understood(u))
    ensures Understood(u) ==>
              && Exchange(u)[0] == Message(User, Question(u.world, u.frames), None)
              && Answering(Exchange(u)[1..], ToolsCalled(u.world.streams))
  {
    if Understood(u) {
      var replies, calls := ReplyMessages(u.world, u.world.streams), ToolsCalled(u.world.streams);
      RepliesShape(u.world, u.world.streams);
      AnsweringIsNoSystem(replies, calls);
      assert Exchange(u)[1..] == replies;
    }
  }

  lemma AnsweringIsNoSystem(ms: seq<Message>, calls: seq<ToolCall>)
    requires Answering(ms, calls)
    ensures NoSystem(ms)
  {
  }

  lemma RepliesShape(w: World, streams: seq<seq<LlmEvent>>)
    ensures Answering(ReplyMessages(w, streams), ToolsCalled(streams))
  {
    var tools := ToolMessages(w, ToolsCalled(streams));
    assert forall i :: 0 <= i < |tools| ==> ReplyMessages(w, streams)[i] == tools[i];
  }

  lemma TurnKeepsHistory(u: Utterance, sys: seq<Message>, rest: seq<Message>)
    requires OnlySystem(sys) && NoSystem(rest)
    ensures OnlySystem(PromptAfter(u, sys)) && NoSystem(rest + Exchange(u))
    ensures AfterTurn(u.world, u.frames, sys + rest) == PromptAfter(u, sys) + (rest + Exchange(u))
  {
    ExchangeShape(u);
    var question := Question(u.world, u.frames);
    if question == "" {
      assert rest + [] == rest;
    } else {
      var user := [Message(User, question, None)];
      Regroup(sys, rest, user);
      NonSystemOf(sys, rest + user);
      var replies := ReplyMessages(u.world, u.world.streams);
      Regroup(PromptAfter(u, sys), rest + user, replies);
      Regroup(rest, user, replies);
    }
  }

  /**
   * After any turns the messages are the surviving system prompt followed by
   * everything said so far: nothing is ever dropped, reordered or rewritten.
   */
  lemma {:induction false} ConversationIsHistory(turns: seq<Utterance>, sys: seq<Message>, rest: seq<Message>)
    requires OnlySystem(sys) && NoSystem(rest)
    ensures Converse(turns, sys + rest) == Prompt(turns, sys) + (rest + History(turns))
    decreases |turns|
  {
    if turns == [] {
      assert rest + [] == rest;
    } else {
      var u := turns[0];
      TurnKeepsHistory(u, sys, rest);
      ConversationIsHistory(turns[1..], PromptAfter(u, sys), rest + Exchange(u));
      Regroup(rest, Exchange(u), History(turns[1..]));
    }
  }

  lemma FreshCall(turns: seq<Utterance>)
    ensures Converse(turns, []) == Prompt(turns, []) + History(turns)
  {
    var none: seq<Message> := [];
    ConversationIsHistory(turns, none, none);
    assert none + none == none && none + History(turns) == History(turns);
  }

  /**
   * With grounding in every turn of a fresh call, one understood turn suffices for exactly one
   * system message, first.
   */
  lemma {:induction false} OneSystemMessage(turns: seq<Utterance>, before: seq<Message>)
    requires forall u :: u in turns ==> u.world.ground.Some?
    requires |before| <= 1 && OnlySystem(before)
    ensures |Prompt(turns, before)| <= 1 && OnlySystem(Prompt(turns, before))
    ensures |Prompt(turns, before)| == 1 <==> before != [] || SomeUnderstood(turns)
    decreases |turns|
  {
    if turns != [] {
      OneSystemMessage(turns[1..], PromptAfter(turns[0], before));
      assert turns == [turns[0]] + turns[1..];
    }
  }

  /** A call starts with no messages; this is what its list always looks like. */
  lemma GroundedCall(turns: seq<Utterance>)
    requires forall u :: u in turns ==> u.world.ground.Some?
    ensures var ms := Converse(turns, []);
            && (SomeUnderstood(turns) ==> ms != [] && ms[0].role == System && ms[1..] == History(turns))
            && (!SomeUnderstood(turns) ==> ms == History(turns))
            && NoSystem(History(turns))
  {
    FreshCall(turns);
    OneSystemMessage(turns, []);
    HistoryHasNoSystem(turns);
    assert [] + History(turns) == History(turns);
  }

  /** Without grounding no system message ever appears. */
  lemma UngroundedCall(turns: seq<Utterance>)
    requires forall u :: u in turns ==> u.world.ground.None?
    ensures Converse(turns, []) == History(turns) && NoSystem(History(turns))
  {
    FreshCall(turns);
    PromptUnchanged(turns, []);
    HistoryHasNoSystem(turns);
    assert [] + History(turns) == History(turns);
  }

  lemma {:induction false} PromptUnchanged(turns: seq<Utterance>, before: seq<Message>)
    requires forall u :: u in turns ==> u.world.ground.None?
    ensures Prompt(turns, before) == before
    decreases |turns|
  {
    if turns != [] { PromptUnchanged(turns[1..], before); }
  }

  lemma {:induction false} HistoryHasNoSystem(turns: seq<Utterance>)
    ensures NoSystem(History(turns))
  {
    if turns != [] {
      ExchangeShape(turns[0]);
      HistoryHasNoSystem(turns[1..]);
    }
  }

  // ---- Told from the inputs alone ---------------------------------------------

  /** A media frame with audio in it, before the stream stops. */
  ghost predicate Feeds(frames: seq<Frame>, i: int) {
    && 0 <= i < |frames| && frames[i].Media? && frames[i].audio != []
    && forall j :: 0 <= j < i ==> !frames[j].Stop?
  }

  ghost predicate AudioAt(frames: seq<Frame>, fed: seq<seq<nat>>, picks: seq<int>) {
    |picks| == |fed| && forall k :: 0 <= k < |picks| ==> 0 <= picks[k] < |frames| && frames[picks[k]] == Media(fed[k])
  }

  /** The recogniser is fed the audio of exactly these frames, in their order. */
  lemma {:induction false} FedExactly(frames: seq<Frame>) returns (picks: seq<int>)
    ensures AudioAt(frames, Fed(frames), picks) && Rising(picks)
    ensures forall i :: i in picks <==> Feeds(frames, i)
  {
    picks := [];
    if frames != [] && !frames[0].Stop? {
      var rest := FedExactly(frames[1..]);
      picks := FedShifted(frames, Fed(frames[1..]), rest);
      forall i ensures i in picks <==> Feeds(frames, i) { FeedsLater(frames, i); }
    }
  }

  lemma FeedsLater(frames: seq<Frame>, i: int)
    requires frames != [] && !frames[0].Stop?
    ensures Feeds(frames, i) <==> if i == 0 then frames[0].Media? && frames[0].audio != []
                                  else i > 0 && Feeds(frames[1..], i - 1)
  {
    assert forall j :: 0 < j < |frames| ==> frames[j] == frames[1..][j - 1];
  }

  lemma AudioFirst(frames: seq<Frame>, fed: seq<seq<nat>>, picks: seq<int>)
    requires AudioAt(frames, fed, picks) && Rising(picks) && 0 !in picks && frames != [] && frames[0].Media?
    ensures AudioAt(frames, [frames[0].audio] + fed, [0] + picks) && Rising([0] + picks)
  {
    assert forall k :: 0 <= k < |picks| ==> picks[k] in picks;
  }

  lemma FedShifted(frames: seq<Frame>, fed: seq<seq<nat>>, rest: seq<int>) returns (picks: seq<int>)
    requires frames != [] && AudioAt(frames[1..], fed, rest) && Rising(rest)
    ensures var first := frames[0].Media? && frames[0].audio != [];
            && AudioAt(frames, (if first then [frames[0].audio] else []) + fed, picks) && Rising(picks)
            && forall i :: i in picks <==> (first && i == 0) || (i > 0 && i - 1 in rest)
  {
    picks := Shifted(rest);
    ShiftedMembers(rest);
    assert forall k :: 0 <= k < |rest| ==> rest[k] >= 0;
    assert AudioAt(frames, fed, picks) && Rising(picks);
    hide AudioAt, Rising;
    if frames[0].Media? && frames[0].audio != [] {
      AudioFirst(frames, fed, picks);
      picks := [0] + picks;
    } else {
      assert [] + fed == fed;
    }
  }

  /** The last chunk with which the recogniser came to a final transcript. */
  ghost predicate LastFinal(w: World, fed: seq<seq<nat>>, n: int) {
    0 < n <= |fed| && w.hear(fed[..n]) != [] && forall m :: n < m <= |fed| ==> w.hear(fed[..m]) == []
  }

  lemma {:induction false} HeardIsLast(w: World, fed: seq<seq<nat>>)
    ensures forall n :: LastFinal(w, fed, n) ==>
              Heard(w, fed) == Some(w.hear(fed[..n])[|w.hear(fed[..n])| - 1])
    ensures (forall n :: 0 < n <= |fed| ==> w.hear(fed[..n]) == []) <==> Heard(w, fed).None?
  {
    if fed != [] {
      var init := fed[..|fed| - 1];
      assert fed[..|fed|] == fed && forall n :: 0 <= n < |fed| ==> fed[..n] == init[..n];
      HeardIsLast(w, init);
      if w.hear(fed) == [] {
        forall n | LastFinal(w, fed, n) ensures LastFinal(w, init, n) {}
      }
    }
  }

  /** What the turn is about: the transcript given at the end, else the last final one of the last chunk with any. */
  lemma QuestionIs(w: World, frames: seq<Frame>)
    ensures var fed := Fed(frames);
            && (w.trailing(fed).Some? ==> Question(w, frames) == w.trailing(fed).value)
            && (w.trailing(fed).None? ==> forall n :: LastFinal(w, fed, n) ==>
                  Question(w, frames) == w.hear(fed[..n])[|w.hear(fed[..n])| - 1])
            && (w.trailing(fed).None? && (forall n :: 0 < n <= |fed| ==> w.hear(fed[..n]) == []) ==>
                  Question(w, frames) == "")
  {
    HeardIsLast(w, Fed(frames));
  }

  /** The text of these events put together. */
  ghost function Spelled(events: seq<LlmEvent>): string {
    if events == [] then ""
    else
      var last := events[|events| - 1];
      Spelled(events[..|events| - 1]) + if last.TextDelta? then last.text else ""
  }

  lemma {:induction false} SpelledFirst(events: seq<LlmEvent>)
    requires events != []
    ensures Spelled(events) == (if events[0].TextDelta? then events[0].text else "") + Spelled(events[1..])
  {
    var n := |events| - 1;
    if n > 0 {
      SpelledFirst(events[..n]);
      assert events[..n][1..] == events[1..][..n - 1];
    }
  }

  /** Reading stops at the first tool call, with the text before it. */
  lemma {:induction false} ScanIs(events: seq<LlmEvent>) returns (n: nat)
    ensures n <= |events| && forall i :: 0 <= i < n ==> !events[i].CallsTool?
    ensures n < |events| ==> events[n].CallsTool?
    ensures Scan(events) == (Spelled(events[..n]), if n < |events| then Some(events[n].call) else None)
  {
    n := 0;
    assert events[..0] == [];
    if events != [] && !events[0].CallsTool? {
      var n' := ScanIs(events[1..]);
      n := n' + 1;
      SpelledFirst(events[..n]);
      assert events[..n][1..] == events[1..][..n'] && forall i :: 0 < i < |events| ==> events[i] == events[1..][i - 1];
      assert "" + Spelled(events[1..][..n']) == Spelled(events[1..][..n']);
    }
  }

  /** What one LLM call says, none if there are no more. */
  ghost function TextOf(streams: seq<seq<LlmEvent>>, i: nat): string {
    if i < |streams| then Scan(streams[i]).0 else ""
  }

  /** The first `n` LLM calls of the turn each call a tool, and the next one, if any, does not. */
  ghost predicate CallTools(streams: seq<seq<LlmEvent>>, n: nat) {
    && n <= |streams| && (forall i :: 0 <= i < n ==> Scan(streams[i]).1.Some?)
    && (n < |streams| ==> Scan(streams[n]).1.None?)
  }

  ghost predicate TextUpTo(streams: seq<seq<LlmEvent>>, n: nat) {
    exists i: nat :: i <= n && TextOf(streams, i) != ""
  }

  lemma CallsLater(streams: seq<seq<LlmEvent>>, n: nat)
    requires streams != [] && Scan(streams[0]).1.Some? && n > 0
    ensures CallTools(streams, n) <==> CallTools(streams[1..], n - 1)
    ensures TextOf(streams, n) == TextOf(streams[1..], n - 1)
    ensures TextUpTo(streams, n) <==> TextOf(streams, 0) != "" || TextUpTo(streams[1..], n - 1)
  {
    hide Scan;
    assert forall i :: 0 < i < |streams| ==> streams[i] == streams[1..][i - 1];
    assert forall i: nat :: TextOf(streams, i + 1) == TextOf(streams[1..], i);
    if i: nat :| i <= n && TextOf(streams, i) != "" {
      if i > 0 { assert TextOf(streams[1..], i - 1) != ""; }
    }
  }

  /** Up to there, tools are called; there the reply is said, and the first text is found up to there. */
  lemma {:induction false} CallsExactly(streams: seq<seq<LlmEvent>>) returns (n: nat)
    ensures CallTools(streams, n)
    ensures |ToolsCalled(streams)| == n
    ensures forall i :: 0 <= i < n ==> ToolsCalled(streams)[i] == Scan(streams[i]).1.value
    ensures ReplyText(streams) == TextOf(streams, n)
    ensures AnyText(streams) <==> TextUpTo(streams, n)
  {
    n := 0;
    assert Scan([]) == ("", None);
    hide Scan;
    if streams != [] && Scan(streams[0]).1.Some? {
      var n' := CallsExactly(streams[1..]);
      n := n' + 1;
      CallsLater(streams, n);
      hide CallTools, TextUpTo;
      assert forall i :: 0 < i < n ==> streams[i] == streams[1..][i - 1];
    } else {
      assert TextUpTo(streams, 0) <==> TextOf(streams, 0) != "";
    }
  }

  /** Each tool is answered by the dispatcher, or by a message that there is none; then the reply, unless empty. */
  lemma RepliesAre(w: World, streams: seq<seq<LlmEvent>>, n: nat)
    requires CallTools(streams, n)
    ensures var ms := ReplyMessages(w, streams);
            && |ms| == n + (if TextOf(streams, n) == "" then 0 else 1)
            && (forall i :: 0 <= i < n ==>
                  var call := Scan(streams[i]).1.value;
                  ms[i] == Message(Tool, if w.toolAnswer.Some? then w.toolAnswer.value(call)
                                         else "(no tool dispatcher configured for " + call.name + ")", Some(call)))
            && (TextOf(streams, n) != "" ==> ms[n] == Message(Assistant, TextOf(streams, n), None))
  {
    hide Scan;
    var m := CallsExactly(streams);
    assert m == n;
    hide ToolsCalled, ReplyText;
    var tools := ToolMessages(w, ToolsCalled(streams));
    assert forall i :: 0 <= i < n ==> ReplyMessages(w, streams)[i] == tools[i];
  }

  /** A stage is recorded exactly if it was measured and its provider is known. */
  lemma RowsExactly(p: Providers, l: Latency, row: LatencyRow)
    ensures row in RowsOf(Stages(p, l)) <==>
            || (row.layer == "stt" && p.stt == Some(row.provider) && l.toTranscript == Some(row.duration))
            || (row.layer == "llm" && p.llm == Some(row.provider) && l.toFirstToken == Some(row.duration))
            || (row.layer == "tts" && p.tts == Some(row.provider) && l.toFirstByte == Some(row.duration))
  {
    hide RowsOf;
    var all := Stages(p, l);
    RowsStep([], all[0]);
    RowsStep([all[0]], all[1]);
    RowsStep([all[0], all[1]], all[2]);
    assert [] + [all[0]] == [all[0]] && [all[0]] + [all[1]] == [all[0], all[1]] && [all[0], all[1]] + [all[2]] == all;
    EmptyRows();
  }
}
