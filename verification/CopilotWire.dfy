/** Copilot's events as they are written on the wire, read back, told and reported. */
module CopilotWire {
  import opened Wrappers
  import opened Words
  import opened Json
  import opened Sequences
  import opened TextLines
  import opened Handler
  import opened Copilot

  // ---- the wire format ----

  function Field(key: string, value: Option<string>): map<string, Value> {
    match value
    case Some(s) => map[key := String(s)]
    case None => map[]
  }

  function Envelope(kind: string, data: map<string, Value>): Value {
    Object(map["type" := String(kind), "data" := Object(data)])
  }

  function CompleteData(e: Event): map<string, Value>
    requires e.ToolComplete?
  {
    map["toolCallId" := String(e.callId), "success" := Bool(e.success)]
    + (if e.output.Some? then map["result" := Object(Field("detailedContent", e.output))] else map[])
    + (if e.error.Some? then map["error" := Object(Field("message", e.error))] else map[])
  }

  lemma CompleteDataHolds(e: Event)
    requires e.ToolComplete?
    ensures var data := CompleteData(e);
            && "toolCallId" in data && data["toolCallId"] == String(e.callId)
            && "success" in data && data["success"] == Bool(e.success)
            && ("result" in data <==> e.output.Some?)
            && (e.output.Some? ==> data["result"] == Object(Field("detailedContent", e.output)))
            && ("error" in data <==> e.error.Some?)
            && (e.error.Some? ==> data["error"] == Object(Field("message", e.error)))
  {
  }

  function Wire(e: Event): Value {
    match e
    case Message(id, content) => Envelope("assistant.message", Field("messageId", id) + map["content" := content])
    case Delta(id, text) =>
      Envelope("assistant.message_delta", Field("messageId", id) + map["deltaContent" := String(text)])
    case TurnEnd => Envelope("assistant.turn_end", map[])
    case ToolStart(callId, name, args) =>
      Envelope("tool.execution_start",
               map["toolCallId" := String(callId), "toolName" := String(name), "arguments" := args])
    case ToolComplete(callId, success, output, error) =>
      Envelope("tool.execution_complete", CompleteData(e))
    case Result(exitCode) =>
      Object(map["type" := String("result")] + if exitCode.Some? then map["exitCode" := Number(exitCode.value)] else map[])
    case Ignored => Envelope("assistant.turn_start", map[])
  }

  /**
   What an event reads as: an output stands in for a missing error message, and an
   exit code beyond 32 bits counts as absent.
   */
  function AsRead(e: Event): Event {
    match e
    case ToolComplete(callId, success, output, error) => ToolComplete(callId, success, output, OrElse(error, output))
    case Result(Some(n)) => Result(if -0x8000_0000 <= n < 0x8000_0000 then Some(n) else None)
    case _ => e
  }

  lemma EnvelopeReads(kind: string, data: map<string, Value>, key: string)
    ensures Text(Envelope(kind, data).Get("type")) == Some(kind)
    ensures Data(Envelope(kind, data), key) == if key in data then Some(data[key]) else None
  {
    assert Envelope(kind, data).Get("type") == Some(String(kind));
    assert Envelope(kind, data).Get("data") == Some(Object(data));
  }

  lemma MessageReads(id: Option<string>, content: Value)
    ensures ParseEvent(Wire(Message(id, content))) == Some(Message(id, content))
  {
    var data := Field("messageId", id) + map["content" := content];
    EnvelopeReads("assistant.message", data, "messageId");
    EnvelopeReads("assistant.message", data, "content");
  }

  lemma DeltaReads(id: Option<string>, text: string)
    ensures ParseEvent(Wire(Delta(id, text))) == Some(Delta(id, text))
  {
    var data := Field("messageId", id) + map["deltaContent" := String(text)];
    EnvelopeReads("assistant.message_delta", data, "messageId");
    EnvelopeReads("assistant.message_delta", data, "deltaContent");
  }

  lemma ToolStartReads(callId: string, name: string, args: Value)
    ensures ParseEvent(Wire(ToolStart(callId, name, args))) == Some(ToolStart(callId, name, args))
  {
    var data := map["toolCallId" := String(callId), "toolName" := String(name), "arguments" := args];
    EnvelopeReads("tool.execution_start", data, "toolCallId");
    EnvelopeReads("tool.execution_start", data, "toolName");
    EnvelopeReads("tool.execution_start", data, "arguments");
  }

  lemma ToolCompleteReads(e: Event)
    requires e.ToolComplete?
    ensures ParseEvent(Wire(e)) == Some(AsRead(e))
  {
    var data := CompleteData(e);
    CompleteDataHolds(e);
    EnvelopeReads("tool.execution_complete", data, "toolCallId");
    EnvelopeReads("tool.execution_complete", data, "success");
    EnvelopeReads("tool.execution_complete", data, "result");
    EnvelopeReads("tool.execution_complete", data, "error");
    CompleteParts(data, e);
  }

  lemma CompleteParts(data: map<string, Value>, e: Event)
    requires e.ToolComplete?
    requires Data(Envelope("tool.execution_complete", data), "toolCallId") == Some(String(e.callId))
    requires Data(Envelope("tool.execution_complete", data), "success") == Some(Bool(e.success))
    requires Data(Envelope("tool.execution_complete", data), "result")
          == if e.output.Some? then Some(Object(Field("detailedContent", e.output))) else None
    requires Data(Envelope("tool.execution_complete", data), "error")
          == if e.error.Some? then Some(Object(Field("message", e.error))) else None
    ensures ParseComplete(Envelope("tool.execution_complete", data)) == AsRead(e)
  {
  }

  lemma ResultReads(exitCode: Option<int>)
    ensures ParseEvent(Wire(Result(exitCode))) == Some(AsRead(Result(exitCode)))
  {
    assert Wire(Result(exitCode)).Get("type") == Some(String("result"));
  }

  /** Every event is read back from the wire as it was written. */
  lemma WireReadsBack(e: Event)
    ensures ParseEvent(Wire(e)) == Some(AsRead(e))
  {
    match e {
      case Message(id, content) => MessageReads(id, content);
      case Delta(id, text) => DeltaReads(id, text);
      case ToolStart(callId, name, args) => ToolStartReads(callId, name, args);
      case ToolComplete(_, _, _, _) => ToolCompleteReads(e);
      case Result(exitCode) => ResultReads(exitCode);
      case TurnEnd => TurnEndReads();
      case Ignored => TurnStartReads();
    }
  }

  lemma TurnEndReads()
    ensures ParseEvent(Wire(TurnEnd)) == Some(TurnEnd)
  {
    EnvelopeReads("assistant.turn_end", map[], "turnId");
  }

  lemma TurnStartReads()
    ensures ParseEvent(Wire(Ignored)) == Some(Ignored)
  {
    EnvelopeReads("assistant.turn_start", map[], "turnId");
  }

  // ---- what a run reports ----

  /** The events of the lines. */
  function EventsOf(json: JsonParser, lines: seq<string>): seq<Event> {
    if lines == [] then []
    else
      var e := ParseLine(json, lines[|lines| - 1]);
      EventsOf(json, lines[..|lines| - 1]) + if e.Some? then [e.value] else []
  }

  // ---- whole streams ----

  /** A line of output: an event with space around it, only space, or no JSON at all. */
  datatype Line = EventLine(before: string, e: Event, after: string) | SpaceLine(space: string) | NoiseLine(text: string)

  function LineText(write: Value -> string, line: Line): string {
    match line
    case EventLine(before, e, after) => before + write(Wire(e)) + after
    case SpaceLine(space) => space
    case NoiseLine(text) => text
  }

  function Sent(write: Value -> string, lines: seq<Line>): string {
    if lines == [] then ""
    else Sent(write, lines[..|lines| - 1]) + (LineText(write, lines[|lines| - 1]) + "\n")
  }

  function EventsSent(lines: seq<Line>): seq<Event> {
    if lines == [] then []
    else
      var last := lines[|lines| - 1];
      EventsSent(lines[..|lines| - 1]) + if last.EventLine? then [AsRead(last.e)] else []
  }

  predicate IsTrimmed(text: string) {
    text != "" && !IsSpace(text[0]) && !IsSpace(text[|text| - 1])
  }

  /** The parser reads an event as it was written, and no JSON in the noise. */
  predicate IsRead(json: JsonParser, write: Value -> string, line: Line) {
    && '\n' !in LineText(write, line)
    && match line
       case EventLine(before, e, after) =>
         && AllSpace(before) && AllSpace(after)
         && IsTrimmed(write(Wire(e))) && json(write(Wire(e))) == Some(Wire(e))
       case SpaceLine(space) => AllSpace(space)
       case NoiseLine(text) => json(Trim(text)).None?
  }

  lemma LineIsRead(json: JsonParser, write: Value -> string, line: Line)
    requires IsRead(json, write, line)
    ensures ParseLine(json, StripCr(LineText(write, line))) == if line.EventLine? then Some(AsRead(line.e)) else None
  {
    TrimIgnoresCr(LineText(write, line));
    match line {
      case EventLine(before, e, after) =>
        TrimOfPadded(before, write(Wire(e)), after);
        WireReadsBack(e);
      case SpaceLine(space) => BlankIffAllSpace(space);
      case NoiseLine(_) =>
    }
  }

  /** Every event sent is read, in order and once, whatever space and noise is sent between them. */
  lemma {:induction false} StreamReadsBack(json: JsonParser, write: Value -> string, lines: seq<Line>)
    requires forall line :: line in lines ==> IsRead(json, write, line)
    ensures EventsOf(json, Lines(Sent(write, lines))) == EventsSent(lines)
  {
    if lines == [] {
      NoNewlineNoLine("");
    } else {
      var init, last := lines[..|lines| - 1], lines[|lines| - 1];
      StreamReadsBack(json, write, init);
      SentIsWholeLines(json, write, init);
      LineIsRead(json, write, last);
      NextLineIsRead(json, Sent(write, init), LineText(write, last));
    }
  }

  lemma {:induction false} SentIsWholeLines(json: JsonParser, write: Value -> string, lines: seq<Line>)
    requires forall line :: line in lines ==> IsRead(json, write, line)
    ensures Rest(Sent(write, lines)) == ""
  {
    if lines == [] {
      NoNewlineNoLine("");
    } else {
      var init, last := lines[..|lines| - 1], lines[|lines| - 1];
      SentIsWholeLines(json, write, init);
      assert IsRead(json, write, last);
      LineSent(Sent(write, init), LineText(write, last));
    }
  }

  lemma NextLineIsRead(json: JsonParser, sent: string, text: string)
    requires Rest(sent) == "" && '\n' !in text
    ensures var e := ParseLine(json, StripCr(text));
            EventsOf(json, Lines(sent + (text + "\n"))) == EventsOf(json, Lines(sent)) + if e.Some? then [e.value] else []
  {
    LineSent(sent, text);
    EventsOfSnoc(json, Lines(sent), StripCr(text));
  }

  lemma LineSent(sent: string, text: string)
    requires Rest(sent) == "" && '\n' !in text
    ensures Rest(sent + (text + "\n")) == ""
    ensures Lines(sent + (text + "\n")) == Lines(sent) + [StripCr(text)]
  {
    NoNewlineNoLine("");
    assert text + "\n" == text + "\n" + "";
    FirstOfLines(text, "");
    CompleteCons(text, "");
    LinesOfConcat(sent, text + "\n");
    assert Rest(sent) + (text + "\n") == text + "\n";
    LinesAfterWholeLines(sent, text + "\n");
  }

  lemma EventsOfSnoc(json: JsonParser, lines: seq<string>, line: string)
    ensures EventsOf(json, lines + [line])
         == EventsOf(json, lines) + if ParseLine(json, line).Some? then [ParseLine(json, line).value] else []
  {
    assert (lines + [line])[..|lines|] == lines;
  }

  // ---- counts ----

  function TurnsEnded(events: seq<Event>): nat {
    if events == [] then 0
    else TurnsEnded(events[..|events| - 1]) + if events[|events| - 1].TurnEnd? then 1 else 0
  }

  /** The messages that deltas were streamed for. */
  ghost predicate HasDelta(events: seq<Event>, id: string) {
    exists e :: e in events && e.Delta? && e.id == Some(id)
  }

  ghost predicate Counts(st: State, events: seq<Event>) {
    && st.completedTurns == Wrap32(TurnsEnded(events))
    && forall id :: id in st.streamedIds <==> HasDelta(events, id)
  }

  lemma EventCounts(st: State, events: seq<Event>, e: Event)
    requires Counts(st, events)
    ensures Counts(Next(st, e), events + [e])
  {
    assert (events + [e])[..|events|] == events;
    WrapsTrueSum32(TurnsEnded(events), 1);
    forall id ensures HasDelta(events + [e], id) <==> HasDelta(events, id) || (e.Delta? && e.id == Some(id)) {
      assert forall x :: x in events + [e] <==> x in events || x == e;
    }
  }

  /** After any lines the state counts the turns that ended and knows the messages that were streamed. */
  lemma {:induction false} StateOfRun(json: JsonParser, lines: seq<string>)
    ensures Counts(HandleLines(json, NEW_PROGRESS, lines).state, EventsOf(json, lines))
  {
    if lines != [] {
      var init, last := lines[..|lines| - 1], ParseLine(json, lines[|lines| - 1]);
      StateOfRun(json, init);
      if last.Some? {
        EventCounts(HandleLines(json, NEW_PROGRESS, init).state, EventsOf(json, init), last.value);
      } else {
        assert EventsOf(json, init) + [] == EventsOf(json, init);
      }
    }
  }

  /** The result reports the turns that ended, and an error exactly when the exit code is there and not zero. */
  lemma ResultReports(json: JsonParser, lines: seq<string>, exitCode: Option<int>)
    ensures var st := HandleLines(json, NEW_PROGRESS, lines).state;
            var result := SessionOf(st, exitCode);
            && result.numTurns == Wrap32(TurnsEnded(EventsOf(json, lines)))
            && (result.isError <==> exitCode.Some? && exitCode.value != 0)
            && result.inputTokens == 0 && result.outputTokens == 0
            && result.cacheReadTokens == 0 && result.cacheWriteTokens == 0
            && Shown(st, Result(exitCode))
               == (if result.isError then [OnError("Session ended with exit code " + Decimal(exitCode.value))] else [])
                  + [OnComplete(result)]
  {
    StateOfRun(json, lines);
  }

  /**
   After any lines: a delta is told unless it is empty, a message streamed by deltas
   only ends its line, any other message is told whole, and nothing else is told as text.
   */
  lemma TextIsTold(json: JsonParser, lines: seq<string>, id: string, text: string, content: Value)
    ensures var events := EventsOf(json, lines);
            var st := HandleLines(json, NEW_PROGRESS, lines).state;
            var told := Shown(st, Delta(Some(id), text));
            && (told == [] <==> text == "") && (told != [] ==> told == [OnText(text)])
            && Shown(st, Delta(None, text)) == told
            && (HasDelta(events, id) ==> Shown(st, Message(Some(id), content)) == [OnText("\n")])
            && (!HasDelta(events, id) ==>
                  Shown(st, Message(Some(id), content)) == Shown(st, Message(None, content)))
            && (Shown(st, Message(None, content)) == [] <==> ContentText(content).None?)
            && (ContentText(content).Some? ==>
                  Shown(st, Message(None, content)) == [OnText(ContentText(content).value)])
            && Shown(st, TurnEnd) == [] && Shown(st, Ignored) == []
  {
    StateOfRun(json, lines);
  }

  /** A tool is told by its name and call when it starts; its end as a result exactly when it succeeded. */
  lemma ToolsAreTold(st: State, callId: string, name: string, args: Value, success: bool,
                     output: Option<string>, error: Option<string>)
    ensures Shown(st, ToolStart(callId, name, args)) == [OnToolCall(name, callId, args)]
    ensures var told := Shown(st, ToolComplete(callId, success, output, error));
            && |told| == 1
            && (told[0].OnToolResult? <==> success) && (told[0].OnError? <==> !success)
            && (success ==> told[0].id == callId && told[0].output == output.GetOr(""))
            && (!success ==> told[0].message == error.GetOr("Tool execution failed: " + callId))
  {
  }

  // ---- decimal numbers ----

  function ValueOf(digits: string): int {
    if digits == "" then 0
    else 10 * ValueOf(digits[..|digits| - 1]) + (digits[|digits| - 1] as int - '0' as int)
  }

  lemma {:induction false} DigitsReadBack(n: nat)
    ensures Digits(n) != "" && ValueOf(Digits(n)) == n
    ensures forall c :: c in Digits(n) ==> '0' <= c <= '9'
  {
    var high := if n < 10 then "" else Digits(n / 10);
    if n >= 10 {
      DigitsReadBack(n / 10);
    }
    assert Digits(n)[..|Digits(n)| - 1] == high;
  }

  /** The exit code in the message is the exit code. */
  lemma DecimalReadsBack(n: int)
    ensures var text := Decimal(n);
            n == if text[0] == '-' then -ValueOf(text[1..]) else ValueOf(text)
  {
    DigitsReadBack(if n < 0 then -n else n);
    if n < 0 {
      assert Decimal(n)[1..] == Digits(-n);
    } else {
      assert Decimal(n)[0] in Digits(n);
    }
  }
}
