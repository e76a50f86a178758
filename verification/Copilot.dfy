/**
 Copilot's event stream: what the live handler shows, what is extracted while
 streaming, and what is extracted from the whole raw output afterwards.
 */
module Copilot {
  import opened Sequences
  import opened Wrappers
  import opened Words
  import opened Json
  import opened TextLines
  import opened Utf8
  import opened LineStream
  import opened Handler

  datatype Event =
    | Message(id: Option<string>, content: Value)
    | Delta(id: Option<string>, text: string)
    | TurnEnd
    | ToolStart(callId: string, name: string, args: Value)
    | ToolComplete(callId: string, success: bool, output: Option<string>, error: Option<string>)
    | Result(exitCode: Option<int>)
    | Ignored

  /** Parses one trimmed line of JSON; a parameter of the model. */
  type JsonParser = string -> Option<Value>

  // ---- parsing ----

  function Data(v: Value, key: string): Option<Value> {
    var data := v.Get("data");
    if data.Some? then data.value.Get(key) else None
  }

  function Text(v: Option<Value>): Option<string> {
    if v.Some? then v.value.AsString() else None
  }

  function OrElse<T>(a: Option<T>, b: Option<T>): Option<T> {
    if a.Some? then a else b
  }

  function ItemText(item: Value): Option<string> {
    if item.String? then Some(item.s) else Text(item.Get("text"))
  }

  /** The texts of the items one after the other. */
  function ItemTexts(items: seq<Value>): string {
    if items == [] then ""
    else ItemTexts(items[..|items| - 1]) + ItemText(items[|items| - 1]).GetOr("")
  }

  function ContentText(content: Value): Option<string> {
    match content
    case String(s) => Some(s)
    case Array(items) => if ItemTexts(items) == "" then None else Some(ItemTexts(items))
    case Object(_) => Text(content.Get("text"))
    case _ => None
  }

  method ExtractContentText(content: Value) returns (text: Option<string>)
    ensures text == ContentText(content)
  {
    match content
    case Array(items) =>
      var combined := "";
      for i := 0 to |items|
        invariant combined == ItemTexts(items[..i])
      {
        assert items[..i + 1][..i] == items[..i];
        var item := ItemText(items[i]);
        if item.Some? {
          combined := combined + item.value;
        }
      }
      assert items[..|items|] == items;
      text := if combined == "" then None else Some(combined);
    case _ => text := ContentText(content);
  }

  function ParseComplete(v: Value): Event {
    var callId := Text(Data(v, "toolCallId"));
    if callId.None? then Ignored
    else
      var success := Data(v, "success");
      var result := Data(v, "result");
      var output := if result.None? then None
                    else OrElse(Text(result.value.Get("detailedContent")),
                                ContentText(result.value.Get("content").GetOr(Null)));
      var error := Data(v, "error");
      var message := if error.None? then None else Text(error.value.Get("message"));
      ToolComplete(callId.value,
                   success.Some? && success.value.AsBool() == Some(true),
                   output, OrElse(message, output))
  }

  /** A 32-bit exit code; anything else counts as absent. */
  function ExitCode(v: Value): Option<int> {
    match v.Get("exitCode")
    case Some(Number(n)) => if -0x8000_0000 <= n < 0x8000_0000 then Some(n) else None
    case _ => None
  }

  function ParseEvent(v: Value): Option<Event> {
    var kind := Text(v.Get("type"));
    if kind.None? then None
    else if kind.value == "assistant.message" then
      Some(Message(Text(Data(v, "messageId")), Data(v, "content").GetOr(Null)))
    else if kind.value == "assistant.message_delta" then
      Some(Delta(Text(Data(v, "messageId")), Text(Data(v, "deltaContent")).GetOr("")))
    else if kind.value == "assistant.turn_end" then Some(TurnEnd)
    else if kind.value == "tool.execution_start" then
      var callId, name := Text(Data(v, "toolCallId")), Text(Data(v, "toolName"));
      Some(if callId.Some? && name.Some?
           then ToolStart(callId.value, name.value, Data(v, "arguments").GetOr(Null))
           else Ignored)
    else if kind.value == "tool.execution_complete" then Some(ParseComplete(v))
    else if kind.value == "result" then Some(Result(ExitCode(v)))
    else Some(Ignored)
  }

  function ParseLine(json: JsonParser, line: string): Option<Event> {
    if IsBlank(line) then None
    else
      match json(Trim(line))
      case None => None
      case Some(v) => ParseEvent(v)
  }

  // ---- extraction ----

  function AppendTextChunk(output: string, chunk: string): string {
    output + chunk + (if chunk == "" || chunk[|chunk| - 1] != '\n' then "\n" else "")
  }

  /** The assistant text of one line: full messages only. */
  function ExtractText(json: JsonParser, line: string): Option<string> {
    match ParseLine(json, line)
    case Some(Message(_, content)) => ContentText(content)
    case _ => None
  }

  function ExtractLines(json: JsonParser, lines: seq<string>): string {
    if lines == [] then ""
    else
      var before := ExtractLines(json, lines[..|lines| - 1]);
      match ExtractText(json, lines[|lines| - 1])
      case Some(text) => AppendTextChunk(before, text)
      case None => before
  }

  method ExtractAllText(json: JsonParser, raw: string) returns (extracted: string)
    ensures extracted == ExtractLines(json, Lines(raw))
  {
    extracted := "";
    var lines := Lines(raw);
    for i := 0 to |lines|
      invariant extracted == ExtractLines(json, lines[..i])
    {
      assert lines[..i + 1][..i] == lines[..i];
      var text := ExtractText(json, lines[i]);
      if text.Some? {
        extracted := AppendTextChunk(extracted, text.value);
      }
    }
    assert lines[..|lines|] == lines;
  }

  /** A chunk is appended whole, and ended by a newline unless it ends in one. */
  lemma AppendedChunk(output: string, chunk: string)
    ensures var all := AppendTextChunk(output, chunk);
            && (all == output + chunk || all == output + chunk + "\n")
            && all[|all| - 1] == '\n'
            && (all == output + chunk <==> chunk != "" && chunk[|chunk| - 1] == '\n')
  {
  }

  lemma ChunkIsWholeLines(output: string, chunk: string)
    ensures var all := AppendTextChunk(output, chunk);
            Rest(all) == "" && all != "" && all[|all| - 1] == '\n'
  {
    AppendedChunk(output, chunk);
    EndsInNewline(AppendTextChunk(output, chunk));
  }

  /** Whatever the lines, the extracted text is whole lines: no message runs into the next. */
  lemma {:induction false} ExtractedIsWholeLines(json: JsonParser, lines: seq<string>)
    ensures Rest(ExtractLines(json, lines)) == ""
    ensures ExtractLines(json, lines) != "" ==>
              ExtractLines(json, lines)[|ExtractLines(json, lines)| - 1] == '\n'
  {
    if lines == [] {
      NoNewlineNoLine("");
    } else {
      var init := lines[..|lines| - 1];
      ExtractedIsWholeLines(json, init);
      var text := ExtractText(json, lines[|lines| - 1]);
      if text.Some? {
        ChunkIsWholeLines(ExtractLines(json, init), text.value);
        assert ExtractLines(json, lines) == AppendTextChunk(ExtractLines(json, init), text.value);
      } else {
        assert ExtractLines(json, lines) == ExtractLines(json, init);
      }
    }
  }

  lemma {:induction false} EndsInNewline(s: string)
    requires s != "" && s[|s| - 1] == '\n'
    ensures Rest(s) == ""
  {
    var init := s[..|s| - 1];
    assert s == init + "\n";
    LinesOfConcat(init, "\n");
    RestHasNoNewline(init);
    assert Rest(init) + "\n" == Rest(init) + "\n" + "";
    CompleteCons(Rest(init), "");
    NoNewlineNoLine("");
  }

  /** Strings, lists of items and objects with a text: the texts in order. */
  lemma ContentTextOfParts(a: seq<Value>, b: seq<Value>)
    ensures ContentText(Array(a + b)).GetOr("") == ContentText(Array(a)).GetOr("") + ContentText(Array(b)).GetOr("")
  {
    ItemTextsConcat(a, b);
  }

  lemma {:induction false} ItemTextsConcat(a: seq<Value>, b: seq<Value>)
    ensures ItemTexts(a + b) == ItemTexts(a) + ItemTexts(b)
  {
    if b == [] {
      assert a + b == a;
    } else {
      var init, last := b[..|b| - 1], ItemText(b[|b| - 1]).GetOr("");
      ItemTextsConcat(a, init);
      ConcatSnoc(a, b);
      Associate(ItemTexts(a), ItemTexts(init), last);
    }
  }

  lemma ContentTextOfOne(text: string)
    ensures ContentText(String(text)) == Some(text)
    ensures ContentText(Object(map["text" := String(text)])) == Some(text)
    ensures ContentText(Array([String(text)])) == (if text == "" then None else Some(text))
    ensures ContentText(Array([Object(map["text" := String(text)])])) == (if text == "" then None else Some(text))
  {
    assert Object(map["text" := String(text)]).Get("text") == Some(String(text));
    OneItem(String(text));
    OneItem(Object(map["text" := String(text)]));
  }

  lemma OneItem(item: Value)
    ensures ItemTexts([item]) == ItemText(item).GetOr("")
  {
    assert [item][..0] == [] && ItemTexts([]) == "";
  }

  // ---- streaming dispatch ----

  datatype State = State(streamedIds: set<string>, completedTurns: u32)

  const NEW_STATE := State({}, 0)

  function Suppressed(id: Option<string>, st: State): bool {
    id.Some? && id.value in st.streamedIds
  }

  function Next(st: State, e: Event): State {
    match e
    case Delta(Some(id), _) => st.(streamedIds := st.streamedIds + {id})
    case TurnEnd => st.(completedTurns := WrapAdd32(st.completedTurns, 1))
    case _ => st
  }

  function SessionOf(st: State, exitCode: Option<int>): SessionResult {
    SessionResult(st.completedTurns, exitCode.GetOr(0) != 0, 0, 0, 0, 0)
  }

  function Decimal(n: int): string {
    if n < 0 then "-" + Digits(-n) else Digits(n)
  }

  function ExitError(exitCode: int): string {
    "Session ended with exit code " + Decimal(exitCode)
  }

  const TOOL_ERROR := "Tool execution failed: "

  function Shown(st: State, e: Event): seq<Callback> {
    match e
    case Delta(_, text) => if text == "" then [] else [OnText(text)]
    case Message(id, content) =>
      if Suppressed(id, st) then [OnText("\n")]
      else if ContentText(content).Some? then [OnText(ContentText(content).value)]
      else []
    case ToolStart(callId, name, args) => [OnToolCall(name, callId, args)]
    case ToolComplete(callId, success, output, error) =>
      [if success then OnToolResult(callId, output.GetOr("")) else OnError(error.GetOr(TOOL_ERROR + callId))]
    case Result(exitCode) =>
      (if exitCode.GetOr(0) != 0 then [OnError(ExitError(exitCode.GetOr(0)))] else []) + [OnComplete(SessionOf(st, exitCode))]
    case _ => []
  }

  function Extracted(text: string, e: Event): string {
    match e
    case Message(_, content) =>
      if ContentText(content).Some? then AppendTextChunk(text, ContentText(content).value) else text
    case _ => text
  }

  class CopilotStream {
    var streamedMessageIds: set<string>
    var completedTurns: u32
    var extractedText: string

    ghost function Abs(): State
      reads this
    {
      State(streamedMessageIds, completedTurns)
    }

    constructor ()
      ensures Abs() == NEW_STATE && extractedText == ""
    {
      streamedMessageIds, completedTurns, extractedText := {}, 0, "";
    }

    method OnMessage(id: Option<string>, content: Value, handler: Recorder)
      modifies this, handler
      ensures Abs() == old(Abs()) && extractedText == Extracted(old(extractedText), Message(id, content))
      ensures handler.log == old(handler.log) + Shown(old(Abs()), Message(id, content))
    {
      var text := ExtractContentText(content);
      if id.Some? && id.value in streamedMessageIds {
        handler.Tell(OnText("\n"));
      } else if text.Some? {
        handler.Tell(OnText(text.value));
      }
      if text.Some? {
        extractedText := AppendTextChunk(extractedText, text.value);
      }
    }

    method OnEvent(e: Event, handler: Recorder) returns (completion: Option<SessionResult>)
      modifies this, handler
      ensures Abs() == Next(old(Abs()), e) && extractedText == Extracted(old(extractedText), e)
      ensures handler.log == old(handler.log) + Shown(old(Abs()), e)
      ensures completion == if e.Result? then Some(SessionOf(old(Abs()), e.exitCode)) else None
    {
      completion := None;
      match e
      case Delta(id, text) =>
        if id.Some? {
          streamedMessageIds := streamedMessageIds + {id.value};
        }
        if text != "" {
          handler.Tell(OnText(text));
        }
      case Message(id, content) => OnMessage(id, content, handler);
      case TurnEnd => completedTurns := WrapAdd32(completedTurns, 1);
      case ToolStart(callId, name, args) => handler.Tell(OnToolCall(name, callId, args));
      case ToolComplete(callId, success, output, error) =>
        if success {
          handler.Tell(OnToolResult(callId, output.GetOr("")));
        } else {
          handler.Tell(OnError(error.GetOr(TOOL_ERROR + callId)));
        }
      case Result(exitCode) =>
        var result := SessionResult(completedTurns, exitCode.GetOr(0) != 0, 0, 0, 0, 0);
        if result.isError {
          handler.Tell(OnError(ExitError(exitCode.GetOr(0))));
        }
        handler.Tell(OnComplete(result));
        completion := Some(result);
      case Ignored =>
    }
  }

  // ---- streaming and batch extraction agree ----

  /** Everything a stream has come to: the state, the extracted text, and what the handler was told. */
  datatype Progress = Progress(state: State, text: string, log: seq<Callback>)

  const NEW_PROGRESS := Progress(NEW_STATE, "", [])

  function HandleLine(json: JsonParser, p: Progress, line: string): Progress {
    match ParseLine(json, line)
    case Some(e) => Progress(Next(p.state, e), Extracted(p.text, e), p.log + Shown(p.state, e))
    case None => p
  }

  function HandleLines(json: JsonParser, p: Progress, lines: seq<string>): Progress {
    if lines == [] then p
    else HandleLine(json, HandleLines(json, p, lines[..|lines| - 1]), lines[|lines| - 1])
  }

  /** Handling a line live adds to the text what batch extraction adds for it. */
  lemma {:induction false} StreamedIsExtracted(json: JsonParser, lines: seq<string>)
    ensures HandleLines(json, NEW_PROGRESS, lines).text == ExtractLines(json, lines)
  {
    if lines != [] {
      StreamedIsExtracted(json, lines[..|lines| - 1]);
    }
  }

  lemma {:induction false} HandleConcat(json: JsonParser, p: Progress, a: seq<string>, b: seq<string>)
    ensures HandleLines(json, p, a + b) == HandleLines(json, HandleLines(json, p, a), b)
  {
    if b == [] {
      assert a + b == a;
    } else {
      HandleConcat(json, p, a, b[..|b| - 1]);
      ConcatSnoc(a, b);
    }
  }

  lemma HandleFirst(json: JsonParser, p: Progress, line: string, more: seq<string>)
    ensures HandleLines(json, p, [line] + more) == HandleLines(json, HandleLine(json, p, line), more)
  {
    HandleConcat(json, p, [line], more);
    assert [line][..0] == [];
    assert HandleLines(json, p, [line]) == HandleLine(json, p, line);
  }

  lemma {:induction false} ExtractUpToTrimming(json: JsonParser, a: seq<string>, b: seq<string>)
    requires SameTrimmed(a, b)
    ensures ExtractLines(json, a) == ExtractLines(json, b)
  {
    if a != [] {
      ExtractUpToTrimming(json, a[..|a| - 1], b[..|b| - 1]);
    }
  }

  /**
   Whatever the events and however the terminal chunked them, the text
   accumulated live is what extraction from the whole raw output yields.
   */
  lemma LiveTextIsBatchText(json: JsonParser, chunks: seq<Bytes>)
    ensures HandleLines(json, NEW_PROGRESS, PtyLines(chunks)).text == ExtractLines(json, Lines(TextOf(chunks)))
    ensures (forall c :: c in chunks ==> Utf8.Valid(c)) ==>
              HandleLines(json, NEW_PROGRESS, PtyLines(chunks)).text
                == ExtractLines(json, Lines(Decode(Joined(chunks))))
  {
    if forall c :: c in chunks ==> Utf8.Valid(c) {
      ValidChunksJoin(chunks);
    }
    StreamedIsExtracted(json, PtyLines(chunks));
    PtyLinesTrimmed(chunks);
    ExtractUpToTrimming(json, PtyLines(chunks), Lines(TextOf(chunks)));
  }

  // ---- each message is shown once ----

  /** What the handler is shown of message `id`: its deltas and its full text. */
  function ShownOf(st: State, events: seq<Event>, id: string): string
    decreases |events|
  {
    if events == [] then ""
    else
      var e := events[0];
      (if (e.Delta? || e.Message?) && e.id == Some(id) then TextShown(Shown(st, e)) else "")
      + ShownOf(Next(st, e), events[1..], id)
  }

  function TextShown(callbacks: seq<Callback>): string {
    if callbacks == [] then ""
    else (if callbacks[0].OnText? then callbacks[0].text else "") + TextShown(callbacks[1..])
  }

  /** The concatenated deltas of message `id`. */
  function DeltasOf(events: seq<Event>, id: string): string {
    if events == [] then ""
    else DeltaOf(events[0], id) + DeltasOf(events[1..], id)
  }

  ghost predicate Streamed(events: seq<Event>, id: string) {
    exists e :: e in events && e.Delta? && e.id == Some(id)
  }

  ghost predicate Silent(events: seq<Event>, id: string) {
    forall e :: e in events && (e.Delta? || e.Message?) ==> e.id != Some(id)
  }

  ghost predicate NoMessage(events: seq<Event>, id: string) {
    forall e :: e in events && e.Message? ==> e.id != Some(id)
  }

  function After(st: State, events: seq<Event>): State
    decreases |events|
  {
    if events == [] then st else After(Next(st, events[0]), events[1..])
  }

  lemma {:induction false} StreamedIdsOf(st: State, events: seq<Event>, id: string)
    ensures id in After(st, events).streamedIds <==> id in st.streamedIds || Streamed(events, id)
    decreases |events|
  {
    if events != [] {
      StreamedIdsOf(Next(st, events[0]), events[1..], id);
      assert forall e :: e in events <==> e == events[0] || e in events[1..];
    }
  }

  lemma {:induction false} ShownBeforeMessage(st: State, before: seq<Event>, rest: seq<Event>, id: string)
    requires NoMessage(before, id)
    ensures ShownOf(st, before + rest, id) == DeltasOf(before, id) + ShownOf(After(st, before), rest, id)
    decreases |before|
  {
    if before == [] {
      assert before + rest == rest;
    } else {
      var e, more := before[0], before[1..];
      assert (before + rest)[1..] == more + rest;
      assert forall x :: x in more ==> x in before;
      ShownBeforeMessage(Next(st, e), more, rest, id);
      DeltaShownAlone(st, e, id);
      Associate(DeltaOf(e, id), DeltasOf(more, id), ShownOf(After(st, before), rest, id));
    }
  }

  function DeltaOf(e: Event, id: string): string {
    if e.Delta? && e.id == Some(id) then e.text else ""
  }

  lemma DeltaShownAlone(st: State, e: Event, id: string)
    requires e.Message? ==> e.id != Some(id)
    ensures (if (e.Delta? || e.Message?) && e.id == Some(id) then TextShown(Shown(st, e)) else "") == DeltaOf(e, id)
  {
    ShownAlone(st, e);
  }

  lemma ShownAlone(st: State, e: Event)
    ensures e.Delta? ==> TextShown(Shown(st, e)) == e.text
    ensures e.Message? && Suppressed(e.id, st) ==> TextShown(Shown(st, e)) == "\n"
    ensures e.Message? && !Suppressed(e.id, st) ==> TextShown(Shown(st, e)) == ContentText(e.content).GetOr("")
  {
    var one := Shown(st, e);
    if one != [] && (e.Delta? || e.Message?) {
      assert one[1..] == [];
    }
  }

  lemma {:induction false} ShownWhenSilent(st: State, events: seq<Event>, id: string)
    requires Silent(events, id)
    ensures ShownOf(st, events, id) == ""
    decreases |events|
  {
    if events != [] {
      assert forall e :: e in events[1..] ==> e in events;
      ShownWhenSilent(Next(st, events[0]), events[1..], id);
    }
  }

  /**
   One full message and its deltas in any run: the handler shows the deltas
   and a newline, or the content when nothing was streamed.
   */
  lemma ShownOfMessage(before: seq<Event>, id: string, content: Value, after: seq<Event>)
    requires NoMessage(before, id) && Silent(after, id)
    ensures ShownOf(NEW_STATE, before + [Message(Some(id), content)] + after, id)
         == if Streamed(before, id) then DeltasOf(before, id) + "\n" else ContentText(content).GetOr("")
  {
    var message := Message(Some(id), content);
    var rest := [message] + after;
    assert before + [message] + after == before + rest;
    ShownBeforeMessage(NEW_STATE, before, rest, id);
    StreamedIdsOf(NEW_STATE, before, id);
    ShownAlone(After(NEW_STATE, before), message);
    assert rest[1..] == after;
    ShownWhenSilent(Next(After(NEW_STATE, before), message), after, id);
    if !Streamed(before, id) {
      NoDeltas(before, id);
    }
  }

  lemma {:induction false} NoDeltas(events: seq<Event>, id: string)
    requires !Streamed(events, id)
    ensures DeltasOf(events, id) == ""
  {
    if events != [] {
      assert forall e :: e in events[1..] ==> e in events;
      NoDeltas(events[1..], id);
    }
  }

  /** A streamed message is shown exactly once, ended by a newline, iff its deltas add up to it. */
  lemma ShownOnceIffDeltasAddUp(before: seq<Event>, id: string, content: string, after: seq<Event>)
    requires NoMessage(before, id) && Silent(after, id) && Streamed(before, id)
    ensures ShownOf(NEW_STATE, before + [Message(Some(id), String(content))] + after, id) == content + "\n"
       <==> DeltasOf(before, id) == content
  {
    ShownOfMessage(before, id, String(content), after);
    var deltas := DeltasOf(before, id);
    if deltas + "\n" == content + "\n" {
      assert (deltas + "\n")[..|deltas|] == (content + "\n")[..|content|];
    }
  }
}
