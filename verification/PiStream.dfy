/**
 The two executors that drive the Pi-family processor: the PTY loop, which is
 handed chunks of bytes, and the CLI loop, which merges two streams of lines.
 */
module PiStream {
  import opened Wrappers
  import opened Sequences
  import opened Words
  import opened Utf8
  import opened TextLines
  import opened LineStream
  import opened Handler
  import opened PiFamily

  class PiFamilySession {
    var numTurns: u32
    var provider: Option<string>
    var model: Option<string>
    var inputTokens: u64
    var peakInputTokens: u64
    var outputTokens: u64
    var cacheReadTokens: u64
    var cacheWriteTokens: u64
    var extractedText: string
    var streamError: bool
    var recognizedEvents: u32
    var malformedLines: u32
    var lastStopReason: Option<string>
    var lastTurnContent: Option<seq<ContentBlock>>

    ghost function Abs(): Session
      reads this
    {
      Session(numTurns, provider, model, inputTokens, peakInputTokens, outputTokens, cacheReadTokens,
              cacheWriteTokens, extractedText, streamError, recognizedEvents, malformedLines,
              lastStopReason, lastTurnContent)
    }

    constructor ()
      ensures Abs() == NEW_SESSION
    {
      numTurns, recognizedEvents, malformedLines := 0, 0, 0;
      provider, model, lastStopReason, lastTurnContent := None, None, None, None;
      inputTokens, peakInputTokens, outputTokens := 0, 0, 0;
      cacheReadTokens, cacheWriteTokens := 0, 0;
      extractedText, streamError := "", false;
    }

    method OnTurnEnd(message: Option<TurnMessage>)
      modifies this
      ensures Abs() == EndTurn(old(Abs()), message)
    {
      numTurns := WrapAdd32(numTurns, 1);
      if message.None? { return; }
      var m := message.value;
      lastStopReason := m.stopReason;
      lastTurnContent := m.content;
      if m.provider.Some? && m.provider.value != "" {
        provider := m.provider;
      }
      if m.model.Some? && m.model.value != "" {
        model := m.model;
      }
      if m.usage.Some? {
        CountUsage(m.usage.value);
      }
    }

    method CountUsage(u: Usage)
      modifies this
      ensures Abs() == AddUsage(old(Abs()), u)
    {
      inputTokens := WrapAdd64(inputTokens, u.input);
      peakInputTokens := Max64(peakInputTokens, WrapAdd64(u.input, u.cacheRead));
      outputTokens := WrapAdd64(outputTokens, u.output);
      cacheReadTokens := WrapAdd64(cacheReadTokens, u.cacheRead);
      cacheWriteTokens := WrapAdd64(cacheWriteTokens, u.cacheWrite);
    }

    method OnEvent(e: Event, handler: Recorder, verbose: bool)
      modifies this, handler
      ensures Abs() == Dispatch(old(Abs()), e)
      ensures handler.log == old(handler.log) + Shown(e, verbose)
    {
      match e
      case MessageUpdate(TextDelta(delta)) =>
        handler.Tell(OnText(delta));
        extractedText := extractedText + delta;
      case MessageUpdate(ThinkingDelta(delta)) =>
        if verbose {
          handler.Tell(OnText(delta));
        }
      case MessageUpdate(AssistantError(reason)) =>
        streamError := true;
        handler.Tell(OnError(reason));
      case ToolStart(name, id, args) =>
        handler.Tell(OnToolCall(name, id, args));
      case ToolEnd(id, content, isError) =>
        var output := Join(Texts(content), "\n");
        if isError {
          handler.Tell(OnError(output));
        } else {
          handler.Tell(OnToolResult(id, output));
        }
      case TurnEnd(message) => OnTurnEnd(message);
      case _ =>
    }

    method OnLine(parse: Parser, line: string, handler: Recorder, verbose: bool)
      modifies this, handler
      ensures Abs() == ProcessLine(old(Abs()), parse, line)
      ensures handler.log == old(handler.log) + ShownLine(parse, line, verbose)
    {
      if IsBlank(line) { return; }
      match parse(Trim(line))
      case Some(e) =>
        if !e.Other? {
          recognizedEvents := WrapAdd32(recognizedEvents, 1);
        }
        OnEvent(e, handler, verbose);
      case None => malformedLines := WrapAdd32(malformedLines, 1);
    }

    method Close(processSuccess: bool) returns (summary: Summary)
      modifies this
      ensures (Abs(), summary) == Finalize(old(Abs()), processSuccess)
    {
      if IsBlank(extractedText) && lastTurnContent.Some? {
        extractedText := Join(Texts(lastTurnContent.value), "");
      }
      var hasText := !IsBlank(extractedText);
      var isToolOnlyTurn := lastStopReason == Some("tool_use");
      var protocolError := None;
      if processSuccess && recognizedEvents == 0 {
        protocolError := Some(NoUsableEvents);
      } else if processSuccess && !hasText && !isToolOnlyTurn {
        protocolError := Some(NoAssistantText);
      }
      var isError := !processSuccess || streamError || protocolError.Some?;
      var result := SessionResult(numTurns, isError, peakInputTokens, outputTokens,
                                  cacheReadTokens, cacheWriteTokens);
      summary := Summary(extractedText, result, protocolError);
    }
  }

  // ---- the PTY loop ----

  class PtyPiStream {
    const session: PiFamilySession
    const handler: Recorder
    const parse: Parser
    const showThinking: bool
    var lineBuffer: string
    ghost var chunks: seq<Bytes>

    ghost predicate Valid()
      reads this, session, handler
    {
      && session.Abs() == ProcessLines(NEW_SESSION, parse, Fed(chunks).0)
      && handler.log == ShownLines(parse, Fed(chunks).0, showThinking)
      && lineBuffer == Fed(chunks).1
    }

    constructor (parse: Parser, showThinking: bool)
      ensures Valid() && chunks == [] && this.parse == parse && this.showThinking == showThinking
      ensures fresh(session) && fresh(handler)
    {
      session := new PiFamilySession();
      handler := new Recorder();
      this.parse, this.showThinking := parse, showThinking;
      lineBuffer, chunks := "", [];
    }

    /** A read from the terminal: complete lines go to the processor at once. */
    method OnData(data: Bytes)
      requires Valid()
      modifies this, session, handler
      ensures Valid() && chunks == old(chunks) + [data]
    {
      if Utf8.Valid(data) {
        FedMore(chunks, data);
        lineBuffer := lineBuffer + Decode(data);
        HandledMore(parse, Fed(chunks).0, Complete(lineBuffer), showThinking);
        TakeLines();
      } else {
        SkippedChunk(chunks, data);
      }
      chunks := chunks + [data];
    }

    /** Processes every complete line of the buffer. */
    method TakeLines()
      modifies this`lineBuffer, session, handler
      ensures session.Abs() == ProcessLines(old(session.Abs()), parse, Complete(old(lineBuffer)))
      ensures handler.log == old(handler.log) + ShownLines(parse, Complete(old(lineBuffer)), showThinking)
      ensures lineBuffer == Rest(old(lineBuffer))
    {
      ghost var text := lineBuffer;
      while '\n' in lineBuffer
        invariant ProcessLines(session.Abs(), parse, Complete(lineBuffer))
                  == ProcessLines(old(session.Abs()), parse, Complete(text))
        invariant handler.log + ShownLines(parse, Complete(lineBuffer), showThinking)
                  == old(handler.log) + ShownLines(parse, Complete(text), showThinking)
        invariant Rest(lineBuffer) == Rest(text)
        decreases |lineBuffer|
      {
        var newline := FirstNewline(lineBuffer);
        var line := lineBuffer[..newline];
        TakeLine(lineBuffer);
        ProcessFirst(session.Abs(), parse, line, Complete(lineBuffer[newline + 1..]));
        ShownFirst(parse, handler.log, line, Complete(lineBuffer[newline + 1..]), showThinking);
        lineBuffer := lineBuffer[newline + 1..];
        session.OnLine(parse, line, handler, showThinking);
      }
      NoNewlineNoLine(lineBuffer);
    }

    /** End of the stream: what is left without a newline is a line too. */
    method OnEof()
      requires Valid()
      modifies this, session, handler
      ensures session.Abs() == ProcessLines(NEW_SESSION, parse, PtyLines(old(chunks)))
      ensures handler.log == ShownLines(parse, PtyLines(old(chunks)), showThinking)
    {
      ProcessConcat(NEW_SESSION, parse, Fed(chunks).0, LastLine(lineBuffer));
      ShownConcat(parse, Fed(chunks).0, LastLine(lineBuffer), showThinking);
      if lineBuffer != "" {
        ProcessFirst(session.Abs(), parse, lineBuffer, []);
        ShownFirst(parse, [], lineBuffer, [], showThinking);
        assert [lineBuffer] + [] == [lineBuffer];
        session.OnLine(parse, lineBuffer, handler, showThinking);
      }
    }
  }

  /** Lines handled after other lines, by the session and for the handler. */
  lemma HandledMore(parse: Parser, lines: seq<string>, more: seq<string>, verbose: bool)
    ensures ProcessLines(ProcessLines(NEW_SESSION, parse, lines), parse, more)
         == ProcessLines(NEW_SESSION, parse, lines + more)
    ensures ShownLines(parse, lines, verbose) + ShownLines(parse, more, verbose)
         == ShownLines(parse, lines + more, verbose)
  {
    ProcessConcat(NEW_SESSION, parse, lines, more);
    ShownConcat(parse, lines, more, verbose);
  }

  lemma ProcessFirst(st: Session, parse: Parser, line: string, more: seq<string>)
    ensures ProcessLines(st, parse, [line] + more) == ProcessLines(ProcessLine(st, parse, line), parse, more)
  {
    ProcessConcat(st, parse, [line], more);
    assert [line][..0] == [];
    assert ProcessLines(st, parse, [line]) == ProcessLine(st, parse, line);
  }

  // ---- the CLI loop ----

  datatype StreamEvent = StdoutLine(line: string) | StderrLine(line: string) | StdoutEof | StderrEof

  function StdoutLines(events: seq<StreamEvent>): seq<string> {
    if events == [] then []
    else
      var last := events[|events| - 1];
      StdoutLines(events[..|events| - 1]) + if last.StdoutLine? then [last.line] else []
  }

  function Accumulated(events: seq<StreamEvent>): string {
    if events == [] then ""
    else
      Accumulated(events[..|events| - 1])
      + match events[|events| - 1]
        case StdoutLine(line) => line + "\n"
        case StderrLine(line) => "[stderr] " + line + "\n"
        case _ => ""
  }

  /** Each reader sends its lines and then at most one end mark. */
  ghost predicate EndsMarked(events: seq<StreamEvent>) {
    forall i, j :: 0 <= i < j < |events| ==>
      (events[i].StdoutEof? ==> !events[j].StdoutLine?) && (events[i].StderrEof? ==> !events[j].StderrLine?)
  }

  /** The session, what the handler was told, and the raw output. */
  datatype Merge = Merge(session: Session, log: seq<Callback>, output: string)

  /** What the first `n` events come to. */
  ghost predicate Merged(parse: Parser, events: seq<StreamEvent>, n: nat, verbose: bool, log: seq<Callback>, m: Merge)
    requires n <= |events|
  {
    && m.session == ProcessLines(NEW_SESSION, parse, StdoutLines(events[..n]))
    && m.log == log + ShownLines(parse, StdoutLines(events[..n]), verbose)
    && m.output == Accumulated(events[..n])
  }

  /** One event more. */
  function MergeEvent(parse: Parser, m: Merge, e: StreamEvent, verbose: bool): Merge {
    match e
    case StdoutLine(line) =>
      Merge(ProcessLine(m.session, parse, line), m.log + ShownLine(parse, line, verbose), m.output + line + "\n")
    case StderrLine(line) => m.(output := m.output + "[stderr] " + line + "\n")
    case _ => m
  }

  lemma MergesNext(parse: Parser, events: seq<StreamEvent>, n: nat, verbose: bool, log: seq<Callback>, m: Merge)
    requires n < |events| && Merged(parse, events, n, verbose, log, m)
    ensures Merged(parse, events, n + 1, verbose, log, MergeEvent(parse, m, events[n], verbose))
  {
    OneMoreEvent(events, n);
    if events[n].StdoutLine? {
      StdoutGrows(parse, StdoutLines(events[..n]), events[n].line);
      ShownGrows(parse, log, StdoutLines(events[..n]), events[n].line, verbose);
    }
  }

  lemma OneMoreEvent(events: seq<StreamEvent>, n: nat)
    requires n < |events|
    ensures StdoutLines(events[..n + 1])
         == if events[n].StdoutLine? then StdoutLines(events[..n]) + [events[n].line] else StdoutLines(events[..n])
    ensures Accumulated(events[..n + 1])
         == match events[n]
            case StdoutLine(line) => Accumulated(events[..n]) + line + "\n"
            case StderrLine(line) => Accumulated(events[..n]) + "[stderr] " + line + "\n"
            case _ => Accumulated(events[..n])
  {
    var more := events[..n + 1];
    assert more[..|more| - 1] == events[..n] && more[|more| - 1] == events[n];
    assert StdoutLines(events[..n]) + [] == StdoutLines(events[..n]);
    var before := Accumulated(events[..n]);
    match events[n]
    case StdoutLine(line) => assert before + (line + "\n") == before + line + "\n";
    case StderrLine(line) => assert before + ("[stderr] " + line + "\n") == before + "[stderr] " + line + "\n";
    case _ => assert before + "" == before;
  }

  /** Once both readers have ended, what was merged is all there is. */
  lemma {:induction false} NothingAfterTheEnds(parse: Parser, events: seq<StreamEvent>, i: nat, j: nat, n: nat,
                                               verbose: bool, log: seq<Callback>, m: Merge)
    requires EndsMarked(events) && i < n && j < n && n <= |events|
    requires events[i].StdoutEof? && events[j].StderrEof? && Merged(parse, events, n, verbose, log, m)
    ensures Merged(parse, events, |events|, verbose, log, m)
    decreases |events| - n
  {
    if n < |events| {
      MergesNext(parse, events, n, verbose, log, m);
      NothingAfterTheEnds(parse, events, i, j, n + 1, verbose, log, m);
    }
  }

  /** A line of either stream; the ends of the streams print nothing. */
  method OnLineEvent(parse: Parser, e: StreamEvent, session: PiFamilySession, handler: Recorder,
                     verbose: bool, printed: string) returns (output: string)
    modifies session, handler
    ensures Merge(session.Abs(), handler.log, output)
         == MergeEvent(parse, old(Merge(session.Abs(), handler.log, printed)), e, verbose)
  {
    output := printed;
    match e
    case StdoutLine(line) =>
      session.OnLine(parse, line, handler, verbose);
      output := output + line + "\n";
    case StderrLine(line) =>
      output := output + "[stderr] " + line + "\n";
    case _ =>
  }

  /**
   The merge of the two streams: however the lines interleave, the session
   sees the standard output lines in order, and the raw output keeps all.
   */
  method CliLoop(parse: Parser, events: seq<StreamEvent>, session: PiFamilySession, handler: Recorder,
                 verbose: bool) returns (output: string)
    requires EndsMarked(events) && session.Abs() == NEW_SESSION
    modifies session, handler
    ensures session.Abs() == ProcessLines(NEW_SESSION, parse, StdoutLines(events))
    ensures handler.log == old(handler.log) + ShownLines(parse, StdoutLines(events), verbose)
    ensures output == Accumulated(events)
  {
    output := "";
    var stdoutDone, stderrDone := false, false;
    var next := 0;
    ghost var stdoutEnd, stderrEnd := 0, 0;
    while !stdoutDone || !stderrDone
      invariant next <= |events|
      invariant Merged(parse, events, next, verbose, old(handler.log), Merge(session.Abs(), handler.log, output))
      invariant stdoutDone && next < |events| ==> stdoutEnd < next && events[stdoutEnd].StdoutEof?
      invariant stderrDone && next < |events| ==> stderrEnd < next && events[stderrEnd].StderrEof?
      decreases |events| - next, !stdoutDone, !stderrDone
    {
      if next == |events| {
        stdoutDone, stderrDone := true, true;
      } else {
        MergesNext(parse, events, next, verbose, old(handler.log), Merge(session.Abs(), handler.log, output));
        output := OnLineEvent(parse, events[next], session, handler, verbose, output);
        if events[next].StdoutEof? {
          stdoutDone, stdoutEnd := true, next;
        } else if events[next].StderrEof? {
          stderrDone, stderrEnd := true, next;
        }
        next := next + 1;
      }
    }
    if next < |events| {
      NothingAfterTheEnds(parse, events, stdoutEnd, stderrEnd, next, verbose, old(handler.log),
                          Merge(session.Abs(), handler.log, output));
    }
    assert events[..|events|] == events;
  }

  lemma ShownGrows(parse: Parser, log: seq<Callback>, lines: seq<string>, line: string, verbose: bool)
    ensures log + ShownLines(parse, lines + [line], verbose)
         == log + ShownLines(parse, lines, verbose) + ShownLine(parse, line, verbose)
  {
    assert (lines + [line])[..|lines|] == lines;
    Associate(log, ShownLines(parse, lines, verbose), ShownLine(parse, line, verbose));
  }

  /** The lines of the raw output: every line in the order it came, those of standard error marked. */
  function PrintedLines(events: seq<StreamEvent>): seq<string> {
    if events == [] then []
    else
      PrintedLines(events[..|events| - 1])
      + match events[|events| - 1]
        case StdoutLine(line) => [line]
        case StderrLine(line) => ["[stderr] " + line]
        case _ => []
  }

  /** The raw output is made of those lines and nothing else. */
  lemma {:induction false} OutputHoldsTheLines(events: seq<StreamEvent>)
    requires forall e :: e in events && (e.StdoutLine? || e.StderrLine?) ==> '\n' !in e.line
    ensures Complete(Accumulated(events)) == PrintedLines(events) && Rest(Accumulated(events)) == ""
  {
    if events == [] {
      NoNewlineNoLine("");
    } else {
      var init, last := events[..|events| - 1], events[|events| - 1];
      OutputHoldsTheLines(init);
      match last
      case StdoutLine(line) => LineAppended(Accumulated(init), line);
      case StderrLine(line) => LineAppended(Accumulated(init), "[stderr] " + line);
      case _ => assert Accumulated(init) + "" == Accumulated(init) && PrintedLines(init) + [] == PrintedLines(init);
    }
  }

  lemma LineAppended(text: string, line: string)
    requires Rest(text) == "" && '\n' !in line
    ensures Complete(text + (line + "\n")) == Complete(text) + [line] && Rest(text + (line + "\n")) == ""
  {
    LinesOfConcat(text, line + "\n");
    assert Rest(text) + (line + "\n") == line + "\n" + "";
    CompleteCons(line, "");
    NoNewlineNoLine("");
  }

  lemma StdoutGrows(parse: Parser, lines: seq<string>, line: string)
    ensures ProcessLines(NEW_SESSION, parse, lines + [line])
         == ProcessLine(ProcessLines(NEW_SESSION, parse, lines), parse, line)
  {
    assert (lines + [line])[..|lines|] == lines;
  }

  // ---- both executors agree ----

  /** What the CLI makes of the bytes of one stream; nothing when they are not text. */
  function CliRun(parse: Parser, bytes: Bytes): Option<Session> {
    match CliLines(bytes)
    case Some(lines) => Some(ProcessLines(NEW_SESSION, parse, lines))
    case None => None
  }

  /** What the PTY loop makes of the chunks it is handed. */
  function PtyRun(parse: Parser, chunks: seq<Bytes>): Session {
    ProcessLines(NEW_SESSION, parse, PtyLines(chunks))
  }

  /**
   On the same bytes both executors end with the same state, hence with the
   same text, counts and verdict, however the terminal chunked them, as long
   as every chunk is text on its own.
   */
  lemma PtyEqualsCli(parse: Parser, chunks: seq<Bytes>, processSuccess: bool)
    requires forall c :: c in chunks ==> Utf8.Valid(c)
    ensures CliRun(parse, Joined(chunks)) == Some(PtyRun(parse, chunks))
    ensures Finalize(CliRun(parse, Joined(chunks)).value, processSuccess)
         == Finalize(PtyRun(parse, chunks), processSuccess)
  {
    PtyAndCliReadAlike(chunks);
    TrimmedLinesSuffice(NEW_SESSION, parse, PtyLines(chunks), CliLines(Joined(chunks)).value);
  }

  /** In general the PTY run is the CLI's on the text that survived chunking. */
  lemma PtyRunIsLinesOfSurvivingText(parse: Parser, chunks: seq<Bytes>)
    ensures PtyRun(parse, chunks) == ProcessLines(NEW_SESSION, parse, Lines(TextOf(chunks)))
  {
    PtyLinesTrimmed(chunks);
    TrimmedLinesSuffice(NEW_SESSION, parse, PtyLines(chunks), Lines(TextOf(chunks)));
  }
}
