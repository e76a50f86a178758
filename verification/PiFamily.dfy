/**
 The shared processor of Pi-family streams: one state folded over lines of
 newline-delimited JSON and finalized once.  The JSON parser is a parameter.
 */
module PiFamily {
  import opened Sequences
  import opened Wrappers
  import opened Words
  import opened TextLines
  import opened Handler
  import Json

  // ---- events ----

  datatype ContentBlock = Text(text: string) | OtherBlock

  datatype Usage = Usage(input: u64, output: u64, cacheRead: u64, cacheWrite: u64)

  datatype TurnMessage = TurnMessage(
    stopReason: Option<string>,
    provider: Option<string>,
    model: Option<string>,
    usage: Option<Usage>,
    content: Option<seq<ContentBlock>>)

  datatype AssistantEvent =
    | TextDelta(delta: string)
    | ThinkingDelta(delta: string)
    | AssistantError(reason: string)
    | OtherAssistant

  datatype Event =
    | MessageUpdate(assistant: AssistantEvent)
    | ToolStart(name: string, id: string, args: Json.Value)
    | ToolEnd(id: string, content: seq<ContentBlock>, isError: bool)
    | TurnEnd(message: Option<TurnMessage>)
    | Other

  type Parser = string -> Option<Event>

  // ---- the state ----

  datatype Session = Session(
    numTurns: u32,
    provider: Option<string>,
    model: Option<string>,
    inputTokens: u64,
    peakInputTokens: u64,
    outputTokens: u64,
    cacheReadTokens: u64,
    cacheWriteTokens: u64,
    extractedText: string,
    streamError: bool,
    recognizedEvents: u32,
    malformedLines: u32,
    lastStopReason: Option<string>,
    lastTurnContent: Option<seq<ContentBlock>>)

  const NEW_SESSION := Session(0, None, None, 0, 0, 0, 0, 0, "", false, 0, 0, None, None)

  function NonEmpty(s: Option<string>): bool {
    s.Some? && s.value != ""
  }

  function AddUsage(st: Session, u: Usage): Session {
    st.(inputTokens := WrapAdd64(st.inputTokens, u.input),
        peakInputTokens := Max64(st.peakInputTokens, WrapAdd64(u.input, u.cacheRead)),
        outputTokens := WrapAdd64(st.outputTokens, u.output),
        cacheReadTokens := WrapAdd64(st.cacheReadTokens, u.cacheRead),
        cacheWriteTokens := WrapAdd64(st.cacheWriteTokens, u.cacheWrite))
  }

  function EndTurn(st: Session, message: Option<TurnMessage>): Session {
    var st := st.(numTurns := WrapAdd32(st.numTurns, 1));
    match message
    case None => st
    case Some(m) =>
      var st := st.(lastStopReason := m.stopReason, lastTurnContent := m.content,
                    provider := if NonEmpty(m.provider) then m.provider else st.provider,
                    model := if NonEmpty(m.model) then m.model else st.model);
      if m.usage.Some? then AddUsage(st, m.usage.value) else st
  }

  function Dispatch(st: Session, e: Event): Session {
    match e
    case MessageUpdate(TextDelta(delta)) => st.(extractedText := st.extractedText + delta)
    case MessageUpdate(AssistantError(_)) => st.(streamError := true)
    case TurnEnd(message) => EndTurn(st, message)
    case _ => st
  }

  function ProcessLine(st: Session, parse: Parser, line: string): Session {
    if IsBlank(line) then st
    else
      match parse(Trim(line))
      case None => st.(malformedLines := WrapAdd32(st.malformedLines, 1))
      case Some(Other) => st
      case Some(e) => Dispatch(st.(recognizedEvents := WrapAdd32(st.recognizedEvents, 1)), e)
  }

  function ProcessLines(st: Session, parse: Parser, lines: seq<string>): Session {
    if lines == [] then st
    else ProcessLine(ProcessLines(st, parse, lines[..|lines| - 1]), parse, lines[|lines| - 1])
  }

  function Texts(blocks: seq<ContentBlock>): seq<string> {
    if blocks == [] then []
    else (if blocks[0].Text? then [blocks[0].text] else []) + Texts(blocks[1..])
  }

  function Join(parts: seq<string>, separator: string): string {
    if parts == [] then ""
    else if |parts| == 1 then parts[0]
    else parts[0] + separator + Join(parts[1..], separator)
  }

  /** What the handler is told; only thinking depends on `verbose`. */
  function Shown(e: Event, verbose: bool): seq<Callback> {
    match e
    case MessageUpdate(TextDelta(delta)) => [OnText(delta)]
    case MessageUpdate(ThinkingDelta(delta)) => if verbose then [OnText(delta)] else []
    case MessageUpdate(AssistantError(reason)) => [OnError(reason)]
    case ToolStart(name, id, args) => [OnToolCall(name, id, args)]
    case ToolEnd(id, content, isError) =>
      var output := Join(Texts(content), "\n");
      [if isError then OnError(output) else OnToolResult(id, output)]
    case _ => []
  }

  function ShownLine(parse: Parser, line: string, verbose: bool): seq<Callback> {
    if IsBlank(line) || parse(Trim(line)).None? then [] else Shown(parse(Trim(line)).value, verbose)
  }

  // ---- finalization ----

  datatype Mismatch = NoUsableEvents | NoAssistantText

  datatype Summary = Summary(text: string, result: SessionResult, protocolError: Option<Mismatch>)

  function Recover(st: Session): Session {
    if IsBlank(st.extractedText) && st.lastTurnContent.Some?
    then st.(extractedText := Join(Texts(st.lastTurnContent.value), ""))
    else st
  }

  function Verdict(st: Session, processSuccess: bool): Option<Mismatch> {
    if processSuccess && st.recognizedEvents == 0 then Some(NoUsableEvents)
    else if processSuccess && IsBlank(st.extractedText) && st.lastStopReason != Some("tool_use")
    then Some(NoAssistantText)
    else None
  }

  function Finalize(st: Session, processSuccess: bool): (Session, Summary) {
    var st := Recover(st);
    var mismatch := Verdict(st, processSuccess);
    (st, Summary(st.extractedText,
                 SessionResult(st.numTurns, !processSuccess || st.streamError || mismatch.Some?,
                               st.peakInputTokens, st.outputTokens, st.cacheReadTokens,
                               st.cacheWriteTokens),
                 mismatch))
  }

  /** Finalizing twice changes nothing. */
  lemma FinalizeIsIdempotent(st: Session, processSuccess: bool)
    ensures Finalize(Finalize(st, processSuccess).0, processSuccess) == Finalize(st, processSuccess)
  {
  }

  // ---- what a run accumulates, stated over the whole list of events ----

  /** The event of a line, if the line counts as one. */
  function LineEvent(parse: Parser, line: string): Option<Event> {
    if IsBlank(line) || parse(Trim(line)) == Some(Other) then None else parse(Trim(line))
  }

  /** The events of the lines, without the unrecognized ones. */
  function Events(parse: Parser, lines: seq<string>): seq<Event> {
    if lines == [] then []
    else
      var last := lines[|lines| - 1];
      var e := LineEvent(parse, last);
      Events(parse, lines[..|lines| - 1]) + if e.Some? then [e.value] else []
  }

  function Malformed(parse: Parser, lines: seq<string>): nat {
    if lines == [] then 0
    else
      var last := lines[|lines| - 1];
      Malformed(parse, lines[..|lines| - 1])
      + if !IsBlank(last) && parse(Trim(last)).None? then 1 else 0
  }

  function Sum(f: Event -> nat, events: seq<Event>): nat {
    if events == [] then 0 else Sum(f, events[..|events| - 1]) + f(events[|events| - 1])
  }

  function Peak(f: Event -> u64, events: seq<Event>): u64 {
    if events == [] then 0 else Max64(Peak(f, events[..|events| - 1]), f(events[|events| - 1]))
  }

  function DeltaText(events: seq<Event>): string {
    if events == [] then ""
    else
      DeltaText(events[..|events| - 1])
      + match events[|events| - 1]
        case MessageUpdate(TextDelta(delta)) => delta
        case _ => ""
  }

  /** The message of the last turn that had one. */
  function LastMessage(events: seq<Event>): Option<TurnMessage> {
    if events == [] then None
    else
      match events[|events| - 1]
      case TurnEnd(Some(m)) => Some(m)
      case _ => LastMessage(events[..|events| - 1])
  }

  function ProviderOf(m: TurnMessage): Option<string> { m.provider }
  function ModelOf(m: TurnMessage): Option<string> { m.model }

  /** The last name that a turn message gave and that is not empty. */
  function LastNamed(pick: TurnMessage -> Option<string>, events: seq<Event>): Option<string> {
    if events == [] then None
    else
      match events[|events| - 1]
      case TurnEnd(Some(m)) =>
        if NonEmpty(pick(m)) then pick(m) else LastNamed(pick, events[..|events| - 1])
      case _ => LastNamed(pick, events[..|events| - 1])
  }

  function UsageOf(e: Event): Usage {
    match e
    case TurnEnd(Some(TurnMessage(_, _, _, Some(usage), _))) => usage
    case _ => Usage(0, 0, 0, 0)
  }

  function InputOf(e: Event): nat { UsageOf(e).input }
  function OutputOf(e: Event): nat { UsageOf(e).output }
  function CacheReadOf(e: Event): nat { UsageOf(e).cacheRead }
  function CacheWriteOf(e: Event): nat { UsageOf(e).cacheWrite }
  function FootprintOf(e: Event): u64 { WrapAdd64(UsageOf(e).input, UsageOf(e).cacheRead) }
  function TurnOf(e: Event): nat { if e.TurnEnd? then 1 else 0 }

  ghost predicate TalliesRight(st: Session, events: seq<Event>, malformed: nat) {
    && st.numTurns == Wrap32(Sum(TurnOf, events))
    && st.recognizedEvents == Wrap32(|events|)
    && st.malformedLines == Wrap32(malformed)
  }

  ghost predicate TokensRight(st: Session, events: seq<Event>) {
    && st.inputTokens == Wrap64(Sum(InputOf, events))
    && st.outputTokens == Wrap64(Sum(OutputOf, events))
    && st.cacheReadTokens == Wrap64(Sum(CacheReadOf, events))
    && st.cacheWriteTokens == Wrap64(Sum(CacheWriteOf, events))
    && st.peakInputTokens == Peak(FootprintOf, events)
  }

  /** The counters are the wrapped totals and the peak. */
  ghost predicate CountsRight(st: Session, events: seq<Event>, malformed: nat) {
    TalliesRight(st, events, malformed) && TokensRight(st, events)
  }

  /** Why the last turn that had a message stopped. */
  function StopReason(events: seq<Event>): Option<string> {
    match LastMessage(events)
    case Some(m) => m.stopReason
    case None => None
  }

  /** Text, names, error flag and last turn are those of the event list. */
  ghost predicate TellsRight(st: Session, events: seq<Event>) {
    && st.extractedText == DeltaText(events)
    && st.provider == LastNamed(ProviderOf, events)
    && st.model == LastNamed(ModelOf, events)
    && (st.streamError <==> exists e :: e in events && e.MessageUpdate? && e.assistant.AssistantError?)
    && st.lastStopReason == StopReason(events)
    && st.lastTurnContent == (match LastMessage(events) case Some(m) => m.content case None => None)
  }

  /** The state after an event that was not `Other`. */
  function Recognize(st: Session, e: Event): Session {
    Dispatch(st.(recognizedEvents := WrapAdd32(st.recognizedEvents, 1)), e)
  }

  lemma SumSnoc(f: Event -> nat, events: seq<Event>, e: Event)
    ensures Sum(f, events + [e]) == Sum(f, events) + f(e)
  {
    assert (events + [e])[..|events|] == events;
  }

  lemma PeakSnoc(f: Event -> u64, events: seq<Event>, e: Event)
    ensures Peak(f, events + [e]) == Max64(Peak(f, events), f(e))
  {
    assert (events + [e])[..|events|] == events;
  }

  lemma EventTallies(st: Session, events: seq<Event>, malformed: nat, e: Event)
    requires TalliesRight(st, events, malformed)
    ensures TalliesRight(Recognize(st, e), events + [e], malformed)
  {
    SumSnoc(TurnOf, events, e);
    WrapsTrueSum32(|events|, 1);
    WrapsTrueSum32(Sum(TurnOf, events), TurnOf(e));
  }

  lemma EventTokens(st: Session, events: seq<Event>, e: Event)
    requires TokensRight(st, events)
    ensures TokensRight(Recognize(st, e), events + [e])
  {
    RecognizeCountsUsage(st, e);
    TotalSnoc(InputOf, events, e);
    TotalSnoc(OutputOf, events, e);
    TotalSnoc(CacheReadOf, events, e);
    TotalSnoc(CacheWriteOf, events, e);
    PeakSnoc(FootprintOf, events, e);
  }

  /** Every event counts as its usage; most have none. */
  lemma RecognizeCountsUsage(st: Session, e: Event)
    ensures Recognize(st, e).inputTokens == WrapAdd64(st.inputTokens, UsageOf(e).input)
    ensures Recognize(st, e).outputTokens == WrapAdd64(st.outputTokens, UsageOf(e).output)
    ensures Recognize(st, e).cacheReadTokens == WrapAdd64(st.cacheReadTokens, UsageOf(e).cacheRead)
    ensures Recognize(st, e).cacheWriteTokens == WrapAdd64(st.cacheWriteTokens, UsageOf(e).cacheWrite)
    ensures Recognize(st, e).peakInputTokens == Max64(st.peakInputTokens, FootprintOf(e))
  {
  }

  lemma TotalSnoc(f: Event -> nat, events: seq<Event>, e: Event)
    requires f(e) < TWO_64
    ensures Wrap64(Sum(f, events + [e])) == WrapAdd64(Wrap64(Sum(f, events)), f(e))
  {
    var sum, more: u64 := Sum(f, events), f(e);
    SumSnoc(f, events, e);
    WrapsTrueSum64(sum, more);
  }

  lemma EventTells(st: Session, events: seq<Event>, e: Event)
    requires TellsRight(st, events)
    ensures TellsRight(Recognize(st, e), events + [e])
  {
    OneMoreEvent(events, e);
    NamedSnoc(ProviderOf, events, e);
    NamedSnoc(ModelOf, events, e);
  }

  lemma OneMoreEvent(events: seq<Event>, e: Event)
    ensures DeltaText(events + [e])
         == DeltaText(events) + match e case MessageUpdate(TextDelta(delta)) => delta case _ => ""
    ensures LastMessage(events + [e])
         == match e case TurnEnd(Some(m)) => Some(m) case _ => LastMessage(events)
    ensures forall x :: x in events + [e] <==> x in events || x == e
  {
    assert (events + [e])[..|events|] == events;
  }

  lemma NamedSnoc(pick: TurnMessage -> Option<string>, events: seq<Event>, e: Event)
    ensures LastNamed(pick, events + [e])
         == match e
            case TurnEnd(Some(m)) => if NonEmpty(pick(m)) then pick(m) else LastNamed(pick, events)
            case _ => LastNamed(pick, events)
  {
    assert (events + [e])[..|events|] == events;
  }

  ghost predicate Accounts(st: Session, events: seq<Event>, malformed: nat) {
    CountsRight(st, events, malformed) && TellsRight(st, events)
  }

  lemma LineAccounts(st: Session, parse: Parser, line: string, events: seq<Event>, malformed: nat)
    requires Accounts(st, events, malformed)
    ensures var e := LineEvent(parse, line);
            Accounts(ProcessLine(st, parse, line),
                     events + (if e.Some? then [e.value] else []),
                     malformed + if !IsBlank(line) && parse(Trim(line)).None? then 1 else 0)
  {
    var e := LineEvent(parse, line);
    if e.Some? {
      EventTallies(st, events, malformed, e.value);
      EventTokens(st, events, e.value);
      EventTells(st, events, e.value);
      assert ProcessLine(st, parse, line) == Recognize(st, e.value);
    } else if !IsBlank(line) && parse(Trim(line)).None? {
      MalformedAccounts(st, events, malformed);
      assert events + [] == events;
    } else {
      assert ProcessLine(st, parse, line) == st && events + [] == events;
    }
  }

  lemma MalformedAccounts(st: Session, events: seq<Event>, malformed: nat)
    requires Accounts(st, events, malformed)
    ensures Accounts(st.(malformedLines := WrapAdd32(st.malformedLines, 1)), events, malformed + 1)
  {
    WrapsTrueSum32(malformed, 1);
  }

  /** After any lines the state accounts for exactly the events on them. */
  lemma {:induction false} RunAccounts(parse: Parser, lines: seq<string>)
    ensures Accounts(ProcessLines(NEW_SESSION, parse, lines), Events(parse, lines), Malformed(parse, lines))
  {
    if lines == [] {
      assert Accounts(NEW_SESSION, [], 0);
    } else {
      var init, last := lines[..|lines| - 1], lines[|lines| - 1];
      RunAccounts(parse, init);
      LineAccounts(ProcessLines(NEW_SESSION, parse, init), parse, last,
                   Events(parse, init), Malformed(parse, init));
    }
  }

  /**
   The reported text is the concatenated deltas; only when those are blank,
   and the last turn message has content, its text blocks instead.
   */
  lemma FinalTextOfRun(parse: Parser, lines: seq<string>, processSuccess: bool)
    ensures var events := Events(parse, lines);
            var last := LastMessage(events);
            Finalize(ProcessLines(NEW_SESSION, parse, lines), processSuccess).1.text
              == if IsBlank(DeltaText(events)) && last.Some? && last.value.content.Some?
                 then Join(Texts(last.value.content.value), "")
                 else DeltaText(events)
  {
    RunAccounts(parse, lines);
  }

  lemma {:induction false} PeakBounded(events: seq<Event>)
    ensures Peak(FootprintOf, events) <= Sum(InputOf, events) + Sum(CacheReadOf, events)
  {
    if events != [] {
      PeakBounded(events[..|events| - 1]);
    }
  }

  /**
   The reported input is the largest single turn; when the totals fit in a
   word it is at most total input plus total cache reads, and the totals are true.
   */
  lemma ReportedInputOfRun(parse: Parser, lines: seq<string>, processSuccess: bool)
    ensures var events := Events(parse, lines);
            var st := ProcessLines(NEW_SESSION, parse, lines);
            var total := Sum(InputOf, events) + Sum(CacheReadOf, events);
            && Finalize(st, processSuccess).1.result.inputTokens == Peak(FootprintOf, events)
            && (total < TWO_64 ==> st.inputTokens + st.cacheReadTokens == total
                                   && Finalize(st, processSuccess).1.result.inputTokens <= total)
  {
    var events := Events(parse, lines);
    RunAccounts(parse, lines);
    PeakBounded(events);
    if Sum(InputOf, events) + Sum(CacheReadOf, events) < TWO_64 {
      SmallUnwrapped(Sum(InputOf, events));
      SmallUnwrapped(Sum(CacheReadOf, events));
    }
  }

  /**
   When a successful process is judged a mismatch: nothing recognized, or no
   text at all on a turn that did not end in a tool call.
   */
  lemma VerdictOfRun(parse: Parser, lines: seq<string>)
    ensures var events := Events(parse, lines);
            var summary := Finalize(ProcessLines(NEW_SESSION, parse, lines), true).1;
            |events| < TWO_32 ==>
              (summary.protocolError.Some? <==>
                events == []
                || (IsBlank(summary.text) && StopReason(events) != Some("tool_use")))
  {
    var events := Events(parse, lines);
    if |events| < TWO_32 {
      RunEnds(parse, lines);
      VerdictOfSession(ProcessLines(NEW_SESSION, parse, lines), events == [], StopReason(events));
    }
  }

  lemma RunEnds(parse: Parser, lines: seq<string>)
    requires |Events(parse, lines)| < TWO_32
    ensures var st := ProcessLines(NEW_SESSION, parse, lines);
            && st.recognizedEvents == |Events(parse, lines)|
            && st.lastStopReason == StopReason(Events(parse, lines))
  {
    RunAccounts(parse, lines);
    SmallCount(ProcessLines(NEW_SESSION, parse, lines), Events(parse, lines), Malformed(parse, lines));
  }

  lemma SmallCount(st: Session, events: seq<Event>, malformed: nat)
    requires Accounts(st, events, malformed) && |events| < TWO_32
    ensures st.recognizedEvents == |events| && st.lastStopReason == StopReason(events)
  {
  }

  lemma VerdictOfSession(st: Session, nothing: bool, reason: Option<string>)
    requires nothing <==> st.recognizedEvents == 0
    requires reason == st.lastStopReason
    ensures var summary := Finalize(st, true).1;
            summary.protocolError.Some? <==> nothing || (IsBlank(summary.text) && reason != Some("tool_use"))
  {
  }

  /**
   Everything the summary of a run reports: turns and tokens as totals over the
   events, an error when the process failed, the stream said so or the protocol
   was not kept, and which way it was not.
   */
  lemma SummaryOfRun(parse: Parser, lines: seq<string>, processSuccess: bool)
    ensures var events := Events(parse, lines);
            var summary := Finalize(ProcessLines(NEW_SESSION, parse, lines), processSuccess).1;
            && summary.result.numTurns == Wrap32(Sum(TurnOf, events))
            && summary.result.inputTokens == Peak(FootprintOf, events)
            && summary.result.outputTokens == Wrap64(Sum(OutputOf, events))
            && summary.result.cacheReadTokens == Wrap64(Sum(CacheReadOf, events))
            && summary.result.cacheWriteTokens == Wrap64(Sum(CacheWriteOf, events))
            && (summary.result.isError
                <==> !processSuccess || summary.protocolError.Some?
                     || exists e :: e in events && e.MessageUpdate? && e.assistant.AssistantError?)
            && summary.protocolError
               == (if !processSuccess then None
                   else if Wrap32(|events|) == 0 then Some(NoUsableEvents)
                   else if IsBlank(summary.text) && StopReason(events) != Some("tool_use")
                   then Some(NoAssistantText)
                   else None)
  {
    RunAccounts(parse, lines);
    SummaryOfSession(ProcessLines(NEW_SESSION, parse, lines), processSuccess);
  }

  lemma SummaryOfSession(st: Session, processSuccess: bool)
    ensures var summary := Finalize(st, processSuccess).1;
            && summary.result == SessionResult(
                 st.numTurns, summary.result.isError, st.peakInputTokens, st.outputTokens,
                 st.cacheReadTokens, st.cacheWriteTokens)
            && (summary.result.isError <==> !processSuccess || summary.protocolError.Some? || st.streamError)
            && summary.protocolError
               == (if !processSuccess then None
                   else if st.recognizedEvents == 0 then Some(NoUsableEvents)
                   else if IsBlank(summary.text) && st.lastStopReason != Some("tool_use") then Some(NoAssistantText)
                   else None)
  {
  }

  // ---- text blocks ----

  /** The text of the blocks, one after the other. */
  function BlockText(blocks: seq<ContentBlock>): string {
    if blocks == [] then ""
    else
      BlockText(blocks[..|blocks| - 1])
      + match blocks[|blocks| - 1]
        case Text(text) => text
        case OtherBlock => ""
  }

  lemma {:induction false} TextsConcat(a: seq<ContentBlock>, b: seq<ContentBlock>)
    ensures Texts(a + b) == Texts(a) + Texts(b)
  {
    if a == [] {
      assert a + b == b;
    } else {
      assert (a + b)[1..] == a[1..] + b;
      TextsConcat(a[1..], b);
    }
  }

  /** Joining keeps the order, with one separator between any two parts. */
  lemma {:induction false} JoinConcat(a: seq<string>, b: seq<string>, separator: string)
    requires a != [] && b != []
    ensures Join(a + b, separator) == Join(a, separator) + separator + Join(b, separator)
  {
    if |a| == 1 {
      assert a + b == [a[0]] + b && (a + b)[1..] == b;
    } else {
      assert (a + b)[1..] == a[1..] + b;
      JoinConcat(a[1..], b, separator);
      assert a[0] + separator + (Join(a[1..], separator) + separator + Join(b, separator))
          == a[0] + separator + Join(a[1..], separator) + separator + Join(b, separator);
    }
  }

  /** Recovered text is the blocks' text in order. */
  lemma {:induction false} JoinedTextsAreBlockText(blocks: seq<ContentBlock>)
    ensures Join(Texts(blocks), "") == BlockText(blocks)
  {
    if blocks != [] {
      var init, last := blocks[..|blocks| - 1], blocks[|blocks| - 1];
      JoinedTextsAreBlockText(init);
      assert blocks == init + [last];
      TextsConcat(init, [last]);
      var texts, one := Texts(init), Texts([last]);
      assert [last][1..] == [];
      if one == [] {
        assert texts + one == texts;
      } else if texts == [] {
        assert texts + one == one;
      } else {
        JoinConcat(texts, one, "");
      }
    }
  }

  // ---- what the handler is told ----

  function ShownLines(parse: Parser, lines: seq<string>, verbose: bool): seq<Callback> {
    if lines == [] then []
    else ShownLines(parse, lines[..|lines| - 1], verbose) + ShownLine(parse, lines[|lines| - 1], verbose)
  }

  lemma {:induction false} ShownConcat(parse: Parser, a: seq<string>, b: seq<string>, verbose: bool)
    ensures ShownLines(parse, a + b, verbose) == ShownLines(parse, a, verbose) + ShownLines(parse, b, verbose)
  {
    if b == [] {
      assert a + b == a;
    } else {
      var init, last := b[..|b| - 1], b[|b| - 1];
      ShownConcat(parse, a, init, verbose);
      ConcatSnoc(a, b);
      Associate(ShownLines(parse, a, verbose), ShownLines(parse, init, verbose), ShownLine(parse, last, verbose));
    }
  }

  /** What was told so far, and what remains to be told of the lines to come. */
  lemma ShownFirst(parse: Parser, log: seq<Callback>, line: string, more: seq<string>, verbose: bool)
    ensures log + ShownLines(parse, [line] + more, verbose)
         == log + ShownLine(parse, line, verbose) + ShownLines(parse, more, verbose)
  {
    ShownConcat(parse, [line], more, verbose);
    assert [line][..0] == [];
    assert ShownLines(parse, [line], verbose) == ShownLine(parse, line, verbose);
  }

  /** The text among the callbacks. */
  function TextTold(callbacks: seq<Callback>): string {
    if callbacks == [] then ""
    else
      TextTold(callbacks[..|callbacks| - 1])
      + match callbacks[|callbacks| - 1]
        case OnText(text) => text
        case _ => ""
  }

  /** The text of the events: the deltas, and the thinking among them when it is wanted. */
  function VoicedText(events: seq<Event>, verbose: bool): string {
    if events == [] then ""
    else
      VoicedText(events[..|events| - 1], verbose)
      + match events[|events| - 1]
        case MessageUpdate(TextDelta(delta)) => delta
        case MessageUpdate(ThinkingDelta(delta)) => if verbose then delta else ""
        case _ => ""
  }

  lemma {:induction false} TextToldConcat(a: seq<Callback>, b: seq<Callback>)
    ensures TextTold(a + b) == TextTold(a) + TextTold(b)
  {
    if b == [] {
      assert a + b == a;
    } else {
      TextToldConcat(a, b[..|b| - 1]);
      assert (a + b)[..|a + b| - 1] == a + b[..|b| - 1];
    }
  }

  /** What is told of a line is what its event voices. */
  lemma LineIsVoiced(parse: Parser, line: string, verbose: bool)
    ensures TextTold(ShownLine(parse, line, verbose))
         == match LineEvent(parse, line)
            case Some(e) => VoicedText([e], verbose)
            case None => ""
  {
    var told := ShownLine(parse, line, verbose);
    if told != [] {
      assert told[..|told| - 1] == [];
    }
    if LineEvent(parse, line).Some? {
      var one := [LineEvent(parse, line).value];
      assert one[..0] == [];
    }
  }

  /** Over a run the handler is told the text of the events, in order; nothing but thinking depends on `verbose`. */
  lemma {:induction false} RunIsVoiced(parse: Parser, lines: seq<string>, verbose: bool)
    ensures TextTold(ShownLines(parse, lines, verbose)) == VoicedText(Events(parse, lines), verbose)
  {
    if lines != [] {
      var init, last := lines[..|lines| - 1], lines[|lines| - 1];
      RunIsVoiced(parse, init, verbose);
      TextToldConcat(ShownLines(parse, init, verbose), ShownLine(parse, last, verbose));
      LineIsVoiced(parse, last, verbose);
      var events, e := Events(parse, init), LineEvent(parse, last);
      if e.Some? {
        assert (events + [e.value])[..|events|] == events;
        assert [e.value][..0] == [];
      } else {
        assert events + [] == events;
      }
    }
  }

  /** Without thinking, the text on screen is the text that is extracted. */
  lemma {:induction false} VoicedIsDeltaText(events: seq<Event>)
    ensures VoicedText(events, false) == DeltaText(events)
  {
    if events != [] {
      VoicedIsDeltaText(events[..|events| - 1]);
    }
  }

  lemma ToldIsExtracted(parse: Parser, lines: seq<string>)
    ensures TextTold(ShownLines(parse, lines, false)) == ProcessLines(NEW_SESSION, parse, lines).extractedText
  {
    RunIsVoiced(parse, lines, false);
    VoicedIsDeltaText(Events(parse, lines));
    RunAccounts(parse, lines);
  }

  /** A tool is told when it starts, and when it ends as a result or, exactly when its flag says so, as an error. */
  lemma ToolsAreTold(name: string, id: string, args: Json.Value, content: seq<ContentBlock>, isError: bool, verbose: bool)
    ensures Shown(ToolStart(name, id, args), verbose) == [OnToolCall(name, id, args)]
    ensures var told := Shown(ToolEnd(id, content, isError), verbose);
            && |told| == 1
            && (told[0].OnError? <==> isError) && (told[0].OnToolResult? <==> !isError)
            && (isError ==> told[0].message == Join(Texts(content), "\n"))
            && (!isError ==> told[0].id == id && told[0].output == Join(Texts(content), "\n"))
    ensures forall reason :: Shown(MessageUpdate(AssistantError(reason)), verbose) == [OnError(reason)]
  {
  }

  // ---- the lines matter only up to trimming ----

  lemma {:induction false} TrimmedLinesSuffice(st: Session, parse: Parser, a: seq<string>, b: seq<string>)
    requires |a| == |b| && forall i :: 0 <= i < |a| ==> Trim(a[i]) == Trim(b[i])
    ensures ProcessLines(st, parse, a) == ProcessLines(st, parse, b)
  {
    if a != [] {
      TrimmedLinesSuffice(st, parse, a[..|a| - 1], b[..|b| - 1]);
    }
  }

  lemma {:induction false} ProcessConcat(st: Session, parse: Parser, a: seq<string>, b: seq<string>)
    ensures ProcessLines(st, parse, a + b) == ProcessLines(ProcessLines(st, parse, a), parse, b)
  {
    if b == [] {
      assert a + b == a;
    } else {
      ProcessConcat(st, parse, a, b[..|b| - 1]);
      assert (a + b)[..|a + b| - 1] == a + b[..|b| - 1];
    }
  }
}
