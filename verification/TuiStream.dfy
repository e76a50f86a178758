/**
 The terminal-UI handler keeps a buffer of unfinished text and a list of
 finished blocks, and redraws all lines on every callback.  The screen always
 equals a batch rendering of the callbacks so far.
 */
module TuiStream {
  import opened Handler
  import opened Sequences
  import Json

  /** How single pieces are drawn; nothing below depends on it. */
  datatype Style<!L> = Style(
    textToLines: string -> seq<L>,
    toolLine: (string, Json.Value) -> L,
    resultDisplay: string -> string,
    resultLine: string -> L,
    errorLine: string -> L,
    blankLine: L,
    summaryLine: SessionResult -> L)

  datatype Block<L> = Text(text: string) | NonText(line: L)

  // ---- the batch rendering ----

  /** What one callback adds: text, lines, or nothing visible. */
  function Pieces<L>(style: Style<L>, c: Callback): seq<Block<L>> {
    match c
    case OnText(text) => TextBlock(text)
    case OnToolCall(name, _, args) => [NonText(style.toolLine(name, args))]
    case OnToolResult(_, output) =>
      var display := style.resultDisplay(output);
      if display == "" then [] else [NonText(style.resultLine(display))]
    case OnError(message) => [NonText(style.errorLine(message))]
    case OnComplete(result) => [NonText(style.blankLine), NonText(style.summaryLine(result))]
  }

  function AllPieces<L>(style: Style<L>, trace: seq<Callback>): seq<Block<L>> {
    if trace == [] then []
    else AllPieces(style, trace[..|trace| - 1]) + Pieces(style, trace[|trace| - 1])
  }

  /** Joins every maximal run of text, keeping the order. */
  function Coalesce<L>(pieces: seq<Block<L>>): seq<Block<L>> {
    if pieces == [] then []
    else
      var rest := Coalesce(pieces[1..]);
      if pieces[0].Text? && rest != [] && rest[0].Text?
      then [Text(pieces[0].text + rest[0].text)] + rest[1..]
      else [pieces[0]] + rest
  }

  function Draw<L>(style: Style<L>, blocks: seq<Block<L>>): seq<L> {
    if blocks == [] then []
    else
      Draw(style, blocks[..|blocks| - 1])
      + match blocks[|blocks| - 1]
        case Text(text) => style.textToLines(text)
        case NonText(line) => [line]
  }

  function Batch<L>(style: Style<L>, trace: seq<Callback>): seq<L> {
    Draw(style, Coalesce(AllPieces(style, trace)))
  }

  // ---- coalescing ----

  predicate EndsInText<L>(blocks: seq<Block<L>>) {
    blocks != [] && blocks[|blocks| - 1].Text?
  }

  /** Adding one piece at the end of a coalesced list. */
  function Snoc<L>(blocks: seq<Block<L>>, p: Block<L>): seq<Block<L>> {
    if p.Text? && EndsInText(blocks)
    then blocks[..|blocks| - 1] + [Text(blocks[|blocks| - 1].text + p.text)]
    else blocks + [p]
  }

  lemma {:induction false} CoalesceSnoc<L>(pieces: seq<Block<L>>, p: Block<L>)
    ensures Coalesce(pieces + [p]) == Snoc(Coalesce(pieces), p)
    ensures pieces != [] ==> Coalesce(pieces) != []
  {
    if pieces == [] {
      assert pieces + [p] == [p] && [p][1..] == [];
    } else {
      CoalesceSnoc(pieces[1..], p);
      assert (pieces + [p])[1..] == pieces[1..] + [p];
      CoalesceCons(pieces[0], pieces[1..]);
      CoalesceCons(pieces[0], pieces[1..] + [p]);
      assert [pieces[0]] + (pieces[1..] + [p]) == pieces + [p] && [pieces[0]] + pieces[1..] == pieces;
      JoinSnoc(pieces[0], Coalesce(pieces[1..]), p);
    }
  }

  /** One piece in front of a coalesced list. */
  function JoinFront<L>(b: Block<L>, rest: seq<Block<L>>): seq<Block<L>> {
    if b.Text? && rest != [] && rest[0].Text? then [Text(b.text + rest[0].text)] + rest[1..] else [b] + rest
  }

  lemma CoalesceCons<L>(b: Block<L>, rest: seq<Block<L>>)
    ensures Coalesce([b] + rest) == JoinFront(b, Coalesce(rest))
  {
    assert ([b] + rest)[1..] == rest;
  }

  lemma JoinSnoc<L>(b: Block<L>, rest: seq<Block<L>>, p: Block<L>)
    ensures JoinFront(b, Snoc(rest, p)) == Snoc(JoinFront(b, rest), p)
  {
    if rest != [] {
      SnocKeepsHead(rest, p);
    }
  }

  /** Whether and how the first block joins what precedes it does not depend on the end. */
  lemma SnocKeepsHead<L>(blocks: seq<Block<L>>, p: Block<L>)
    requires blocks != []
    ensures Snoc(blocks, p) != [] && (Snoc(blocks, p)[0].Text? <==> blocks[0].Text?)
    ensures forall t: string :: blocks[0].Text? ==>
      Snoc([Text(t + blocks[0].text)] + blocks[1..], p) == [Text(t + Snoc(blocks, p)[0].text)] + Snoc(blocks, p)[1..]
    ensures forall b: Block<L> :: Snoc([b] + blocks, p) == [b] + Snoc(blocks, p)
  {
    forall t: string | blocks[0].Text?
      ensures Snoc([Text(t + blocks[0].text)] + blocks[1..], p)
           == [Text(t + Snoc(blocks, p)[0].text)] + Snoc(blocks, p)[1..]
    {
      if |blocks| == 1 && p.Text? {
        assert t + (blocks[0].text + p.text) == t + blocks[0].text + p.text;
      }
    }
  }

  ghost predicate NoTwoTexts<L>(blocks: seq<Block<L>>) {
    && (forall i :: 0 <= i < |blocks| - 1 ==> !(blocks[i].Text? && blocks[i + 1].Text?))
    && (forall i :: 0 <= i < |blocks| && blocks[i].Text? ==> blocks[i].text != "")
  }

  lemma {:induction false} CoalescedIsMaximal<L>(pieces: seq<Block<L>>)
    requires forall i :: 0 <= i < |pieces| && pieces[i].Text? ==> pieces[i].text != ""
    ensures NoTwoTexts(Coalesce(pieces))
  {
    if pieces != [] {
      CoalescedIsMaximal(pieces[1..]);
    }
  }

  lemma {:induction false} PiecesNotEmpty<L>(style: Style<L>, trace: seq<Callback>)
    ensures forall p :: p in AllPieces(style, trace) && p.Text? ==> p.text != ""
  {
    if trace != [] {
      PiecesNotEmpty(style, trace[..|trace| - 1]);
    }
  }

  // ---- the handler ----

  /** The callback redraws the screen; an empty tool result does not. */
  predicate Redraws<L>(style: Style<L>, c: Callback) {
    c.OnToolResult? ==> style.resultDisplay(c.output) != ""
  }

  predicate Redrawn<L>(style: Style<L>, trace: seq<Callback>) {
    trace != [] && (Redraws(style, trace[|trace| - 1]) || Redrawn(style, trace[..|trace| - 1]))
  }

  lemma TraceGrows<L>(style: Style<L>, trace: seq<Callback>, c: Callback)
    ensures AllPieces(style, trace + [c]) == AllPieces(style, trace) + Pieces(style, c)
    ensures Redrawn(style, trace + [c]) <==> Redraws(style, c) || Redrawn(style, trace)
  {
    assert (trace + [c])[..|trace|] == trace;
  }

  function TextBlock<L>(buffer: string): seq<Block<L>> {
    if buffer == "" then [] else [Text(buffer)]
  }

  class TuiStreamHandler<L> {
    const style: Style<L>
    ghost const initial: seq<L>
    var currentTextBuffer: string
    var blocks: seq<Block<L>>
    var lines: seq<L>
    ghost var trace: seq<Callback>

    /** Frozen blocks followed by the text still being written. */
    function Shown(): seq<Block<L>>
      reads this
    {
      blocks + TextBlock(currentTextBuffer)
    }

    ghost predicate Consistent(pieces: seq<Block<L>>)
      reads this
    {
      && Shown() == Coalesce(pieces)
      && !EndsInText(blocks)
    }

    ghost predicate Valid()
      reads this
    {
      && Consistent(AllPieces(style, trace))
      && lines == if Redrawn(style, trace) then Batch(style, trace) else initial
    }

    constructor (style: Style<L>, lines: seq<L>)
      ensures Valid() && trace == [] && this.style == style && initial == lines
    {
      this.style, initial, this.lines := style, lines, lines;
      currentTextBuffer, blocks, trace := "", [], [];
    }

    method FreezeCurrentText()
      modifies this`currentTextBuffer, this`blocks
      ensures blocks == old(Shown()) && currentTextBuffer == ""
    {
      if currentTextBuffer != "" {
        blocks := blocks + [Text(currentTextBuffer)];
        currentTextBuffer := "";
      }
    }

    method UpdateLines()
      modifies this`lines
      ensures lines == Draw(style, Shown())
    {
      var allLines := [];
      for i := 0 to |blocks|
        invariant allLines == Draw(style, blocks[..i])
      {
        assert blocks[..i + 1][..i] == blocks[..i];
        match blocks[i]
        case Text(text) => allLines := allLines + style.textToLines(text);
        case NonText(line) => allLines := allLines + [line];
      }
      assert blocks[..|blocks|] == blocks && blocks + [] == blocks;
      if currentTextBuffer != "" {
        assert Shown()[..|Shown()| - 1] == blocks;
        allLines := allLines + style.textToLines(currentTextBuffer);
      }
      lines := allLines;
    }

    method AddNonTextLine(line: L, ghost pieces: seq<Block<L>>)
      requires Consistent(pieces)
      modifies this`currentTextBuffer, this`blocks, this`lines
      ensures Consistent(pieces + [NonText(line)])
      ensures lines == Draw(style, Coalesce(pieces + [NonText(line)]))
    {
      CoalesceSnoc(pieces, NonText(line));
      FreezeCurrentText();
      blocks := blocks + [NonText(line)];
      UpdateLines();
    }

    method AddTwoLines(first: L, second: L, ghost pieces: seq<Block<L>>, ghost both: seq<Block<L>>)
      requires Consistent(pieces) && both == [NonText(first), NonText(second)]
      modifies this`currentTextBuffer, this`blocks, this`lines
      ensures Consistent(pieces + both)
      ensures lines == Draw(style, Coalesce(pieces + both))
    {
      AddNonTextLine(first, pieces);
      AddNonTextLine(second, pieces + [NonText(first)]);
      AppendTwo(pieces, NonText(first), NonText(second));
    }

    method OnTextCallback(text: string)
      requires Valid()
      modifies this
      ensures Valid() && trace == old(trace) + [OnText(text)] && lines == Batch(style, trace)
    {
      ghost var pieces := AllPieces(style, trace);
      currentTextBuffer := currentTextBuffer + text;
      UpdateLines();
      TextJoins(blocks, old(currentTextBuffer), pieces, text);
      Record(OnText(text));
    }

    ghost method Record(c: Callback)
      requires Consistent(AllPieces(style, trace) + Pieces(style, c))
      requires Redraws(style, c) && lines == Draw(style, Coalesce(AllPieces(style, trace) + Pieces(style, c)))
      modifies this`trace
      ensures Valid() && trace == old(trace) + [c] && lines == Batch(style, trace)
    {
      TraceGrows(style, trace, c);
      trace := trace + [c];
    }

    /** A callback that leaves no trace on the screen. */
    ghost method RecordUnseen(c: Callback)
      requires Valid() && Pieces(style, c) == [] && !Redraws(style, c)
      modifies this`trace
      ensures Valid() && trace == old(trace) + [c]
    {
      TraceGrows(style, trace, c);
      assert AllPieces(style, trace) + [] == AllPieces(style, trace);
      trace := trace + [c];
    }

    method OnToolCallCallback(name: string, id: string, args: Json.Value)
      requires Valid()
      modifies this
      ensures Valid() && trace == old(trace) + [OnToolCall(name, id, args)] && lines == Batch(style, trace)
    {
      AddNonTextLine(style.toolLine(name, args), AllPieces(style, trace));
      Record(OnToolCall(name, id, args));
    }

    method OnToolResultCallback(id: string, output: string)
      requires Valid()
      modifies this
      ensures Valid() && trace == old(trace) + [OnToolResult(id, output)]
      ensures style.resultDisplay(output) != "" ==> lines == Batch(style, trace)
    {
      var display := style.resultDisplay(output);
      if display == "" {
        RecordUnseen(OnToolResult(id, output));
      } else {
        ShowResult(id, output, AllPieces(style, trace));
        Record(OnToolResult(id, output));
      }
    }

    method ShowResult(id: string, output: string, ghost pieces: seq<Block<L>>)
      requires Consistent(pieces) && style.resultDisplay(output) != ""
      modifies this`currentTextBuffer, this`blocks, this`lines
      ensures Consistent(pieces + Pieces(style, OnToolResult(id, output)))
      ensures lines == Draw(style, Coalesce(pieces + Pieces(style, OnToolResult(id, output))))
    {
      AddNonTextLine(style.resultLine(style.resultDisplay(output)), pieces);
    }

    method OnErrorCallback(message: string)
      requires Valid()
      modifies this
      ensures Valid() && trace == old(trace) + [OnError(message)] && lines == Batch(style, trace)
    {
      AddNonTextLine(style.errorLine(message), AllPieces(style, trace));
      Record(OnError(message));
    }

    method OnCompleteCallback(result: SessionResult)
      requires Valid()
      modifies this
      ensures Valid() && trace == old(trace) + [OnComplete(result)] && lines == Batch(style, trace)
    {
      ShowCompletion(result, AllPieces(style, trace));
      Record(OnComplete(result));
    }

    method ShowCompletion(result: SessionResult, ghost pieces: seq<Block<L>>)
      requires Consistent(pieces)
      modifies this`currentTextBuffer, this`blocks, this`lines
      ensures Consistent(pieces + Pieces(style, OnComplete(result)))
      ensures lines == Draw(style, Coalesce(pieces + Pieces(style, OnComplete(result))))
    {
      UpdateLines();
      AddTwoLines(style.blankLine, style.summaryLine(result), pieces, Pieces(style, OnComplete(result)));
    }
  }

  lemma AppendTwo<T>(s: seq<T>, a: T, b: T)
    ensures s + [a] + [b] == s + [a, b]
  {
  }

  lemma TextGrows<L>(blocks: seq<Block<L>>, buffer: string, text: string)
    requires text != "" && !EndsInText(blocks)
    ensures Snoc(blocks + TextBlock(buffer), Text(text)) == blocks + [Text(buffer + text)]
  {
    if buffer == "" {
      assert blocks + [] == blocks && buffer + text == text;
    }
  }

  /** More text joins the text being written. */
  lemma TextJoins<L>(blocks: seq<Block<L>>, buffer: string, pieces: seq<Block<L>>, text: string)
    requires blocks + TextBlock(buffer) == Coalesce(pieces) && !EndsInText(blocks)
    ensures blocks + TextBlock(buffer + text) == Coalesce(pieces + TextBlock(text))
  {
    if text != "" {
      CoalesceSnoc(pieces, Text(text));
      TextGrows(blocks, buffer, text);
    } else {
      assert pieces + [] == pieces && buffer + text == buffer;
    }
  }

  /** Frozen blocks never put two texts side by side. */
  lemma FrozenTextsAreApart<L>(h: TuiStreamHandler<L>)
    requires h.Valid()
    ensures NoTwoTexts(h.blocks)
  {
    PiecesNotEmpty(h.style, h.trace);
    CoalescedIsMaximal(AllPieces(h.style, h.trace));
    assert h.blocks == h.Shown()[..|h.blocks|];
  }

  // ---- the screen in order ----

  lemma {:induction false} DrawConcat<L>(style: Style<L>, a: seq<Block<L>>, b: seq<Block<L>>)
    ensures Draw(style, a + b) == Draw(style, a) + Draw(style, b)
  {
    if b == [] {
      assert a + b == a;
    } else {
      DrawConcat(style, a, b[..|b| - 1]);
      ConcatSnoc(a, b);
    }
  }

  lemma DrawOne<L>(style: Style<L>, text: string, line: L)
    ensures Draw(style, [Text(text)]) == style.textToLines(text)
    ensures Draw(style, [NonText(line)]) == [line]
  {
    var t: seq<Block<L>> := [Text(text)];
    var n: seq<Block<L>> := [NonText(line)];
    assert t[..0] == [] && n[..0] == [];
  }

  /** A line goes below everything shown so far. */
  lemma LineGoesBelow<L>(style: Style<L>, pieces: seq<Block<L>>, line: L)
    ensures Draw(style, Coalesce(pieces + [NonText(line)])) == Draw(style, Coalesce(pieces)) + [line]
  {
    CoalesceSnoc(pieces, NonText(line));
    DrawConcat(style, Coalesce(pieces), [NonText(line)]);
    DrawOne(style, "", line);
  }

  /** The lines that a callback other than text puts on the screen, top to bottom. */
  function NewLines<L>(style: Style<L>, c: Callback): seq<L>
    requires !c.OnText?
  {
    match c
    case OnToolCall(name, _, args) => [style.toolLine(name, args)]
    case OnToolResult(_, output) =>
      if style.resultDisplay(output) == "" then [] else [style.resultLine(style.resultDisplay(output))]
    case OnError(message) => [style.errorLine(message)]
    case OnComplete(result) => [style.blankLine, style.summaryLine(result)]
  }

  /** Tool calls, results, errors and completions appear below everything before them. */
  lemma CallbackGoesBelow<L>(style: Style<L>, trace: seq<Callback>, c: Callback)
    requires !c.OnText?
    ensures Batch(style, trace + [c]) == Batch(style, trace) + NewLines(style, c)
  {
    var pieces := AllPieces(style, trace);
    TraceGrows(style, trace, c);
    match c {
      case OnToolCall(name, _, args) => LineGoesBelow(style, pieces, style.toolLine(name, args));
      case OnToolResult(_, output) =>
        var display := style.resultDisplay(output);
        if display == "" {
          assert pieces + [] == pieces && Batch(style, trace) + [] == Batch(style, trace);
        } else {
          LineGoesBelow(style, pieces, style.resultLine(display));
        }
      case OnError(message) => LineGoesBelow(style, pieces, style.errorLine(message));
      case OnComplete(result) => CompletionGoesBelow(style, pieces, result);
    }
  }

  lemma CompletionGoesBelow<L>(style: Style<L>, pieces: seq<Block<L>>, result: SessionResult)
    ensures var both := [NonText(style.blankLine), NonText(style.summaryLine(result))];
            Draw(style, Coalesce(pieces + both))
              == Draw(style, Coalesce(pieces)) + [style.blankLine, style.summaryLine(result)]
  {
    var first := pieces + [NonText(style.blankLine)];
    AppendTwo(pieces, NonText(style.blankLine), NonText(style.summaryLine(result)));
    LineGoesBelow(style, pieces, style.blankLine);
    LineGoesBelow(style, first, style.summaryLine(result));
    AppendTwo(Draw(style, Coalesce(pieces)), style.blankLine, style.summaryLine(result));
  }

  /**
   Text appears below everything before it; when text is being written already
   the two are drawn as one.
   */
  lemma TextGoesBelow<L>(style: Style<L>, trace: seq<Callback>, text: string)
    requires text != ""
    ensures var shown := Coalesce(AllPieces(style, trace));
            Batch(style, trace + [OnText(text)])
              == if EndsInText(shown)
                 then Draw(style, shown[..|shown| - 1]) + style.textToLines(shown[|shown| - 1].text + text)
                 else Batch(style, trace) + style.textToLines(text)
  {
    var shown := Coalesce(AllPieces(style, trace));
    TraceGrows(style, trace, OnText(text));
    CoalesceSnoc(AllPieces(style, trace), Text(text));
    var drawn := if EndsInText(shown) then shown[|shown| - 1].text + text else text;
    DrawConcat(style, if EndsInText(shown) then shown[..|shown| - 1] else shown, [Text(drawn)]);
    DrawOne(style, drawn, style.blankLine);
  }

  // ---- how text is cut into callbacks does not matter ----

  lemma {:induction false} PiecesConcat<L>(style: Style<L>, a: seq<Callback>, b: seq<Callback>)
    ensures AllPieces(style, a + b) == AllPieces(style, a) + AllPieces(style, b)
  {
    if b == [] {
      assert a + b == a;
    } else {
      var init, last := b[..|b| - 1], b[|b| - 1];
      PiecesConcat(style, a, init);
      Associate(a, init, [last]);
      assert b == init + [last];
      TraceGrows(style, a + init, last);
      TraceGrows(style, init, last);
      Associate(AllPieces(style, a), AllPieces(style, init), Pieces(style, last));
    }
  }

  lemma {:induction false} CoalesceSplit<L>(before: seq<Block<L>>, a: string, b: string, after: seq<Block<L>>)
    ensures Coalesce(before + [Text(a), Text(b)] + after) == Coalesce(before + [Text(a + b)] + after)
  {
    if before == [] {
      var two := [Text(a), Text(b)] + after;
      var one := [Text(a + b)] + after;
      assert before + [Text(a), Text(b)] + after == two && before + [Text(a + b)] + after == one;
      assert two[1..] == [Text(b)] + after && two[1..][1..] == after && one[1..] == after;
      var rest := Coalesce(after);
      if rest != [] && rest[0].Text? {
        assert a + (b + rest[0].text) == a + b + rest[0].text;
      }
    } else {
      CoalesceSplit(before[1..], a, b, after);
      assert (before + [Text(a), Text(b)] + after)[1..] == before[1..] + [Text(a), Text(b)] + after;
      assert (before + [Text(a + b)] + after)[1..] == before[1..] + [Text(a + b)] + after;
    }
  }

  /** Splitting or joining text chunks never changes the screen. */
  lemma ChunkingDoesNotShow<L>(style: Style<L>, before: seq<Callback>, a: string, b: string, after: seq<Callback>)
    ensures Batch(style, before + [OnText(a), OnText(b)] + after) == Batch(style, before + [OnText(a + b)] + after)
  {
    var two, one := [OnText(a), OnText(b)], [OnText(a + b)];
    PiecesAround(style, before, two, after);
    PiecesAround(style, before, one, after);
    PiecesOfTexts(style, a, b);
    if a != "" && b != "" {
      CoalesceSplit(AllPieces(style, before), a, b, AllPieces(style, after));
    }
  }

  lemma PiecesAround<L>(style: Style<L>, before: seq<Callback>, middle: seq<Callback>, after: seq<Callback>)
    ensures AllPieces(style, before + middle + after)
         == AllPieces(style, before) + AllPieces(style, middle) + AllPieces(style, after)
  {
    PiecesConcat(style, before + middle, after);
    PiecesConcat(style, before, middle);
  }

  lemma PiecesOfTexts<L>(style: Style<L>, a: string, b: string)
    ensures var two := AllPieces(style, [OnText(a), OnText(b)]);
            var one := AllPieces(style, [OnText(a + b)]);
            if a != "" && b != "" then two == [Text(a), Text(b)] && one == [Text(a + b)] else two == one
  {
    PiecesOfTwo(style, OnText(a), OnText(b));
    PiecesOfOne(style, OnText(a + b));
    if a == "" {
      assert a + b == b;
    } else if b == "" {
      assert a + b == a;
    }
  }

  lemma PiecesOfOne<L>(style: Style<L>, c: Callback)
    ensures AllPieces(style, [c]) == Pieces(style, c)
  {
    assert [c][..0] == [];
    assert [] + Pieces(style, c) == Pieces(style, c);
  }

  lemma PiecesOfTwo<L>(style: Style<L>, c: Callback, d: Callback)
    ensures AllPieces(style, [c, d]) == Pieces(style, c) + Pieces(style, d)
  {
    assert [c, d] == [c] + [d];
    TraceGrows(style, [c], d);
    PiecesOfOne(style, c);
  }
}
