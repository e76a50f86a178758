/**
 The bounded output buffer of a terminal: every read is appended and trimmed,
 and the client asks for the tail rendered as well-formed text.
 */
module TailBuffer {
  import opened Sequences
  import opened Wrappers
  import opened Utf8
  import opened Words

  // ---- rendering ----

  /** The first position from `i` on that is not a continuation byte. */
  function SkipTails(s: Bytes, i: nat): (j: nat)
    requires i <= |s|
    ensures i <= j <= |s|
    ensures j == |s| || !IsTail(s[j])
    ensures forall k :: i <= k < j ==> IsTail(s[k])
    decreases |s| - i
  {
    if i < |s| && IsTail(s[i]) then SkipTails(s, i + 1) else i
  }

  /** Where the last `max` bytes start, moved on to the next possible start of a character. */
  function TailStart(s: Bytes, max: nat): (j: nat)
    ensures |s| - Min(max, |s|) <= j <= |s|
  {
    SkipTails(s, |s| - Min(max, |s|))
  }

  /** The last `max` bytes of well-formed text, from a character boundary on. */
  function FittingSuffix(text: Bytes, max: nat): Bytes {
    if |text| <= max then text else text[TailStart(text, max)..]
  }

  function RenderText(s: Bytes, max: nat): Bytes {
    var rest := s[ValidUpTo(s)..];
    if rest == [] then s
    else if IsCut(rest) then s[..ValidUpTo(s)]
    else FittingSuffix(Lossy(s), max)
  }

  function Render(bytes: Bytes, max: nat): Bytes {
    if max == 0 then [] else RenderText(bytes[TailStart(bytes, max)..], max)
  }

  method RenderUtf8SuffixWithByteLimit(bytes: Bytes, max: nat) returns (text: Bytes)
    ensures text == Render(bytes, max)
  {
    if max == 0 {
      return [];
    }
    var start := |bytes| - Min(max, |bytes|);
    ghost var from := start;
    while start < |bytes| && IsTail(bytes[start])
      invariant start <= |bytes| && SkipTails(bytes, start) == SkipTails(bytes, from)
    {
      start := start + 1;
    }
    text := RenderFromStart(bytes[start..], max);
  }

  /** Well-formed text, or all but a cut character, or the text with the errors replaced. */
  method RenderFromStart(s: Bytes, max: nat) returns (text: Bytes)
    ensures text == RenderText(s, max)
  {
    var validUpTo := ValidUpTo(s);
    if validUpTo == |s| {
      return s;
    }
    if IsCut(s[validUpTo..]) {
      ValidUpToIsValid(s);
      LossyIsValid(s[..validUpTo]);
      return Lossy(s[..validUpTo]);
    }
    text := SuffixFromBoundary(Lossy(s), max);
  }

  method SuffixFromBoundary(text: Bytes, max: nat) returns (suffix: Bytes)
    ensures suffix == FittingSuffix(text, max)
  {
    var start := |text| - Min(max, |text|);
    ghost var from := start;
    while !IsBoundary(text, start)
      invariant start <= |text| && (from == 0 ==> start == 0)
      invariant SkipTails(text, start) == SkipTails(text, from)
      decreases |text| - start
    {
      start := start + 1;
    }
    suffix := text[start..];
  }

  lemma FittingSuffixIsValid(text: Bytes, max: nat)
    requires Valid(text)
    ensures Valid(FittingSuffix(text, max)) && |FittingSuffix(text, max)| <= max
  {
    if |text| > max {
      ValidSplit(text, TailStart(text, max));
    }
  }

  /** Whatever the bytes, the answer is well-formed text within the limit. */
  lemma RenderIsValidAndBounded(bytes: Bytes, max: nat)
    ensures Valid(Render(bytes, max)) && |Render(bytes, max)| <= max
  {
    if max > 0 {
      var s := bytes[TailStart(bytes, max)..];
      assert |s| <= max;
      ValidUpToIsValid(s);
      LossyIsValid(s);
      FittingSuffixIsValid(Lossy(s), max);
    }
  }

  /** Only the last `max` bytes matter. */
  lemma RenderLooksAtTheEnd(head: Bytes, tail: Bytes, max: nat)
    requires |tail| >= max
    ensures Render(head + tail, max) == Render(tail, max)
  {
    SameEnd(head, tail, max);
  }

  lemma SameEnd(head: Bytes, tail: Bytes, max: nat)
    requires |tail| >= max
    ensures (head + tail)[TailStart(head + tail, max)..] == tail[TailStart(tail, max)..]
  {
    var j := TailStart(tail, max);
    SkipTailsShift(head, tail, |tail| - max);
    assert TailStart(head + tail, max) == |head| + j;
  }

  lemma {:induction false} SkipTailsShift(head: Bytes, tail: Bytes, i: nat)
    requires i <= |tail|
    ensures SkipTails(head + tail, |head| + i) == |head| + SkipTails(tail, i)
    decreases |tail| - i
  {
    if i < |tail| && IsTail(tail[i]) {
      SkipTailsShift(head, tail, i + 1);
    }
  }

  // ---- what the rendered tail is ----

  /** `s` can be completed to well-formed text. */
  ghost predicate PrefixOfValid(s: Bytes) {
    exists rest: Bytes :: Valid(s + rest)
  }

  /** The prefixes of well-formed text are well-formed text and at most one character cut short. */
  lemma PrefixIffCutTail(s: Bytes)
    ensures PrefixOfValid(s) <==> s[ValidUpTo(s)..] == [] || IsCut(s[ValidUpTo(s)..])
  {
    var text, cut := s[..ValidUpTo(s)], s[ValidUpTo(s)..];
    ValidUpToIsValid(s);
    assert s == text + cut;
    PrefixAfterValid(text, cut);
    if cut == [] {
      assert Valid(cut + []);
    } else {
      CutIffCompletable(cut);
    }
  }

  lemma PrefixAfterValid(text: Bytes, s: Bytes)
    requires Valid(text)
    ensures PrefixOfValid(text + s) <==> PrefixOfValid(s)
  {
    if PrefixOfValid(text + s) {
      var rest: Bytes :| Valid(text + s + rest);
      CompletionAfterValid(text, s, rest);
    } else if PrefixOfValid(s) {
      var rest: Bytes :| Valid(s + rest);
      CompletionAfterValid(text, s, rest);
      assert false;
    }
  }

  lemma CompletionAfterValid(text: Bytes, s: Bytes, rest: Bytes)
    requires Valid(text)
    ensures Valid(text + s + rest) <==> Valid(s + rest)
  {
    ValidConcat(text, s + rest);
    assert text + s + rest == text + (s + rest);
  }

  /** Bytes without a character in front can be completed exactly when they are a cut character. */
  lemma CutIffCompletable(cut: Bytes)
    requires cut != [] && CharLen(cut) == 0
    ensures IsCut(cut) <==> PrefixOfValid(cut)
  {
    CutIffProperPrefix(cut);
    if rest: Bytes :| rest != [] && IsChar(cut + rest) {
      CharIsValid(cut + rest);
    }
    if rest: Bytes :| Valid(cut + rest) {
      var more := CompletesChar(cut, rest);
    }
  }

  lemma CharIsValid(c: Bytes)
    requires IsChar(c)
    ensures Valid(c)
  {
    Cons(c, []);
    assert c + [] == c;
  }

  lemma FirstCharIsLonger(cut: Bytes, rest: Bytes)
    requires CharLen(cut) == 0 && CharLen(cut + rest) > 0
    ensures CharLen(cut + rest) > |cut|
  {
  }

  /** The part of a completion that completes the first character. */
  lemma CompletesChar(cut: Bytes, rest: Bytes) returns (more: Bytes)
    requires cut != [] && CharLen(cut) == 0 && Valid(cut + rest)
    ensures more != [] && IsChar(cut + more)
  {
    var c, _ := Uncons(cut + rest);
    FirstCharIsLonger(cut, rest);
    more := c[|cut|..];
    assert c == cut + more;
  }

  /**
   `tail` is the longest run of whole characters at the end of `text` that
   fits, together with the `cut` bytes that follow the text, in `max` bytes.
   */
  ghost predicate IsLongestTail(text: Bytes, cut: Bytes, max: nat, tail: Bytes) {
    && |tail| <= |text| && tail == text[|text| - |tail|..]
    && Valid(tail)
    && (tail == [] || |tail| + |cut| <= max)
    && forall j :: 0 <= j < |text| - |tail| && Valid(text[j..]) ==> |text| - j + |cut| > max
  }

  lemma LongestTailIsUnique(text: Bytes, cut: Bytes, max: nat, a: Bytes, b: Bytes)
    requires IsLongestTail(text, cut, max, a) && IsLongestTail(text, cut, max, b)
    ensures a == b
  {
    assert a == text[|text| - |a|..] && b == text[|text| - |b|..];
  }

  /**
   For every prefix of well-formed text the rendered tail is the longest run
   of whole characters before the cut one; nothing is replaced.
   */
  lemma RenderIsLongestTail(bytes: Bytes, max: nat)
    requires PrefixOfValid(bytes)
    ensures var n := ValidUpTo(bytes);
            IsLongestTail(bytes[..n], bytes[n..], max, Render(bytes, max))
  {
    var n := ValidUpTo(bytes);
    ValidUpToIsValid(bytes);
    PrefixIffCutTail(bytes);
    assert bytes == bytes[..n] + bytes[n..];
    LongestTailOfParts(bytes[..n], bytes[n..], max);
  }

  /** Of well-formed text, the longest run of whole characters at the end that fits. */
  lemma FittingSuffixIsLongestTail(text: Bytes, max: nat)
    requires Valid(text) && max > 0
    ensures IsLongestTail(text, [], max, FittingSuffix(text, max))
  {
    if |text| <= max {
      WholeTextFits(text, max);
    } else {
      assert text + [] == text;
      LongestTailOfParts(text, [], max);
      FittingSuffixIsRendered(text, max);
    }
  }

  lemma WholeTextFits(text: Bytes, max: nat)
    requires Valid(text) && |text| <= max
    ensures IsLongestTail(text, [], max, text)
  {
    assert text[0..] == text;
  }

  lemma FittingSuffixIsRendered(text: Bytes, max: nat)
    requires Valid(text) && |text| > max > 0
    ensures FittingSuffix(text, max) == Render(text, max)
  {
    assert text + [] == text;
    var dropped, kept := RenderFrom(text, [], max);
    assert text[|dropped|..] == kept;
  }

  /**
   Bytes that do not begin well-formed text are decoded with replacements, and
   the rendered tail is the longest that fits of the decoded text.
   */
  lemma RenderOfIllFormed(bytes: Bytes, max: nat)
    requires max > 0 && !PrefixOfValid(bytes[TailStart(bytes, max)..])
    ensures IsLongestTail(Lossy(bytes[TailStart(bytes, max)..]), [], max, Render(bytes, max))
  {
    var s := bytes[TailStart(bytes, max)..];
    PrefixIffCutTail(s);
    assert RenderText(s, max) == FittingSuffix(Lossy(s), max);
    LossyIsValid(s);
    FittingSuffixIsLongestTail(Lossy(s), max);
  }

  lemma LongestTailOfParts(text: Bytes, cut: Bytes, max: nat)
    requires Valid(text) && (cut == [] || IsCut(cut))
    ensures IsLongestTail(text, cut, max, Render(text + cut, max))
  {
    if max > 0 {
      var dropped, kept := RenderFrom(text, cut, max);
      NoLongerTail(text, cut, max, |dropped|);
      TailFits(text, cut, max);
    }
  }

  lemma TailFits(text: Bytes, cut: Bytes, max: nat)
    requires cut == [] || IsCut(cut)
    ensures var start := TailStart(text + cut, max);
            start < |text| ==> |text| - start + |cut| <= max
  {
  }

  /** Where the rendering cuts the text. */
  lemma RenderFrom(text: Bytes, cut: Bytes, max: nat) returns (dropped: Bytes, kept: Bytes)
    requires Valid(text) && (cut == [] || IsCut(cut)) && max > 0
    ensures text == dropped + kept && Valid(kept) && Render(text + cut, max) == kept
    ensures |dropped| == Min(TailStart(text + cut, max), |text|)
  {
    var start := TailStart(text + cut, max);
    StartsAtBoundary(text, cut, start);
    if start <= |text| {
      dropped, kept := text[..start], text[start..];
      ValidSplit(text, start);
      assert dropped + kept == text;
      RenderOfSplit(dropped, kept, cut, max);
    } else {
      dropped, kept := text, [];
      RenderOfNothing(text + cut, max);
    }
  }

  lemma RenderOfNothing(bytes: Bytes, max: nat)
    requires TailStart(bytes, max) == |bytes|
    ensures Render(bytes, max) == []
  {
    assert bytes[|bytes|..] == [];
  }

  lemma RenderOfSplit(dropped: Bytes, kept: Bytes, cut: Bytes, max: nat)
    requires Valid(kept) && (cut == [] || IsCut(cut)) && max > 0
    requires TailStart(dropped + kept + cut, max) == |dropped|
    ensures Render(dropped + kept + cut, max) == kept
  {
    Associate(dropped, kept, cut);
    DropFront(dropped, kept + cut);
    RenderOfParts(kept, cut, max);
  }

  lemma DropFront(a: Bytes, b: Bytes)
    ensures (a + b)[|a|..] == b
  {
  }

  /** A position without a continuation byte is a boundary of the text or the very end. */
  lemma StartsAtBoundary(text: Bytes, cut: Bytes, start: nat)
    requires cut == [] || IsCut(cut)
    requires start <= |text + cut| && (start == |text + cut| || !IsTail((text + cut)[start]))
    ensures if start <= |text| then IsBoundary(text, start) else start == |text + cut|
  {
    if cut != [] { CutHasNoChar(cut); }
  }

  lemma RenderOfParts(text: Bytes, cut: Bytes, max: nat)
    requires Valid(text) && (cut == [] || IsCut(cut))
    ensures RenderText(text + cut, max) == text
  {
    if cut != [] { CutHasNoChar(cut); }
    ValidConcat(text, cut);
    assert (text + cut)[|text|..] == cut && (text + cut)[..|text|] == text;
  }

  /** Between the cut-off and the start of the rendered tail no character begins. */
  lemma NoLongerTail(text: Bytes, cut: Bytes, max: nat, p: nat)
    requires p <= |text| && 0 < max && p <= TailStart(text + cut, max)
    ensures forall j :: 0 <= j < p && Valid(text[j..]) ==> |text| - j + |cut| > max
  {
    forall j | 0 <= j < p && Valid(text[j..])
      ensures |text| - j + |cut| > max
    {
      CharTails(text[j..], 0);
      assert (text + cut)[j] == text[j..][0];
    }
  }

  // ---- the retained buffer ----

  datatype Output = Output(bytes: Bytes, truncated: bool)

  /** How many bytes are kept for a limit: three more, so that a cut character can be skipped. */
  function Retained(limit: u64): nat {
    if limit == 0 then 0 else Min(limit + 3, USIZE_MAX)
  }

  function LastBytes(s: Bytes, n: nat): Bytes {
    s[|s| - Min(n, |s|)..]
  }

  /** What a buffer that kept everything would hand to the renderer. */
  function Unbounded(stream: Bytes, limit: Option<u64>): Output {
    match limit
    case None => Output(stream, false)
    case Some(max) => Output(LastBytes(stream, Retained(max)), |stream| > Retained(max))
  }

  /** One append and trim, as a function on the buffer. */
  function AppendChunk(o: Output, chunk: Bytes, limit: Option<u64>): Output {
    var bytes := o.bytes + chunk;
    match limit
    case None => o.(bytes := bytes)
    case Some(max) =>
      if max == 0 then Output([], o.truncated || bytes != [])
      else if |bytes| > Retained(max) then Output(bytes[|bytes| - Retained(max)..], true)
      else o.(bytes := bytes)
  }

  function AppendAll(o: Output, chunks: seq<Bytes>, limit: Option<u64>): Output {
    if chunks == [] then o
    else AppendChunk(AppendAll(o, chunks[..|chunks| - 1], limit), chunks[|chunks| - 1], limit)
  }

  function Concat(chunks: seq<Bytes>): Bytes {
    if chunks == [] then []
    else Concat(chunks[..|chunks| - 1]) + chunks[|chunks| - 1]
  }

  lemma AppendRefines(stream: Bytes, chunk: Bytes, limit: Option<u64>)
    ensures AppendChunk(Unbounded(stream, limit), chunk, limit) == Unbounded(stream + chunk, limit)
  {
    if limit.Some? {
      var n := Retained(limit.value);
      var kept := LastBytes(stream, n);
      if |kept + chunk| > n && limit.value != 0 {
        assert (kept + chunk)[|kept + chunk| - n..] == (stream + chunk)[|stream + chunk| - n..];
      } else if limit.value != 0 {
        assert kept + chunk == LastBytes(stream + chunk, n);
      }
    }
  }

  /** However the stream was cut into reads, the buffer is the retained end of the whole stream. */
  lemma {:induction false} ChunksRefineStream(chunks: seq<Bytes>, limit: Option<u64>)
    ensures AppendAll(Output([], false), chunks, limit) == Unbounded(Concat(chunks), limit)
  {
    if chunks != [] {
      var init := chunks[..|chunks| - 1];
      ChunksRefineStream(init, limit);
      AppendRefines(Concat(init), chunks[|chunks| - 1], limit);
    }
  }

  /** The buffer holds the last bytes of the stream, three more than the limit; nothing for limit zero. */
  lemma BufferHoldsLastBytes(chunks: seq<Bytes>, limit: u64)
    requires limit + 3 <= USIZE_MAX
    ensures var bytes := AppendAll(Output([], false), chunks, Some(limit)).bytes;
            var stream := Concat(chunks);
            && |bytes| == (if limit == 0 then 0 else Min(limit + 3, |stream|))
            && bytes == stream[|stream| - |bytes|..]
  {
    ChunksRefineStream(chunks, Some(limit));
  }

  // ---- terminal_output ----

  function Answer(o: Output, limit: Option<u64>): (Bytes, bool) {
    match limit
    case None => (Lossy(o.bytes), o.truncated)
    case Some(max) => (Render(o.bytes, max), o.truncated || |o.bytes| > max)
  }

  /**
   For every stream, every chunking and every limit the reported text is what
   rendering the whole stream would give, and `truncated` tells exactly
   whether the stream is longer than the limit.
   */
  lemma AnswerRefinesStream(chunks: seq<Bytes>, limit: Option<u64>)
    ensures var stream := Concat(chunks);
            Answer(AppendAll(Output([], false), chunks, limit), limit) ==
              match limit
              case None => (Lossy(stream), false)
              case Some(max) => (Render(stream, max), |stream| > max)
  {
    ChunksRefineStream(chunks, limit);
    if limit.Some? {
      RenderOfRetained(Concat(chunks), limit.value);
    }
  }

  /** What is retained is enough to render, and to tell whether the limit was exceeded. */
  lemma RenderOfRetained(stream: Bytes, limit: u64)
    ensures Render(LastBytes(stream, Retained(limit)), limit) == Render(stream, limit)
    ensures |LastBytes(stream, Retained(limit))| > limit || |stream| > Retained(limit) <==> |stream| > limit
  {
    var kept := LastBytes(stream, Retained(limit));
    var cut := |stream| - |kept|;
    assert stream[..cut] + kept == stream;
    if cut > 0 {
      RenderLooksAtTheEnd(stream[..cut], kept, limit);
    } else {
      assert kept == stream;
    }
  }

  /** The buffer as the reader tasks and `terminal_output` share it. */
  class TerminalOutput {
    const limit: Option<u64>
    var output: Bytes
    var truncated: bool
    ghost var chunks: seq<Bytes>

    ghost predicate Valid()
      reads this
    {
      Output(output, truncated) == AppendAll(Output([], false), chunks, limit)
    }

    constructor (limit: Option<u64>)
      ensures Valid() && chunks == [] && this.limit == limit
    {
      this.limit := limit;
      output, truncated, chunks := [], false, [];
    }

    method AppendTerminalOutput(chunk: Bytes)
      requires Valid()
      modifies this
      ensures Valid() && chunks == old(chunks) + [chunk]
    {
      AppendAndTrim(chunk);
      chunks := chunks + [chunk];
      assert chunks[..|chunks| - 1] == old(chunks);
    }

    method AppendAndTrim(chunk: Bytes)
      modifies this`output, this`truncated
      ensures Output(output, truncated) == AppendChunk(old(Output(output, truncated)), chunk, limit)
    {
      output := output + chunk;
      if limit.Some? {
        var max := limit.value;
        var retained := if max + 3 <= USIZE_MAX then max + 3 else USIZE_MAX;
        if max == 0 {
          if output != [] {
            truncated := true;
          }
          output := [];
        } else if |output| > retained {
          var dropLen := |output| - retained;
          output := output[dropLen..];
          truncated := true;
        }
      }
    }

    /** What the agent is told equals what the whole stream would tell. */
    method ReadTerminalOutput() returns (text: Bytes, cut: bool)
      requires Valid()
      ensures var stream := Concat(chunks);
              limit.Some? ==> text == Render(stream, limit.value) && (cut <==> |stream| > limit.value)
      ensures limit.None? ==> text == Lossy(Concat(chunks)) && !cut
    {
      var boundedByLimit := false;
      if limit.Some? {
        text := RenderUtf8SuffixWithByteLimit(output, limit.value);
        boundedByLimit := |output| > limit.value;
      } else {
        text := Lossy(output);
      }
      cut := truncated || boundedByLimit;
      AnswerRefinesStream(chunks, limit);
    }
  }
}
