/** Lines and surrounding white space of Unicode text. */
module TextLines {
  import opened Sequences

  // ---- lines ----

  /** The position of the first newline, or the length of the text. */
  function FirstNewline(s: string): (i: nat)
    ensures i <= |s| && (i < |s| ==> s[i] == '\n')
    ensures '\n' !in s[..i]
  {
    if s == "" || s[0] == '\n' then 0 else
      var i := FirstNewline(s[1..]);
      assert s[..1 + i] == [s[0]] + s[1..][..i];
      1 + i
  }

  /** The lines that end in a newline, without it. */
  function Complete(s: string): seq<string> {
    var i := FirstNewline(s);
    if i == |s| then [] else [s[..i]] + Complete(s[i + 1..])
  }

  /** What follows the last newline. */
  function Rest(s: string): string {
    var i := FirstNewline(s);
    if i == |s| then s else Rest(s[i + 1..])
  }

  function StripCr(line: string): string {
    if line != "" && line[|line| - 1] == '\r' then line[..|line| - 1] else line
  }

  function StripCrs(lines: seq<string>): (r: seq<string>)
    ensures |r| == |lines| && forall i :: 0 <= i < |r| ==> r[i] == StripCr(lines[i])
  {
    seq(|lines|, i requires 0 <= i < |lines| => StripCr(lines[i]))
  }

  function LastLine(rest: string): seq<string> {
    if rest == "" then [] else [rest]
  }

  /** Lines ended by "\n" or "\r\n", and a last one without an end. */
  function Lines(s: string): seq<string> {
    StripCrs(Complete(s)) + LastLine(Rest(s))
  }

  lemma FirstNewlineAt(a: string, b: string)
    requires '\n' !in a
    ensures FirstNewline(a + "\n" + b) == |a|
    ensures (a + "\n" + b)[..|a|] == a && (a + "\n" + b)[|a| + 1..] == b
  {
    assert (a + "\n" + b)[|a|] == '\n';
  }

  lemma CompleteCons(a: string, b: string)
    requires '\n' !in a
    ensures Complete(a + "\n" + b) == [a] + Complete(b)
    ensures Rest(a + "\n" + b) == Rest(b)
  {
    FirstNewlineAt(a, b);
  }

  lemma NoNewlineNoLine(s: string)
    requires '\n' !in s
    ensures Complete(s) == [] && Rest(s) == s
  {
  }

  /** A text either has no newline or is a first line, a newline and more. */
  lemma Uncons(s: string) returns (line: string, more: string)
    requires '\n' in s
    ensures '\n' !in line && s == line + "\n" + more
    ensures |more| < |s|
  {
    var i := FirstNewline(s);
    assert s[..|s|] == s;
    line, more := s[..i], s[i + 1..];
  }

  lemma TakeLine(s: string)
    requires '\n' in s
    ensures var i := FirstNewline(s);
            i < |s| && Complete(s) == [s[..i]] + Complete(s[i + 1..]) && Rest(s) == Rest(s[i + 1..])
  {
    var line, more := Uncons(s);
    FirstNewlineAt(line, more);
    CompleteCons(line, more);
  }

  lemma {:induction false} RestHasNoNewline(s: string)
    ensures '\n' !in Rest(s)
    decreases |s|
  {
    if '\n' in s {
      var line, more := Uncons(s);
      CompleteCons(line, more);
      RestHasNoNewline(more);
    } else {
      NoNewlineNoLine(s);
    }
  }

  /** Reading on: what was left over joins what comes next. */
  lemma {:induction false} LinesOfConcat(a: string, b: string)
    ensures Complete(a + b) == Complete(a) + Complete(Rest(a) + b)
    ensures Rest(a + b) == Rest(Rest(a) + b)
    decreases |a|
  {
    if '\n' in a {
      var line, more := Uncons(a);
      LinesOfConcat(more, b);
      ConcatStep(a, b, line, more);
    } else {
      NoNewlineNoLine(a);
    }
  }

  lemma ConcatStep(a: string, b: string, line: string, more: string)
    requires '\n' !in line && a == line + "\n" + more
    ensures Complete(a) == [line] + Complete(more) && Rest(a) == Rest(more)
    ensures Complete(a + b) == [line] + Complete(more + b) && Rest(a + b) == Rest(more + b)
  {
    assert a + b == line + "\n" + (more + b);
    CompleteCons(line, more);
    CompleteCons(line, more + b);
  }

  lemma StripCrsConcat(a: seq<string>, b: seq<string>)
    ensures StripCrs(a + b) == StripCrs(a) + StripCrs(b)
  {
  }

  /** Whole lines followed by more text. */
  lemma LinesAfterWholeLines(a: string, b: string)
    requires Rest(a) == ""
    ensures Lines(a + b) == Lines(a) + Lines(b)
  {
    LinesOfConcat(a, b);
    assert Rest(a) + b == b;
    StripCrsConcat(Complete(a), Complete(b));
  }

  lemma LineCount(s: string)
    ensures |Lines(s)| == |Complete(s)| + (if Rest(s) == "" then 0 else 1)
  {
  }

  /** An unfinished line joined by text that ends it. */
  lemma CutLineEnds(cut: string, line: string, more: string)
    requires '\n' !in cut && '\n' !in line
    ensures var b := line + "\n" + more;
            |Complete(cut + b)| == |Complete(b)| && Rest(cut + b) == Rest(b)
  {
    CompleteCons(line, more);
    Associate(cut, line, "\n");
    Associate(cut, line + "\n", more);
    CompleteCons(cut + line, more);
  }

  lemma CutLineCounts(cut: string, b: string)
    requires '\n' !in cut && cut != "" && b != ""
    ensures |Lines(b)| == |Lines(cut + b)|
  {
    LineCount(b);
    LineCount(cut + b);
    if '\n' in b {
      var line, more := Uncons(b);
      CutLineEnds(cut, line, more);
    } else {
      NoNewlineNoLine(b);
      NoNewlineNoLine(cut + b);
    }
  }

  /** A text may be cut at the end of a line and nowhere else: a line read in two halves counts twice. */
  lemma LinesOfPartsIff(a: string, b: string)
    ensures Lines(a) + Lines(b) == Lines(a + b) <==> (Rest(a) == "" || b == "")
  {
    if Rest(a) == "" {
      LinesAfterWholeLines(a, b);
    } else if b == "" {
      assert a + b == a;
    } else {
      LinesOfConcat(a, b);
      RestHasNoNewline(a);
      CutLineCounts(Rest(a), b);
      LineCount(a);
      LineCount(a + b);
      LineCount(Rest(a) + b);
      assert |Lines(a) + Lines(b)| == |Lines(a + b)| + 1;
    }
  }

  // ---- white space ----

  /** The Unicode White_Space property. */
  predicate IsSpace(c: char) {
    var n := c as int;
    || 0x09 <= n <= 0x0D || n == 0x20 || n == 0x85 || n == 0xA0 || n == 0x1680
    || 0x2000 <= n <= 0x200A || n == 0x2028 || n == 0x2029 || n == 0x202F
    || n == 0x205F || n == 0x3000
  }

  function TrimEnd(s: string): string {
    if s != "" && IsSpace(s[|s| - 1]) then TrimEnd(s[..|s| - 1]) else s
  }

  function TrimStart(s: string): string {
    if s != "" && IsSpace(s[0]) then TrimStart(s[1..]) else s
  }

  function Trim(s: string): string {
    TrimStart(TrimEnd(s))
  }

  predicate IsBlank(s: string) {
    Trim(s) == ""
  }

  /** A trailing carriage return never shows after trimming. */
  lemma TrimIgnoresCr(line: string)
    ensures Trim(StripCr(line)) == Trim(line)
  {
  }

  /** Nothing but white space. */
  predicate AllSpace(s: string) {
    forall i :: 0 <= i < |s| ==> IsSpace(s[i])
  }

  lemma {:induction false} TrimEndOfPadded(core: string, after: string)
    requires AllSpace(after) && core != "" && !IsSpace(core[|core| - 1])
    ensures TrimEnd(core + after) == core
    decreases |after|
  {
    if after == "" {
      assert core + after == core;
    } else {
      var shorter := after[..|after| - 1];
      assert (core + after)[..|core + after| - 1] == core + shorter;
      TrimEndOfPadded(core, shorter);
    }
  }

  lemma {:induction false} TrimStartOfPadded(before: string, core: string)
    requires AllSpace(before) && core != "" && !IsSpace(core[0])
    ensures TrimStart(before + core) == core
    decreases |before|
  {
    if before == "" {
      assert before + core == core;
    } else {
      assert (before + core)[1..] == before[1..] + core;
      TrimStartOfPadded(before[1..], core);
    }
  }

  /** Trimming takes off the white space around, and nothing else. */
  lemma TrimOfPadded(before: string, core: string, after: string)
    requires AllSpace(before) && AllSpace(after)
    requires core != "" && !IsSpace(core[0]) && !IsSpace(core[|core| - 1])
    ensures Trim(before + core + after) == core
  {
    assert (before + core)[|before + core| - 1] == core[|core| - 1];
    TrimEndOfPadded(before + core, after);
    TrimStartOfPadded(before, core);
  }

  lemma {:induction false} BlankIffAllSpace(s: string)
    ensures IsBlank(s) <==> AllSpace(s)
    decreases |s|
  {
    if s != "" && IsSpace(s[|s| - 1]) {
      BlankIffAllSpace(s[..|s| - 1]);
      assert s == s[..|s| - 1] + [s[|s| - 1]];
    } else if s != "" {
      TrimStartKeepsEnd(s);
    }
  }

  lemma {:induction false} TrimStartKeepsEnd(s: string)
    requires s != "" && !IsSpace(s[|s| - 1])
    ensures TrimStart(s) != ""
    decreases |s|
  {
    if IsSpace(s[0]) {
      TrimStartKeepsEnd(s[1..]);
    }
  }

  /** Lines with their newlines, one after the other. */
  function Unlines(lines: seq<string>): string {
    if lines == [] then "" else lines[0] + "\n" + Unlines(lines[1..])
  }

  /** The complete lines and the rest are the text, cut at every newline. */
  lemma {:induction false} LinesMakeText(s: string)
    ensures Unlines(Complete(s)) + Rest(s) == s
    ensures '\n' !in Rest(s) && forall line :: line in Complete(s) ==> '\n' !in line
    decreases |s|
  {
    if '\n' in s {
      var line, more := Uncons(s);
      CompleteCons(line, more);
      LinesMakeText(more);
      assert Complete(s)[1..] == Complete(more);
      Associate(line + "\n", Unlines(Complete(more)), Rest(more));
    } else {
      NoNewlineNoLine(s);
    }
  }

  /** A line may end in "\n" or "\r\n", or with the text; the line end is not part of it. */
  lemma LineEnds(line: string, more: string)
    requires '\n' !in line
    ensures Lines(line + "\r" + "\n" + more) == [line] + Lines(more)
    ensures (line == "" || line[|line| - 1] != '\r') ==> Lines(line + "\n" + more) == [line] + Lines(more)
    ensures line != "" ==> Lines(line) == [line]
  {
    FirstOfLines(line + "\r", more);
    FirstOfLines(line, more);
    NoNewlineNoLine(line);
  }

  lemma FirstOfLines(line: string, more: string)
    requires '\n' !in line
    ensures Lines(line + "\n" + more) == [StripCr(line)] + Lines(more)
  {
    CompleteCons(line, more);
    StripCrsConcat([line], Complete(more));
    assert StripCrs([line]) == [StripCr(line)];
    Associate([StripCr(line)], StripCrs(Complete(more)), LastLine(Rest(more)));
  }
}
