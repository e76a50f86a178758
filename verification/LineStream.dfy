/**
 Two ways of cutting a byte stream into lines: the PTY loop keeps a text buffer
 and is handed arbitrary chunks; the CLI reads whole lines of bytes.
 */
module LineStream {
  import opened Sequences
  import opened Wrappers
  import opened Utf8
  import opened TextLines

  // ---- decoding well-formed text ----

  /** The scalar value of one well-formed character, RFC 3629 section 3. */
  function DecodeChar(c: Bytes): char
    requires IsChar(c)
  {
    var lead: int := c[0];
    var n := if |c| == 1 then lead
             else if |c| == 2 then (lead - 0xC0) * 0x40 + Low6(c[1])
             else if |c| == 3 then (lead - 0xE0) * 0x1000 + Low6(c[1]) * 0x40 + Low6(c[2])
             else (lead - 0xF0) * 0x40000 + Low6(c[1]) * 0x1000 + Low6(c[2]) * 0x40 + Low6(c[3]);
    n as char
  }

  /** The payload of a continuation byte. */
  function Low6(b: int): int {
    b - 0x80
  }

  /** The text of the longest well-formed prefix. */
  function Decode(s: Bytes): string {
    if CharLen(s) == 0 then ""
    else FrontIsChar(s); [DecodeChar(s[..CharLen(s)])] + Decode(s[CharLen(s)..])
  }

  const NEWLINE: byte := 0x0A

  lemma DecodesToNewline(c: Bytes)
    requires IsChar(c)
    ensures DecodeChar(c) == '\n' <==> c == [NEWLINE]
    ensures NEWLINE in c <==> c == [NEWLINE]
  {
  }

  lemma DecodeCons(c: Bytes, rest: Bytes)
    requires IsChar(c)
    ensures Decode(c + rest) == [DecodeChar(c)] + Decode(rest)
  {
    Cons(c, rest);
    assert (c + rest)[..|c|] == c;
  }

  lemma {:induction false} DecodeConcat(a: Bytes, b: Bytes)
    requires Valid(a)
    ensures Decode(a + b) == Decode(a) + Decode(b)
    decreases |a|
  {
    if a == [] {
      assert a + b == b;
    } else {
      var c, rest := Utf8.Uncons(a);
      DecodeConcat(rest, b);
      DecodePrepended(c, rest, b);
    }
  }

  lemma DecodePrepended(c: Bytes, rest: Bytes, b: Bytes)
    requires IsChar(c) && Decode(rest + b) == Decode(rest) + Decode(b)
    ensures Decode(c + rest + b) == Decode(c + rest) + Decode(b)
  {
    Associate(c, rest, b);
    DecodeCons(c, rest + b);
    DecodeCons(c, rest);
    Associate([DecodeChar(c)], Decode(rest), Decode(b));
  }

  /** Newline bytes are exactly the newlines of the text. */
  lemma {:induction false} NewlinesAgree(s: Bytes)
    requires Valid(s)
    ensures NEWLINE in s <==> '\n' in Decode(s)
    decreases |s|
  {
    if s != [] {
      var c, rest := Utf8.Uncons(s);
      DecodesToNewline(c);
      DecodeCons(c, rest);
      NewlinesAgree(rest);
    }
  }

  // ---- the CLI: whole lines of bytes ----

  function FirstNewlineByte(s: Bytes): (i: nat)
    ensures i <= |s| && (i < |s| ==> s[i] == NEWLINE)
    ensures NEWLINE !in s[..i]
  {
    if s == [] || s[0] == NEWLINE then 0 else
      var i := FirstNewlineByte(s[1..]);
      assert s[..1 + i] == [s[0]] + s[1..][..i];
      1 + i
  }

  /** Reads to the end; a line that is not well-formed text is an error. */
  function CliLines(s: Bytes): Option<seq<string>>
    decreases |s|
  {
    var i := FirstNewlineByte(s);
    var line := s[..i];
    if !Valid(line) then None
    else if i == |s| then Some(LastLine(Decode(line)))
    else
      match CliLines(s[i + 1..])
      case None => None
      case Some(more) => Some([StripCr(Decode(line))] + more)
  }

  lemma NewlineByteSplits(line: Bytes, more: Bytes)
    requires Valid(line)
    ensures Valid(line + [NEWLINE] + more) <==> Valid(more)
    ensures Decode(line + [NEWLINE] + more) == Decode(line) + "\n" + Decode(more)
  {
    var nl: Bytes := [NEWLINE];
    assert line + nl + more == line + (nl + more);
    ValidConcat(line, nl + more);
    Cons(nl, more);
    DecodeCons(nl, more);
    DecodeConcat(line, nl + more);
    DecodesToNewline(nl);
    assert Decode(line) + "\n" + Decode(more) == Decode(line) + (['\n'] + Decode(more));
  }

  /** The CLI reads exactly the lines of the text, and fails exactly when the bytes are not text. */
  lemma {:induction false} CliReadsTheLines(s: Bytes)
    ensures CliLines(s).Some? ==> Valid(s)
    ensures Valid(s) ==> CliLines(s) == Some(Lines(Decode(s)))
    decreases |s|
  {
    var i := FirstNewlineByte(s);
    var line := s[..i];
    if i == |s| {
      assert line == s;
      if Valid(s) {
        NewlinesAgree(s);
        NoNewlineNoLine(Decode(s));
        assert Lines(Decode(s)) == LastLine(Decode(s));
      }
    } else {
      var more := s[i + 1..];
      assert s == line + [NEWLINE] + more;
      if Valid(s) {
        ValidSplit(s, i);
      }
      if Valid(line) {
        NewlineByteSplits(line, more);
        CliReadsTheLines(more);
        if Valid(more) {
          NewlinesAgree(line);
          FirstOfLines(Decode(line), Decode(more));
        }
      }
    }
  }

  // ---- the PTY: a text buffer fed with chunks ----

  /** The text a chunk contributes: nothing when it is not well-formed on its own. */
  function ChunkText(chunk: Bytes): string {
    if Valid(chunk) then Decode(chunk) else ""
  }

  /** Everything the chunks contribute. */
  function TextOf(chunks: seq<Bytes>): string {
    if chunks == [] then ""
    else TextOf(chunks[..|chunks| - 1]) + ChunkText(chunks[|chunks| - 1])
  }

  function Joined(chunks: seq<Bytes>): Bytes {
    if chunks == [] then []
    else Joined(chunks[..|chunks| - 1]) + chunks[|chunks| - 1]
  }

  /** The lines fed to the processor by the chunks so far, and the buffer. */
  function Fed(chunks: seq<Bytes>): (seq<string>, string) {
    if chunks == [] then ([], "")
    else
      var (lines, buffer) := Fed(chunks[..|chunks| - 1]);
      var text := buffer + ChunkText(chunks[|chunks| - 1]);
      (lines + Complete(text), Rest(text))
  }

  lemma FedMore(chunks: seq<Bytes>, data: Bytes)
    ensures var (lines, buffer) := Fed(chunks);
            var text := buffer + ChunkText(data);
            Fed(chunks + [data]) == (lines + Complete(text), Rest(text))
  {
    assert (chunks + [data])[..|chunks|] == chunks;
  }

  /** A chunk that is not text on its own is skipped. */
  lemma SkippedChunk(chunks: seq<Bytes>, data: Bytes)
    requires !Valid(data)
    ensures Fed(chunks + [data]) == Fed(chunks)
  {
    FedMore(chunks, data);
    FedIsLinesOfText(chunks);
    RestHasNoNewline(TextOf(chunks));
    var (lines, buffer) := Fed(chunks);
    NoNewlineNoLine(buffer);
    assert buffer + "" == buffer && lines + [] == lines;
  }

  /** All lines, with the flush at the end of the stream. */
  function PtyLines(chunks: seq<Bytes>): seq<string> {
    Fed(chunks).0 + LastLine(Fed(chunks).1)
  }

  /** Each line of the text that arrived is fed once and in order, however it was chunked. */
  lemma {:induction false} FedIsLinesOfText(chunks: seq<Bytes>)
    ensures Fed(chunks) == (Complete(TextOf(chunks)), Rest(TextOf(chunks)))
  {
    if chunks == [] {
      NoNewlineNoLine("");
    } else {
      var init, last := chunks[..|chunks| - 1], chunks[|chunks| - 1];
      FedIsLinesOfText(init);
      LinesOfConcat(TextOf(init), ChunkText(last));
    }
  }

  /** When every chunk is text on its own, so is the whole stream, and nothing is lost. */
  lemma {:induction false} ValidChunksJoin(chunks: seq<Bytes>)
    requires forall c :: c in chunks ==> Valid(c)
    ensures Valid(Joined(chunks)) && Decode(Joined(chunks)) == TextOf(chunks)
  {
    if chunks != [] {
      var init, last := chunks[..|chunks| - 1], chunks[|chunks| - 1];
      ValidChunksJoin(init);
      assert last in chunks;
      ValidConcat(Joined(init), last);
      DecodeConcat(Joined(init), last);
    }
  }

  /** The same lines up to what trimming removes. */
  ghost predicate SameTrimmed(a: seq<string>, b: seq<string>) {
    |a| == |b| && forall i :: 0 <= i < |a| ==> Trim(a[i]) == Trim(b[i])
  }

  /** The PTY's lines are those of the text that arrived; it only keeps carriage returns. */
  lemma PtyLinesTrimmed(chunks: seq<Bytes>)
    ensures SameTrimmed(PtyLines(chunks), Lines(TextOf(chunks)))
  {
    FedIsLinesOfText(chunks);
    var lines := Complete(TextOf(chunks));
    forall i | 0 <= i < |lines| ensures Trim(StripCr(lines[i])) == Trim(lines[i]) {
      TrimIgnoresCr(lines[i]);
    }
  }

  /**
   For every chunking into chunks that are text on their own, the PTY loop and
   the CLI see the same lines; the PTY only keeps carriage returns.
   */
  lemma PtyAndCliReadAlike(chunks: seq<Bytes>)
    requires forall c :: c in chunks ==> Valid(c)
    ensures CliLines(Joined(chunks)).Some?
    ensures SameTrimmed(PtyLines(chunks), CliLines(Joined(chunks)).value)
  {
    ValidChunksJoin(chunks);
    PtyLinesTrimmed(chunks);
    CliReadsTheLines(Joined(chunks));
  }

  /** The chunks that are text on their own. */
  function Sound(chunks: seq<Bytes>): seq<Bytes> {
    if chunks == [] then []
    else
      var last := chunks[|chunks| - 1];
      Sound(chunks[..|chunks| - 1]) + if Valid(last) then [last] else []
  }

  lemma JoinedSnoc(chunks: seq<Bytes>, last: Bytes)
    ensures Joined(chunks + [last]) == Joined(chunks) + last
  {
    assert (chunks + [last])[..|chunks|] == chunks;
  }

  /** What survives, of any chunks, is the text of the sound ones: a chunk is kept whole or not at all. */
  lemma {:induction false} SoundChunksSurvive(chunks: seq<Bytes>)
    ensures Valid(Joined(Sound(chunks))) && TextOf(chunks) == Decode(Joined(Sound(chunks)))
  {
    if chunks != [] {
      var init, last := chunks[..|chunks| - 1], chunks[|chunks| - 1];
      SoundChunksSurvive(init);
      if Valid(last) {
        JoinedSnoc(Sound(init), last);
        ValidConcat(Joined(Sound(init)), last);
        DecodeConcat(Joined(Sound(init)), last);
      } else {
        assert Sound(init) + [] == Sound(init) && TextOf(init) + "" == TextOf(init);
      }
    }
  }

  // ---- exactly when nothing is lost ----

  /** How many characters begin in the bytes. */
  function Starts(s: Bytes): nat {
    if s == [] then 0 else Starts(s[..|s| - 1]) + if IsTail(s[|s| - 1]) then 0 else 1
  }

  lemma {:induction false} StartsConcat(a: Bytes, b: Bytes)
    ensures Starts(a + b) == Starts(a) + Starts(b)
    decreases |b|
  {
    if b == [] {
      assert a + b == a;
    } else {
      assert (a + b)[..|a + b| - 1] == a + b[..|b| - 1];
      StartsConcat(a, b[..|b| - 1]);
    }
  }

  lemma StartsOfOne(b: byte)
    ensures Starts([b]) == if IsTail(b) then 0 else 1
  {
    assert [b][..0] == [];
  }

  lemma {:induction false} OnlyTailsStartNothing(s: Bytes)
    requires forall i :: 0 <= i < |s| ==> IsTail(s[i])
    ensures Starts(s) == 0
    decreases |s|
  {
    if s != [] {
      OnlyTailsStartNothing(s[..|s| - 1]);
    }
  }

  lemma CharStartsOnce(c: Bytes)
    requires IsChar(c)
    ensures Starts(c) == 1
  {
    forall i | 0 <= i < |c| ensures IsTail(c[i]) <==> i > 0 {
      CharTails(c, i);
    }
    StartsOfOne(c[0]);
    OnlyTailsStartNothing(c[1..]);
    StartsConcat([c[0]], c[1..]);
    assert [c[0]] + c[1..] == c;
  }

  /** Well-formed text has as many characters as begin in its bytes. */
  lemma {:induction false} DecodesToStarts(s: Bytes)
    requires Valid(s)
    ensures |Decode(s)| == Starts(s)
    decreases |s|
  {
    if s != [] {
      var c, rest := Utf8.Uncons(s);
      CharStartsOnce(c);
      StartsConcat(c, rest);
      DecodeCons(c, rest);
      DecodesToStarts(rest);
    }
  }

  /** No chunk contributes more characters than begin in it. */
  lemma {:induction false} TextAtMostStarts(chunks: seq<Bytes>)
    ensures |TextOf(chunks)| <= Starts(Joined(chunks))
  {
    if chunks != [] {
      var init, last := chunks[..|chunks| - 1], chunks[|chunks| - 1];
      TextAtMostStarts(init);
      StartsConcat(Joined(init), last);
      if Valid(last) { DecodesToStarts(last); }
    }
  }

  /** Bytes that begin well-formed text, and are not empty, begin a character. */
  lemma TextStartsWithStart(s: Bytes, tail: Bytes)
    requires Valid(s + tail) && s != []
    ensures Starts(s) >= 1
  {
    CharTails(s + tail, 0);
    StartsOfOne(s[0]);
    StartsConcat([s[0]], s[1..]);
    assert [s[0]] + s[1..] == s;
  }

  /** The first chunk that is not text on its own begins at a character, which is lost. */
  lemma {:induction false} CutLosesText(chunks: seq<Bytes>, tail: Bytes)
    requires Valid(Joined(chunks) + tail) && exists c :: c in chunks && !Valid(c)
    ensures |TextOf(chunks)| < Starts(Joined(chunks))
    decreases |chunks|
  {
    var init, last := chunks[..|chunks| - 1], chunks[|chunks| - 1];
    assert forall c :: c in chunks <==> c in init || c == last;
    Associate(Joined(init), last, tail);
    StartsConcat(Joined(init), last);
    if exists c :: c in init && !Valid(c) {
      CutLosesText(init, last + tail);
      if Valid(last) { DecodesToStarts(last); }
    } else {
      ValidChunksJoin(init);
      ValidConcat(Joined(init), last + tail);
      TextStartsWithStart(last, tail);
      TextAtMostStarts(init);
    }
  }

  /**
   On a stream that is text the PTY keeps all of it if and only if every chunk
   is text on its own: any other chunking loses characters.
   */
  lemma TextSurvivesIff(chunks: seq<Bytes>)
    requires Valid(Joined(chunks))
    ensures TextOf(chunks) == Decode(Joined(chunks)) <==> forall c :: c in chunks ==> Valid(c)
    ensures (exists c :: c in chunks && !Valid(c)) ==> |TextOf(chunks)| < |Decode(Joined(chunks))|
  {
    if c :| c in chunks && !Valid(c) {
      assert Joined(chunks) + [] == Joined(chunks);
      CutLosesText(chunks, []);
      DecodesToStarts(Joined(chunks));
    } else {
      ValidChunksJoin(chunks);
    }
  }

  lemma TwoChunks(a: Bytes, b: Bytes)
    ensures Joined([a, b]) == a + b && TextOf([a, b]) == ChunkText(a) + ChunkText(b)
  {
    assert [a, b][..1] == [a] && [a][..0] == [];
    assert Joined([]) == [] && TextOf([]) == "";
    assert Joined([a]) == a && TextOf([a]) == ChunkText(a);
  }

  const LEAD: Bytes := [0xC3]
  const TRAIL: Bytes := [0xA9, NEWLINE]
  const E_ACUTE: Bytes := [0xC3, 0xA9]

  /** A character cut across two chunks is lost, although the whole stream is text. */
  lemma CutCharacterIsLost()
    ensures Valid(Joined([LEAD, TRAIL]))
    ensures CliLines(Joined([LEAD, TRAIL])).Some? && |CliLines(Joined([LEAD, TRAIL])).value| == 1
    ensures PtyLines([LEAD, TRAIL]) == []
  {
    TwoChunks(LEAD, TRAIL);
    LostOnThePty();
    assert E_ACUTE[2..] == [];
    NewlineByteSplits(E_ACUTE, []);
    assert LEAD + TRAIL == E_ACUTE + [NEWLINE] + [];
    CliReadsTheLines(LEAD + TRAIL);
    NewlinesAgree(E_ACUTE);
    FirstOfLines(Decode(E_ACUTE), "");
    NoNewlineNoLine("");
  }

  lemma LostOnThePty()
    ensures PtyLines([LEAD, TRAIL]) == []
  {
    TwoChunks(LEAD, TRAIL);
    assert CharLen(LEAD) == 0 && CharLen(TRAIL) == 0;
    NothingFed([LEAD, TRAIL]);
  }

  lemma NothingFed(chunks: seq<Bytes>)
    requires TextOf(chunks) == ""
    ensures PtyLines(chunks) == []
  {
    FedIsLinesOfText(chunks);
    NoNewlineNoLine("");
  }
}
