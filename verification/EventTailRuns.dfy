/** What a run of polls hands out. */
module EventTailRuns {
  import opened Wrappers
  import opened Utf8
  import opened TextLines
  import opened LineStream
  import opened EventTail

  /**
   `delivered`: the lines handed out since the last switch or noticed truncation.
   `seen`: the bytes they were read from.
   */
  datatype Watch = Watch(tail: Tail, delivered: seq<string>, seen: Bytes, panicked: bool)

  const START := Watch(Tail(None, 0), [], [], false)

  predicate StartsOver(t: Tail, look: Look) {
    ActivePath(look).Some? &&
    (t.file != ActivePath(look) || (look.stat.Some? && look.stat.value < t.offset))
  }

  predicate Readable(look: Look) {
    ActivePath(look).Some? && look.stat.Some? && look.content.Some? && Valid(look.content.value)
  }

  function Follow(w: Watch, look: Look): Watch {
    var (tail, polled) := Poll(w.tail, look);
    var w0 := if StartsOver(w.tail, look) then Watch(tail, [], [], w.panicked) else w.(tail := tail);
    match polled
    case Idle => w0
    case Panic => w0.(panicked := true)
    case Read(lines) =>
      w0.(delivered := w0.delivered + lines,
          seen := if Readable(look) && look.stat.value != |w0.seen| then look.content.value else w0.seen)
  }

  function Earlier(looks: seq<Look>): (r: seq<Look>)
    requires looks != []
    ensures |r| < |looks| && r + [Last(looks)] == looks
  {
    looks[..|looks| - 1]
  }

  function Last(looks: seq<Look>): Look
    requires looks != []
  {
    looks[|looks| - 1]
  }

  function FollowAll(w: Watch, looks: seq<Look>): Watch {
    if looks == [] then w else Follow(FollowAll(w, Earlier(looks)), Last(looks))
  }

  lemma OneMore(looks: seq<Look>, look: Look)
    ensures Earlier(looks + [look]) == looks && Last(looks + [look]) == look
  {
  }

  /** Nothing but whole lines of well-formed text. */
  predicate WholeLines(content: Bytes) {
    Valid(content) && Rest(Decode(content)) == ""
  }

  /** What was handed out is what the first `offset` bytes hold, each line once and in order. */
  predicate InStep(w: Watch) {
    && !w.panicked
    && |w.seen| == w.tail.offset
    && WholeLines(w.seen)
    && w.delivered == Lines(Decode(w.seen))
  }

  /** The file holds whole lines, does not grow between stat and read, and keeps what was seen unless it shrank. */
  predicate Tidy(w: Watch, look: Look) {
    Readable(look) ==>
      && look.stat.value == |look.content.value|
      && WholeLines(look.content.value)
      && (!StartsOver(w.tail, look) ==> w.seen <= look.content.value)
  }

  predicate TidyRun(w: Watch, looks: seq<Look>) {
    looks == [] || (TidyRun(w, Earlier(looks)) && Tidy(FollowAll(w, Earlier(looks)), Last(looks)))
  }

  /** Reading on from the end of whole lines. */
  lemma ReadsOn(seen: Bytes, content: Bytes)
    requires WholeLines(seen) && Valid(content) && seen <= content
    ensures IsBoundary(content, |seen|) && Valid(content[|seen|..])
    ensures Lines(Decode(content)) == Lines(Decode(seen)) + Lines(Decode(content[|seen|..]))
  {
    var more := content[|seen|..];
    assert content == seen + more;
    ValidConcat(seen, more);
    ValidSuffixIffBoundary(content, |seen|);
    DecodeConcat(seen, more);
    LinesAfterWholeLines(Decode(seen), Decode(more));
  }

  lemma NoText()
    ensures WholeLines([]) && Lines(Decode([])) == []
  {
  }

  /** One tidy poll keeps the watcher in step, and catches up with a file it could read. */
  lemma TidyPollKeepsStep(w: Watch, look: Look)
    requires InStep(w) && Tidy(w, look)
    ensures InStep(Follow(w, look))
    ensures Readable(look) ==> Follow(w, look).seen == look.content.value
  {
    if !Readable(look) {
      UnreadablePoll(w, look);
    } else if StartsOver(w.tail, look) {
      FreshPoll(w, look);
    } else {
      NextPoll(w, look);
    }
  }

  lemma UnreadablePoll(w: Watch, look: Look)
    requires InStep(w) && !Readable(look)
    ensures InStep(Follow(w, look))
  {
    NoText();
  }

  lemma FreshPoll(w: Watch, look: Look)
    requires InStep(w) && Tidy(w, look) && Readable(look) && StartsOver(w.tail, look)
    ensures InStep(Follow(w, look)) && Follow(w, look).seen == look.content.value
  {
    NoText();
    var content := look.content.value;
    assert content[0..] == content;
    assert ReadNewLines(0, look) == (|content|, Read(Lines(Decode(content))));
    assert [] + Lines(Decode(content)) == Lines(Decode(content));
  }

  lemma NextPoll(w: Watch, look: Look)
    requires InStep(w) && Tidy(w, look) && Readable(look) && !StartsOver(w.tail, look)
    ensures InStep(Follow(w, look)) && Follow(w, look).seen == look.content.value
  {
    var content := look.content.value;
    if |w.seen| == |content| {
      assert w.seen == content && w.delivered + [] == w.delivered;
      assert ReadNewLines(w.tail.offset, look) == (|content|, Read([]));
    } else {
      ReadsOn(w.seen, content);
      assert ReadNewLines(w.tail.offset, look) == (|content|, Read(Lines(Decode(content[|w.seen|..]))));
    }
  }

  lemma {:induction false} TidyRunKeepsStep(w: Watch, looks: seq<Look>)
    requires InStep(w) && TidyRun(w, looks)
    ensures InStep(FollowAll(w, looks))
    decreases |looks|
  {
    if looks != [] {
      TidyRunKeepsStep(w, Earlier(looks));
      TidyPollKeepsStep(FollowAll(w, Earlier(looks)), Last(looks));
    }
  }

  /** After a run of tidy polls, what was handed out is exactly the lines of the file last read. */
  lemma TidyRunDeliversEachLineOnce(looks: seq<Look>, last: Look)
    requires TidyRun(START, looks + [last]) && Readable(last)
    ensures var w := FollowAll(START, looks + [last]);
            && !w.panicked
            && w.tail == Tail(ActivePath(last), |last.content.value|)
            && w.delivered == Lines(Decode(last.content.value))
  {
    NoText();
    OneMore(looks, last);
    TidyRunKeepsStep(START, looks);
    TidyPollKeepsStep(FollowAll(START, looks), last);
    TailFollows(FollowAll(START, looks), last);
  }

  lemma TailFollows(w: Watch, look: Look)
    requires Readable(look)
    ensures Follow(w, look).tail.file == ActivePath(look)
  {
  }

  // ---- files that are only appended to ----

  predicate SameFile(a: Look, b: Look) {
    Readable(a) && Readable(b) && ActivePath(a) == ActivePath(b)
  }

  /** Writers append whole lines, and no poll sees a file growing. */
  ghost predicate OnlyAppended(looks: seq<Look>) {
    && (forall i :: 0 <= i < |looks| && Readable(looks[i]) ==>
          looks[i].stat.value == |looks[i].content.value| && WholeLines(looks[i].content.value))
    && (forall i, j :: 0 <= i < j < |looks| && SameFile(looks[i], looks[j]) ==>
          looks[i].content.value <= looks[j].content.value)
  }

  /** What was seen is the content of an earlier look at the current file. */
  ghost predicate SeenIn(w: Watch, looks: seq<Look>) {
    w.seen != [] ==>
      exists i :: 0 <= i < |looks| && Readable(looks[i]) && ActivePath(looks[i]) == w.tail.file
                  && looks[i].content.value == w.seen
  }

  lemma FollowRemembers(w: Watch, looks: seq<Look>, look: Look)
    requires SeenIn(w, looks)
    ensures SeenIn(Follow(w, look), looks + [look])
  {
    var w', all := Follow(w, look), looks + [look];
    if w'.seen != [] {
      if w'.seen == w.seen && w'.tail.file == w.tail.file {
        var i :| 0 <= i < |looks| && Readable(looks[i]) && ActivePath(looks[i]) == w.tail.file
                 && looks[i].content.value == w.seen;
        assert all[i] == looks[i];
      } else {
        assert all[|looks|] == look;
      }
    }
  }

  lemma {:induction false} OnlyAppendedIsTidy(looks: seq<Look>)
    requires OnlyAppended(looks)
    ensures TidyRun(START, looks) && SeenIn(FollowAll(START, looks), looks)
    decreases |looks|
  {
    if looks != [] {
      var before, look := Earlier(looks), Last(looks);
      OnlyAppendedIsTidy(before);
      var w := FollowAll(START, before);
      FollowRemembers(w, before, look);
      if Readable(look) && !StartsOver(w.tail, look) && w.seen != [] {
        var i :| 0 <= i < |before| && Readable(before[i]) && ActivePath(before[i]) == w.tail.file
                 && before[i].content.value == w.seen;
        assert SameFile(looks[i], looks[|before|]);
      }
    }
  }

  /** Append-only files: every line of the active file is handed out once and in order. */
  lemma AppendedLinesAreDeliveredOnce(looks: seq<Look>, last: Look)
    requires OnlyAppended(looks + [last]) && Readable(last)
    ensures FollowAll(START, looks + [last]).delivered == Lines(Decode(last.content.value))
    ensures !FollowAll(START, looks + [last]).panicked
  {
    OnlyAppendedIsTidy(looks + [last]);
    TidyRunDeliversEachLineOnce(looks, last);
  }

  // ---- what goes wrong otherwise, exactly ----

  lemma {:induction false} NoLineIffNoText(s: string)
    ensures Lines(s) == [] <==> s == ""
    decreases |s|
  {
    if '\n' in s {
      var line, more := TextLines.Uncons(s);
      CompleteCons(line, more);
      assert |Complete(s)| > 0;
    } else {
      NoNewlineNoLine(s);
    }
  }

  lemma DecodesToNothing(s: Bytes)
    requires Valid(s)
    ensures Decode(s) == "" <==> s == []
  {
  }

  /**
   When the file grows between stat and read, the next quiet poll hands out the
   new lines again: every line comes once if and only if nothing grew.
   */
  lemma GrowthIsDeliveredTwice(w: Watch, look: Look, quiet: Look)
    requires InStep(w) && Readable(look) && !StartsOver(w.tail, look) && w.seen <= look.content.value
    requires |w.seen| < look.stat.value <= |look.content.value|
    requires WholeLines(look.content.value[..look.stat.value])
    requires quiet == look.(stat := Some(|look.content.value|))
    ensures var text := Decode(look.content.value);
            var grown := Decode(look.content.value[look.stat.value..]);
            var after := Follow(Follow(w, look), quiet);
            && after.delivered == Lines(text) + Lines(grown)
            && (after.delivered == Lines(text) <==> look.stat.value == |look.content.value|)
  {
    var content, n := look.content.value, look.stat.value;
    ReadsOn(w.seen, content);
    ReadsOn(content[..n], content);
    var w1 := Follow(w, look);
    assert w1.delivered == Lines(Decode(content));
    NoLineIffNoText(Decode(content[n..]));
    DecodesToNothing(content[n..]);
    assert Poll(w1.tail, quiet).1 == Read(if n == |content| then [] else Lines(Decode(content[n..])));
  }

  /**
   Polling between two writes hands out the lines of the whole if and only if
   the first write ended a line or the second wrote nothing.
   */
  lemma CutLineIsDeliveredInHalves(w: Watch, path: string, first: Bytes, more: Bytes)
    requires !IsBlank(path) && Valid(first) && Valid(more)
    requires w.tail.file != Some(Trim(path))
    ensures var w1 := Follow(w, Found(path, first));
            var w2 := Follow(w1, Found(path, first + more));
            w2.delivered == Lines(Decode(first + more)) <==> (WholeLines(first) || more == [])
  {
    FirstLook(w, path, first);
    SecondLook(Follow(w, Found(path, first)), path, first, more);
    DecodeConcat(first, more);
    DecodesToNothing(more);
    LinesOfPartsIff(Decode(first), Decode(more));
  }

  /** A look at a file that does not change under it. */
  function Found(path: string, content: Bytes): Look {
    Look(Some(path), Some(|content|), Some(content))
  }

  /** A poll that reads on in the current file hands out what it read. */
  lemma FollowReads(w: Watch, look: Look, offset: nat, lines: seq<string>)
    requires ActivePath(look).Some? && ActivePath(look) == w.tail.file
    requires look.stat.Some? && look.stat.value >= w.tail.offset
    requires ReadNewLines(w.tail.offset, look) == (offset, Read(lines))
    ensures Follow(w, look).delivered == w.delivered + lines
  {
  }

  lemma FollowPanics(w: Watch, look: Look)
    requires ActivePath(look).Some? && ActivePath(look) == w.tail.file
    requires look.stat.Some? && look.stat.value >= w.tail.offset
    requires ReadNewLines(w.tail.offset, look).1 == Panic
    ensures Follow(w, look).panicked
  {
  }

  lemma FollowReadsOnly(w: Watch, look: Look)
    requires !w.panicked && ReadNewLines(w.tail.offset, look).1.Read?
    requires ActivePath(look).Some? && ActivePath(look) == w.tail.file
    requires look.stat.Some? && look.stat.value >= w.tail.offset
    ensures !Follow(w, look).panicked
  {
  }

  /** A poll that switches files starts over. */
  lemma FollowSwitches(w: Watch, look: Look, offset: nat, lines: seq<string>)
    requires ActivePath(look).Some? && ActivePath(look) != w.tail.file
    requires ReadNewLines(0, look) == (offset, Read(lines))
    ensures var w1 := Follow(w, look);
            && w1.tail == Tail(ActivePath(look), offset)
            && w1.delivered == lines && w1.panicked == w.panicked
  {
    assert [] + lines == lines;
  }

  /** Reading an unchanging file from an offset that ends well-formed text. */
  lemma ReadsRest(path: string, first: Bytes, more: Bytes)
    requires Valid(first) && Valid(more)
    ensures ReadNewLines(|first|, Found(path, first + more)) == (|first + more|, Read(Lines(Decode(more))))
  {
    NoText();
    if more != [] {
      ValidConcat(first, more);
      assert (first + more)[|first|..] == more;
      ValidSuffixIffBoundary(first + more, |first|);
    }
  }

  lemma ReadsAll(path: string, content: Bytes)
    requires Valid(content)
    ensures ReadNewLines(0, Found(path, content)) == (|content|, Read(Lines(Decode(content))))
  {
    ReadsRest(path, [], content);
    assert [] + content == content;
  }

  lemma FirstLook(w: Watch, path: string, content: Bytes)
    requires !IsBlank(path) && Valid(content)
    requires w.tail.file != Some(Trim(path))
    ensures var w1 := Follow(w, Found(path, content));
            && w1.tail == Tail(Some(Trim(path)), |content|)
            && w1.delivered == Lines(Decode(content)) && w1.panicked == w.panicked
  {
    ReadsAll(path, content);
    FollowSwitches(w, Found(path, content), |content|, Lines(Decode(content)));
  }

  lemma SecondLook(w1: Watch, path: string, first: Bytes, more: Bytes)
    requires !IsBlank(path) && Valid(first) && Valid(more)
    requires w1.tail == Tail(Some(Trim(path)), |first|)
    ensures Follow(w1, Found(path, first + more)).delivered == w1.delivered + Lines(Decode(more))
  {
    ReadsRest(path, first, more);
    FollowReads(w1, Found(path, first + more), |first + more|, Lines(Decode(more)));
  }

  /**
   A rewrite that does not shrink the file goes unnoticed: reading on stops the
   watcher if and only if the old offset falls inside a character of the new text.
   */
  lemma UnnoticedRewritePanics(w: Watch, path: string, content: Bytes)
    requires !IsBlank(path) && Valid(content)
    requires !w.panicked && w.tail.file == Some(Trim(path)) && w.tail.offset < |content|
    ensures var w1 := Follow(w, Found(path, content));
            && (w1.panicked <==> !Valid(content[w.tail.offset..]))
            && (!w1.panicked ==> w1.delivered == w.delivered + Lines(Decode(content[w.tail.offset..])))
  {
    ValidSuffixIffBoundary(content, w.tail.offset);
    var look, offset := Found(path, content), w.tail.offset;
    if Valid(content[offset..]) {
      assert ReadNewLines(offset, look) == (|content|, Read(Lines(Decode(content[offset..]))));
      FollowReads(w, look, |content|, Lines(Decode(content[offset..])));
      FollowReadsOnly(w, look);
    } else {
      assert ReadNewLines(offset, look).1 == Panic;
      FollowPanics(w, look);
    }
  }
}
