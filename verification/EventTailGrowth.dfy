/**
 Tailing a file that grows at any moment, also between the stat and the read of
 one poll: over whole runs, exactly when each line is handed out once.
 */
module EventTailGrowth {
  import opened Wrappers
  import opened Utf8
  import opened TextLines
  import opened LineStream
  import opened EventTail
  import opened EventTailRuns

  /** A look at `path` that may read more than it stat'd; whole lines either way. */
  predicate GrowingLook(path: string, look: Look) {
    && look.marker == Some(path) && look.stat.Some? && look.content.Some?
    && look.stat.value <= |look.content.value|
    && WholeLines(look.content.value) && WholeLines(look.content.value[..look.stat.value])
  }

  /** Nothing but appending happened between two looks. */
  predicate Extends(before: Look, after: Look) {
    && before.content.Some? && after.content.Some? && after.stat.Some?
    && before.content.value <= after.content.value
    && |before.content.value| <= after.stat.value
  }

  predicate Growing(path: string, looks: seq<Look>) {
    && (forall i :: 0 <= i < |looks| ==> GrowingLook(path, looks[i]))
    && (forall i :: 0 < i < |looks| ==> Extends(looks[i - 1], looks[i]))
  }

  function PrevStat(looks: seq<Look>): Option<nat> {
    if looks == [] then Some(0) else Last(looks).stat
  }

  /** Poll `i` found more than the poll before it stat'd. */
  predicate Reading(looks: seq<Look>, i: nat)
    requires i < |looks|
  {
    looks[i].stat != PrevStat(looks[..i])
  }

  predicate SawGrowth(look: Look) {
    look.stat.Some? && look.content.Some? && look.stat.value < |look.content.value|
  }

  /** No reading poll but the last one saw the file growing. */
  predicate Clean(looks: seq<Look>) {
    forall i, j :: 0 <= i < j < |looks| && Reading(looks, i) && Reading(looks, j) ==> !SawGrowth(looks[i])
  }

  // ---- one poll ----

  /** Everything in `content` was handed out, and `extra` lines more than once. */
  predicate HandedOut(w: Watch, path: string, content: Bytes, extra: nat) {
    && w.tail.file == Some(Trim(path)) && !w.panicked
    && w.tail.offset <= |content|
    && WholeLines(content) && WholeLines(content[..w.tail.offset])
    && |w.delivered| == |Lines(Decode(content))| + extra
    && (extra == 0 ==> w.delivered == Lines(Decode(content)))
  }

  lemma ReadingCatchesUp(w: Watch, path: string, content: Bytes, look: Look)
    requires !IsBlank(path) && GrowingLook(path, look) && w.tail.file == Some(Trim(path))
    requires w.tail.offset <= |content| <= look.stat.value && content <= look.content.value
    requires WholeLines(content) && WholeLines(content[..w.tail.offset])
    requires look.stat.value != w.tail.offset
    ensures var w1 := Follow(w, look);
            && w1.tail == Tail(w.tail.file, look.stat.value) && w1.panicked == w.panicked
            && w1.delivered == w.delivered + Lines(Decode(look.content.value[w.tail.offset..]))
  {
    var from := content[..w.tail.offset];
    assert from <= look.content.value;
    ReadsOn(from, look.content.value);
    FollowReads(w, look, look.stat.value, Lines(Decode(look.content.value[w.tail.offset..])));
  }

  /** The lines of a grown file: what was handed out before, in two parts, and what is new. */
  lemma LinesOfThree(content: Bytes, offset: nat, grown: Bytes)
    requires offset <= |content| && content <= grown
    requires WholeLines(content) && WholeLines(content[..offset]) && WholeLines(grown)
    ensures Valid(content[offset..])
    ensures |Lines(Decode(content))| == |Lines(Decode(content[..offset]))| + |Lines(Decode(content[offset..]))|
    ensures |Lines(Decode(grown))| == |Lines(Decode(content[..offset]))| + |Lines(Decode(grown[offset..]))|
    ensures offset == |content| ==>
              Lines(Decode(grown)) == Lines(Decode(content)) + Lines(Decode(grown[offset..]))
  {
    ReadsOn(content[..offset], content);
    assert content[..offset] <= grown;
    ReadsOn(content[..offset], grown);
    if offset == |content| {
      assert content[..offset] == content;
    }
  }

  lemma NewIffGrown(content: Bytes, offset: nat)
    requires offset <= |content| && Valid(content[offset..])
    ensures |Lines(Decode(content[offset..]))| == 0 <==> offset == |content|
  {
    NoLineIffNoText(Decode(content[offset..]));
    DecodesToNothing(content[offset..]);
  }

  /** A reading poll hands out again what the last reading poll read beyond its stat. */
  lemma ReadingPoll(w: Watch, path: string, content: Bytes, extra: nat, look: Look) returns (again: nat)
    requires !IsBlank(path) && GrowingLook(path, look) && HandedOut(w, path, content, extra)
    requires |content| <= look.stat.value && content <= look.content.value
    requires look.stat.value != w.tail.offset
    ensures HandedOut(Follow(w, look), path, look.content.value, extra + again)
    ensures Follow(w, look).tail.offset == look.stat.value
    ensures again == 0 <==> w.tail.offset == |content|
  {
    again := |Lines(Decode(content[w.tail.offset..]))|;
    ReadingCatchesUp(w, path, content, look);
    LinesOfThree(content, w.tail.offset, look.content.value);
    NewIffGrown(content, w.tail.offset);
  }

  lemma IdlePoll(w: Watch, path: string, look: Look)
    requires !IsBlank(path) && GrowingLook(path, look) && w.tail.file == Some(Trim(path))
    requires look.stat.value == w.tail.offset
    ensures Follow(w, look).tail == w.tail && Follow(w, look).panicked == w.panicked
    ensures Follow(w, look).delivered == w.delivered
  {
    assert w.delivered + [] == w.delivered;
  }

  // ---- whole runs ----

  /** The watcher as it turns to the file. */
  function Turned(path: string): Watch {
    Watch(Tail(Some(Trim(path)), 0), [], [], false)
  }

  /** The last reading poll, if any, and what it read. */
  predicate LastReading(looks: seq<Look>, r: int) {
    && -1 <= r < |looks| && (r >= 0 ==> Reading(looks, r))
    && forall j :: r < j < |looks| ==> !Reading(looks, j)
  }

  function ReadBy(looks: seq<Look>, r: int): Bytes
    requires r < |looks|
  {
    if r >= 0 && looks[r].content.Some? then looks[r].content.value else []
  }

  lemma ReadingEarlier(looks: seq<Look>, look: Look)
    ensures forall i :: 0 <= i < |looks| ==> (Reading(looks + [look], i) <==> Reading(looks, i))
    ensures Reading(looks + [look], |looks|) <==> look.stat != PrevStat(looks)
  {
    assert (looks + [look])[..|looks|] == looks;
    forall i | 0 <= i < |looks| ensures Reading(looks + [look], i) <==> Reading(looks, i) {
      assert (looks + [look])[..i] == looks[..i];
    }
  }

  /** Whether one more poll keeps the run clean depends on the last reading poll alone. */
  lemma CleanStep(looks: seq<Look>, look: Look, r: int)
    requires LastReading(looks, r)
    ensures look.stat == PrevStat(looks) ==>
              LastReading(looks + [look], r) && (Clean(looks + [look]) <==> Clean(looks))
    ensures look.stat != PrevStat(looks) ==>
              && LastReading(looks + [look], |looks|)
              && (Clean(looks + [look]) <==> Clean(looks) && (r >= 0 ==> !SawGrowth(looks[r])))
  {
    var all := looks + [look];
    ReadingEarlier(looks, look);
    if Clean(all) {
      forall i, j | 0 <= i < j < |looks| && Reading(looks, i) && Reading(looks, j) ensures !SawGrowth(looks[i]) {
        assert Reading(all, i) && Reading(all, j) && all[i] == looks[i];
      }
      if look.stat != PrevStat(looks) && r >= 0 {
        assert Reading(all, r) && Reading(all, |looks|) && all[r] == looks[r];
      }
    }
    if Clean(looks) && (look.stat != PrevStat(looks) ==> r >= 0 ==> !SawGrowth(looks[r])) {
      forall i, j | 0 <= i < j < |all| && Reading(all, i) && Reading(all, j) ensures !SawGrowth(all[i]) {
        if j == |looks| {
          assert r >= i && Reading(looks, i) && Reading(looks, r);
        }
      }
    }
  }

  /** What a run has handed out. */
  predicate RunState(path: string, looks: seq<Look>, r: int, extra: nat) {
    var w := FollowAll(Turned(path), looks);
    && LastReading(looks, r)
    && HandedOut(w, path, ReadBy(looks, r), extra)
    && PrevStat(looks) == Some(w.tail.offset)
    && (r >= 0 ==> looks[r].stat == Some(w.tail.offset))
    && (looks != [] ==> Last(looks).content.Some? && ReadBy(looks, r) <= Last(looks).content.value)
    && (extra == 0 <==> Clean(looks))
  }

  lemma HandedOutAlike(w: Watch, w1: Watch, path: string, content: Bytes, extra: nat)
    requires HandedOut(w, path, content, extra)
    requires w1.tail == w.tail && w1.panicked == w.panicked && w1.delivered == w.delivered
    ensures HandedOut(w1, path, content, extra)
  {
  }

  lemma IdleStep(path: string, looks: seq<Look>, look: Look, r: int, extra: nat)
    requires !IsBlank(path) && RunState(path, looks, r, extra) && GrowingLook(path, look)
    requires ReadBy(looks, r) <= look.content.value && look.stat == PrevStat(looks)
    ensures RunState(path, looks + [look], r, extra)
  {
    OneMore(looks, look);
    CleanStep(looks, look, r);
    var w := FollowAll(Turned(path), looks);
    IdlePoll(w, path, look);
    HandedOutAlike(w, Follow(w, look), path, ReadBy(looks, r), extra);
    assert r >= 0 ==> (looks + [look])[r] == looks[r];
  }

  lemma ReadingStep(path: string, looks: seq<Look>, look: Look, r: int, extra: nat) returns (extra': nat)
    requires !IsBlank(path) && RunState(path, looks, r, extra) && GrowingLook(path, look)
    requires ReadBy(looks, r) <= look.content.value && |ReadBy(looks, r)| <= look.stat.value
    requires look.stat != PrevStat(looks) && (r >= 0 ==> GrowingLook(path, looks[r]))
    ensures RunState(path, looks + [look], |looks|, extra')
  {
    OneMore(looks, look);
    CleanStep(looks, look, r);
    var w, content := FollowAll(Turned(path), looks), ReadBy(looks, r);
    var again := ReadingPoll(w, path, content, extra, look);
    extra' := extra + again;
    assert r >= 0 ==> (SawGrowth(looks[r]) <==> w.tail.offset < |content|);
  }

  lemma RunStep(path: string, looks: seq<Look>, look: Look, r: int, extra: nat) returns (r': int, extra': nat)
    requires !IsBlank(path) && RunState(path, looks, r, extra)
    requires GrowingLook(path, look) && (looks != [] ==> Extends(Last(looks), look))
    requires r >= 0 ==> GrowingLook(path, looks[r])
    ensures RunState(path, looks + [look], r', extra')
  {
    assert ReadBy(looks, r) <= look.content.value && |ReadBy(looks, r)| <= look.stat.value;
    if look.stat == PrevStat(looks) {
      IdleStep(path, looks, look, r, extra);
      r', extra' := r, extra;
    } else {
      r' := |looks|;
      extra' := ReadingStep(path, looks, look, r, extra);
    }
  }

  lemma {:induction false} GrowingRun(path: string, looks: seq<Look>) returns (r: int, extra: nat)
    requires !IsBlank(path) && Growing(path, looks)
    ensures RunState(path, looks, r, extra)
    decreases |looks|
  {
    if looks == [] {
      NoText();
      var nothing: Bytes := [];
      assert nothing[..0] == nothing;
      r, extra := -1, 0;
    } else {
      var before, look := Earlier(looks), Last(looks);
      assert Growing(path, before) by {
        assert forall i :: 0 <= i < |before| ==> before[i] == looks[i];
      }
      r, extra := GrowingRun(path, before);
      assert looks == before + [look];
      r, extra := RunStep(path, before, look, r, extra);
    }
  }

  /** Turning to another file starts over, whatever was handed out before. */
  lemma {:induction false} TurningStartsOver(w: Watch, path: string, looks: seq<Look>)
    requires !IsBlank(path) && looks != [] && Growing(path, looks)
    requires w.tail.file != Some(Trim(path)) && !w.panicked
    ensures FollowAll(w, looks) == FollowAll(Turned(path), looks)
    decreases |looks|
  {
    var before := Earlier(looks);
    if before == [] {
      assert GrowingLook(path, looks[0]);
    } else {
      assert Growing(path, before) by {
        assert forall i :: 0 <= i < |before| ==> before[i] == looks[i];
      }
      TurningStartsOver(w, path, before);
    }
  }

  /**
   After turning to a file to which whole lines are appended at any moment,
   and a last poll that reads, each line of what was read last has been handed
   out once and in order if and only if no earlier reading poll saw the file
   grow between its stat and its read.
   */
  lemma EachLineOnceIffNoEarlyGrowth(w: Watch, path: string, looks: seq<Look>)
    requires !IsBlank(path) && Growing(path, looks) && w.tail.file != Some(Trim(path)) && !w.panicked
    requires looks != [] && Reading(looks, |looks| - 1)
    ensures !FollowAll(w, looks).panicked
    ensures FollowAll(w, looks).delivered == Lines(Decode(Last(looks).content.value))
       <==> forall i :: 0 <= i < |looks| - 1 && Reading(looks, i) ==> !SawGrowth(looks[i])
  {
    TurningStartsOver(w, path, looks);
    var r, extra := GrowingRun(path, looks);
    assert r == |looks| - 1;
  }
}
