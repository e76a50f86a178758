/**
 Tailing the events file.  A poll reads the marker, stats the active file and
 then reads it; the file system may change between any two of these.
 */
module EventTail {
  import opened Wrappers
  import opened Utf8
  import opened TextLines
  import opened LineStream

  /** What one poll finds: the marker's text, the stat'd length, the bytes read. */
  datatype Look = Look(marker: Option<string>, stat: Option<nat>, content: Option<Bytes>)

  datatype Tail = Tail(file: Option<string>, offset: nat)

  /** `Panic`: the text was sliced inside a character. */
  datatype Polled = Idle | Read(lines: seq<string>) | Panic

  datatype EventRecord = EventRecord(
    ts: string, iteration: nat, hat: string, topic: string, triggered: Option<string>)

  type Parser = string -> Option<EventRecord>

  function ActivePath(look: Look): Option<string> {
    if look.marker.None? || IsBlank(look.marker.value) then None else Some(Trim(look.marker.value))
  }

  function ReadNewLines(offset: nat, look: Look): (nat, Polled) {
    if look.stat.None? then (offset, Idle)
    else
      var from := if look.stat.value < offset then 0 else offset;
      if look.stat.value == from then (from, Read([]))
      else if look.content.None? || !Valid(look.content.value) then (from, Idle)
      else if from >= |look.content.value| then (look.stat.value, Read([]))
      else if !IsBoundary(look.content.value, from) then (from, Panic)
      else (look.stat.value, Read(Lines(Decode(look.content.value[from..]))))
  }

  function Poll(t: Tail, look: Look): (Tail, Polled) {
    var active := ActivePath(look);
    if active.None? then (t, Idle)
    else
      var (offset, polled) := ReadNewLines(if t.file == active then t.offset else 0, look);
      (Tail(active, offset), polled)
  }

  /** The records of the lines that are neither blank, unparseable nor without a topic. */
  function Published(lines: seq<string>, parse: Parser): seq<EventRecord> {
    if lines == [] then []
    else
      var record := parse(lines[0]);
      (if IsBlank(lines[0]) || record.None? || record.value.topic == "" then [] else [record.value])
      + Published(lines[1..], parse)
  }

  lemma {:induction false} PublishedConcat(a: seq<string>, b: seq<string>, parse: Parser)
    ensures Published(a + b, parse) == Published(a, parse) + Published(b, parse)
    decreases |a|
  {
    if a == [] {
      assert a + b == b;
    } else {
      assert (a + b)[1..] == a[1..] + b;
      PublishedConcat(a[1..], b, parse);
    }
  }

  method PublishLines(lines: seq<string>, parse: Parser) returns (published: seq<EventRecord>)
    ensures published == Published(lines, parse)
  {
    published := [];
    for i := 0 to |lines|
      invariant published == Published(lines[..i], parse)
    {
      assert lines[..i + 1] == lines[..i] + [lines[i]];
      PublishedConcat(lines[..i], [lines[i]], parse);
      if !IsBlank(lines[i]) {
        var record := parse(lines[i]);
        if record.Some? && record.value.topic != "" {
          published := published + [record.value];
        }
      }
    }
    assert lines[..|lines|] == lines;
  }

  class EventWatcher {
    var currentFile: Option<string>
    var offset: nat

    ghost function State(): Tail reads this {
      Tail(currentFile, offset)
    }

    constructor ()
      ensures State() == Tail(None, 0)
    {
      currentFile, offset := None, 0;
    }

    method ReadLines(look: Look) returns (polled: Polled)
      modifies this
      ensures currentFile == old(currentFile)
      ensures (offset, polled) == ReadNewLines(old(offset), look)
    {
      if look.stat.None? {
        return Idle;
      }
      var fileLen := look.stat.value;
      if fileLen < offset {
        offset := 0;
      }
      if fileLen == offset {
        return Read([]);
      }
      if look.content.None? || !Valid(look.content.value) {
        return Idle;
      }
      var content := look.content.value;
      var all := [];
      if offset < |content| {
        if !IsBoundary(content, offset) {
          return Panic;
        }
        all := Lines(Decode(content[offset..]));
      }
      var lines := [];
      for i := 0 to |all|
        invariant lines == all[..i]
      {
        lines := lines + [all[i]];
      }
      assert lines == all;
      offset := fileLen;
      polled := Read(lines);
    }

    method PollOnce(look: Look, parse: Parser) returns (polled: Polled, published: seq<EventRecord>)
      modifies this
      ensures (State(), polled) == Poll(old(State()), look)
      ensures published == if polled.Read? then Published(polled.lines, parse) else []
    {
      var active := ActivePath(look);
      if active.None? {
        return Idle, [];
      }
      if currentFile != active {
        currentFile, offset := active, 0;
      }
      polled := ReadLines(look);
      if polled.Read? {
        published := PublishLines(polled.lines, parse);
      } else {
        published := [];
      }
    }
  }

  // ---- which records appear ----

  /** The line is not blank and parses to the record, which has a topic. */
  predicate Carries(line: string, parse: Parser, record: EventRecord) {
    !IsBlank(line) && parse(line) == Some(record) && record.topic != ""
  }

  lemma PublishedOne(line: string, parse: Parser)
    ensures |Published([line], parse)| <= 1
    ensures forall r :: r in Published([line], parse) <==> Carries(line, parse, r)
  {
    assert [line][1..] == [];
  }

  /** Exactly the records that some line carries are published. */
  lemma {:induction false} PublishedIffCarried(lines: seq<string>, parse: Parser, record: EventRecord)
    ensures record in Published(lines, parse) <==> exists i :: 0 <= i < |lines| && Carries(lines[i], parse, record)
    decreases |lines|
  {
    if lines != [] {
      PublishedIffCarried(lines[1..], parse, record);
      PublishedOne(lines[0], parse);
      assert [lines[0]] + lines[1..] == lines;
      PublishedConcat([lines[0]], lines[1..], parse);
      if i :| 0 <= i < |lines| && Carries(lines[i], parse, record) {
        if i > 0 { assert lines[1..][i - 1] == lines[i]; }
      }
    }
  }

  /** The lines that carry a record. */
  function Carriers(lines: seq<string>, parse: Parser): seq<string> {
    if lines == [] then []
    else
      (if IsBlank(lines[0]) || parse(lines[0]).None? || parse(lines[0]).value.topic == "" then [] else [lines[0]])
      + Carriers(lines[1..], parse)
  }

  /** One record for each of them, in their order. */
  lemma {:induction false} PublishedInOrder(lines: seq<string>, parse: Parser)
    ensures |Published(lines, parse)| == |Carriers(lines, parse)|
    ensures forall i :: 0 <= i < |Carriers(lines, parse)| ==>
              Carries(Carriers(lines, parse)[i], parse, Published(lines, parse)[i])
    decreases |lines|
  {
    if lines != [] {
      PublishedInOrder(lines[1..], parse);
    }
  }

  /** The marker names the file with or without white space around it. */
  lemma MarkerNames(before: string, path: string, after: string, look: Look)
    requires AllSpace(before) && AllSpace(after) && path != ""
    requires !IsSpace(path[0]) && !IsSpace(path[|path| - 1])
    requires look.marker == Some(before + path + after)
    ensures ActivePath(look) == Some(path)
  {
    TrimOfPadded(before, path, after);
  }

  /** A file that cannot be stat'd or read is tried again from the same place, or from its start once it shrank. */
  lemma FailedReadKeepsPlace(offset: nat, look: Look)
    requires look.stat.None? || look.content.None? || !Valid(look.content.value)
    ensures var (offset', polled) := ReadNewLines(offset, look);
            && offset' == (if look.stat.Some? && look.stat.value < offset then 0 else offset)
            && (polled == Idle || polled == Read([]))
  {
  }

  /** A file that shrank between stat and read: nothing is handed out, and the stat'd length is believed. */
  lemma ShrunkWhileReading(offset: nat, look: Look)
    requires look.stat.Some? && look.content.Some? && Valid(look.content.value)
    requires |look.content.value| <= offset < look.stat.value
    ensures ReadNewLines(offset, look) == (look.stat.value, Read([]))
  {
  }
}
