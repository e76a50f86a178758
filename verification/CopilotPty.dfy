/**
 The Copilot branch of the PTY loop: a line buffer fed with chunks, each line
 parsed and dispatched as soon as it is complete.
 */
module CopilotPty {
  import opened Utf8
  import opened TextLines
  import opened LineStream
  import opened Handler
  import opened Copilot

  class CopilotPtyStream {
    const stream: CopilotStream
    const handler: Recorder
    const json: JsonParser
    var lineBuffer: string
    ghost var chunks: seq<Bytes>

    ghost function Abs(): Progress
      reads stream, handler
    {
      Progress(stream.Abs(), stream.extractedText, handler.log)
    }

    ghost predicate Valid()
      reads this, stream, handler
    {
      && Abs() == HandleLines(json, NEW_PROGRESS, Fed(chunks).0)
      && lineBuffer == Fed(chunks).1
    }

    constructor (json: JsonParser)
      ensures Valid() && chunks == [] && this.json == json
      ensures fresh(stream) && fresh(handler)
    {
      stream := new CopilotStream();
      handler := new Recorder();
      this.json := json;
      lineBuffer, chunks := "", [];
    }

    method OnLine(line: string)
      modifies stream, handler
      ensures Abs() == HandleLine(json, old(Abs()), line)
    {
      var event := ParseLine(json, line);
      if event.Some? {
        var _ := stream.OnEvent(event.value, handler);
      }
    }

    /** A read from the terminal: complete lines are dispatched at once. */
    method OnData(data: Bytes)
      requires Valid()
      modifies this, stream, handler
      ensures Valid() && chunks == old(chunks) + [data]
    {
      if Utf8.Valid(data) {
        FedMore(chunks, data);
        lineBuffer := lineBuffer + Decode(data);
        HandleConcat(json, NEW_PROGRESS, Fed(chunks).0, Complete(lineBuffer));
        TakeLines();
      } else {
        SkippedChunk(chunks, data);
      }
      chunks := chunks + [data];
    }

    /** Dispatches every complete line of the buffer. */
    method TakeLines()
      modifies this`lineBuffer, stream, handler
      ensures Abs() == HandleLines(json, old(Abs()), Complete(old(lineBuffer)))
      ensures lineBuffer == Rest(old(lineBuffer))
    {
      ghost var text := lineBuffer;
      while '\n' in lineBuffer
        invariant HandleLines(json, Abs(), Complete(lineBuffer))
                  == HandleLines(json, old(Abs()), Complete(text))
        invariant Rest(lineBuffer) == Rest(text)
        decreases |lineBuffer|
      {
        var newline := FirstNewline(lineBuffer);
        var line := lineBuffer[..newline];
        TakeLine(lineBuffer);
        HandleFirst(json, Abs(), line, Complete(lineBuffer[newline + 1..]));
        lineBuffer := lineBuffer[newline + 1..];
        OnLine(line);
      }
      NoNewlineNoLine(lineBuffer);
    }

    /**
     End of the stream: what is left without a newline is a line too.  The text
     accumulated live is then what batch extraction yields on the text that
     arrived, and on the whole stream when no chunk cut a character.
     */
    method OnEof()
      requires Valid()
      modifies this, stream, handler
      ensures Abs() == HandleLines(json, NEW_PROGRESS, PtyLines(old(chunks)))
      ensures stream.extractedText == ExtractLines(json, Lines(TextOf(old(chunks))))
      ensures (forall c :: c in old(chunks) ==> Utf8.Valid(c)) ==>
                stream.extractedText == ExtractLines(json, Lines(Decode(Joined(old(chunks)))))
    {
      HandleConcat(json, NEW_PROGRESS, Fed(chunks).0, LastLine(lineBuffer));
      if lineBuffer != "" {
        HandleFirst(json, Abs(), lineBuffer, []);
        assert [lineBuffer] + [] == [lineBuffer];
        OnLine(lineBuffer);
      }
      LiveTextIsBatchText(json, chunks);
    }
  }
}
