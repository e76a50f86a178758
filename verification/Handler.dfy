/** What a stream tells the handler that shows it. */
module Handler {
  import opened Words
  import Json

  datatype SessionResult = SessionResult(
    numTurns: u32,
    isError: bool,
    inputTokens: u64,
    outputTokens: u64,
    cacheReadTokens: u64,
    cacheWriteTokens: u64)

  datatype Callback =
    | OnText(text: string)
    | OnToolCall(name: string, id: string, args: Json.Value)
    | OnToolResult(id: string, output: string)
    | OnError(message: string)
    | OnComplete(result: SessionResult)

  /** A handler that only remembers. */
  class Recorder {
    var log: seq<Callback>

    constructor ()
      ensures log == []
    {
      log := [];
    }

    method Tell(callback: Callback)
      modifies this
      ensures log == old(log) + [callback]
    {
      log := log + [callback];
    }
  }
}
