/**
 Executing a request at most once per idempotency key: the response to a
 mutating request is stored as an envelope, and a retry is answered from it.
 Dispatch is an arbitrary change of the domain that yields a value or an error.
 */
module RpcReplay {
  import opened Wrappers
  import opened Json
  import opened Idempotency
  import opened RpcErrors

  datatype RpcRequest = RpcRequest(id: string, rpc: string, params: Value, idempotencyKey: Option<string>)

  /** What a caller gets. */
  datatype Outcome = Success(value: Value) | Failure(error: ApiError)

  datatype Execution = Fresh(value: Value) | ReplayOf(response: StoredResponse) | Rejected(error: ApiError)

  /** A request, who sent it, and when its check and its store happen. */
  datatype Call = Call(request: RpcRequest, principal: string, checkAt: nat, storeAt: nat, servedAt: string)

  type Dispatcher<!D> = (D, RpcRequest, string) -> (D, Outcome)

  datatype Config<!D> = Config(ttl: nat, servedBy: string, dispatch: Dispatcher<D>)

  datatype World<D> = World(domain: D, entries: Entries)

  // ---- executing ----

  function Located(outcome: Outcome, request: RpcRequest): Outcome {
    match outcome
    case Success(_) => outcome
    case Failure(e) => Failure(e.WithContext(request.id, Some(request.rpc)))
  }

  function ToStore(request: RpcRequest, outcome: Outcome, meta: Value): StoredResponse {
    match outcome
    case Success(value) => StoredResponse(200, SuccessEnvelope(request.id, request.rpc, value, meta))
    case Failure(e) => StoredResponse(e.status, ErrorEnvelope(e, meta))
  }

  function MissingKey(request: RpcRequest): ApiError {
    NewError(InvalidParams, "mutating methods require meta.idempotencyKey")
      .WithContext(request.id, Some(request.rpc))
  }

  function KeyReused(request: RpcRequest, key: string): ApiError {
    NewError(IdempotencyConflict, "idempotency key was already used with different parameters")
      .WithContext(request.id, Some(request.rpc))
      .(details := Some(Object(map["method" := String(request.rpc), "idempotencyKey" := String(key)])))
  }

  function AsExecution(outcome: Outcome): Execution {
    match outcome
    case Success(value) => Fresh(value)
    case Failure(e) => Rejected(e)
  }

  /** Dispatches, and stores the response when the request carries a new key. */
  function Dispatched<D>(c: Config<D>, w: World<D>, call: Call, newKey: Option<string>): (World<D>, Execution) {
    var (domain, outcome) := c.dispatch(w.domain, call.request, call.principal);
    var located := Located(outcome, call.request);
    var entries :=
      if newKey.None? then w.entries
      else Cleaned(w.entries, c.ttl, call.storeAt)[MakeKey(call.request.rpc, newKey.value) :=
        Entry(call.request.params, ToStore(call.request, located, ResponseMeta(c.servedBy, call.servedAt)),
              call.storeAt)];
    (World(domain, entries), AsExecution(located))
  }

  function Execute<D>(c: Config<D>, w: World<D>, call: Call): (World<D>, Execution) {
    var request := call.request;
    if !IsMutating(request.rpc) then Dispatched(c, w, call, None)
    else if request.idempotencyKey.None? then (w, Rejected(MissingKey(request)))
    else
      var key := request.idempotencyKey.value;
      var checked := w.(entries := Cleaned(w.entries, c.ttl, call.checkAt));
      match Lookup(checked.entries, MakeKey(request.rpc, key), request.params)
      case New => Dispatched(c, checked, call, Some(key))
      case Replay(response) => (checked, ReplayOf(response))
      case Conflict => (checked, Rejected(KeyReused(request, key)))
  }

  // ---- replaying ----

  function ReplayedError(request: RpcRequest, body: Value, status: nat): ApiError {
    var name := match body.Get("code") case Some(v) => v.AsString() case None => None;
    var code := (match name case Some(n) => FromContract(n) case None => None).GetOr(Internal);
    var message := (match body.Get("message") case Some(v) => v.AsString() case None => None)
                   .GetOr("stored idempotency replay failed");
    var retryable := (match body.Get("retryable") case Some(v) => v.AsBool() case None => None).GetOr(false);
    var e := NewError(code, message).WithContext(request.id, Some(request.rpc));
    e.(retryable := retryable, details := body.Get("details"), status := FromU16(status).GetOr(e.status))
  }

  function ReplayStored(request: RpcRequest, response: StoredResponse): Outcome {
    match response.envelope.Get("result")
    case Some(result) => Success(result)
    case None =>
      match response.envelope.Get("error")
      case Some(Object(fields)) => Failure(ReplayedError(request, Object(fields), response.status))
      case _ => Failure(NewError(Internal, "stored idempotency response was missing an error payload")
                        .WithContext(request.id, Some(request.rpc)))
  }

  function Answer(request: RpcRequest, execution: Execution): Outcome {
    match execution
    case Fresh(value) => Success(value)
    case ReplayOf(response) => ReplayStored(request, response)
    case Rejected(e) => Failure(e)
  }

  /** A request from inside the process. */
  function Invoke<D>(c: Config<D>, w: World<D>, call: Call): (World<D>, Outcome) {
    var (after, execution) := Execute(c, w, call);
    (after, Answer(call.request, execution))
  }

  /** The status and body of the response to a request over HTTP, stamped on its own. */
  function HttpAnswer(request: RpcRequest, execution: Execution, meta: Value): StoredResponse {
    match execution
    case Fresh(value) => StoredResponse(200, SuccessEnvelope(request.id, request.rpc, value, meta))
    case ReplayOf(response) => StoredResponse(FromU16(response.status).GetOr(200), response.envelope)
    case Rejected(e) => StoredResponse(e.status, ErrorEnvelope(e, meta))
  }

  /** The runtime itself: a domain behind locks, and the shared store. */
  class RpcRuntime<!D> {
    const c: Config<D>
    const store: InMemoryIdempotencyStore
    var domain: D

    ghost predicate Valid() reads this, store {
      store.ttl == c.ttl
    }

    ghost function View(): World<D> reads this, store {
      World(domain, store.entries)
    }

    constructor (c: Config<D>, domain: D)
      ensures Valid() && fresh(store) && View() == World(domain, map[])
    {
      this.c, this.domain := c, domain;
      store := new InMemoryIdempotencyStore(c.ttl);
    }

    method ExecuteRequest(call: Call) returns (execution: Execution)
      requires Valid()
      modifies this, store
      ensures Valid()
      ensures (View(), execution) == Execute(c, old(View()), call)
    {
      var request := call.request;
      var idempotencyContext: Option<string> := None;
      if IsMutating(request.rpc) {
        match request.idempotencyKey {
          case None =>
            return Rejected(MissingKey(request));
          case Some(key) =>
            var check := store.CheckKey(request.rpc, key, request.params, call.checkAt);
            match check {
              case Replay(response) => return ReplayOf(response);
              case Conflict => return Rejected(KeyReused(request, key));
              case New => idempotencyContext := Some(key);
            }
        }
      }
      var (domain', outcome) := c.dispatch(domain, request, call.principal);
      domain := domain';
      outcome := Located(outcome, request);
      if idempotencyContext.Some? {
        var response := ToStore(request, outcome, ResponseMeta(c.servedBy, call.servedAt));
        store.StoreResponse(request.rpc, idempotencyContext.value, request.params, response, call.storeAt);
      }
      execution := AsExecution(outcome);
    }

    method InvokeMethod(call: Call) returns (outcome: Outcome)
      requires Valid()
      modifies this, store
      ensures Valid()
      ensures (View(), outcome) == Invoke(c, old(View()), call)
    {
      var execution := ExecuteRequest(call);
      outcome := Answer(call.request, execution);
    }
  }

  // ---- round trip ----

  /** The answer as it reads for a retry with its own request identifier. */
  function Readdressed(outcome: Outcome, request: RpcRequest): Outcome {
    match outcome
    case Success(_) => outcome
    case Failure(e) => Failure(e.(requestId := request.id))
  }

  lemma BodyReadsBack(request: RpcRequest, e: ApiError)
    ensures ReplayedError(request, ErrorBody(e), e.status)
         == e.WithContext(request.id, Some(request.rpc))
  {
    var body := ErrorBody(e);
    assert body.Get("code") == Some(String(AsStr(e.code)));
    assert body.Get("message") == Some(String(e.message));
    assert body.Get("retryable") == Some(Bool(e.retryable));
    assert body.Get("details") == e.details;
    NamesAreCodes(AsStr(e.code), e.code);
  }

  /**
   Storing an answer and replaying it gives back the same value, or an error with
   the same code, message, retryability, details and status.
   */
  lemma ReplayRoundTrip(first: RpcRequest, retry: RpcRequest, outcome: Outcome, meta: Value)
    requires first.rpc == retry.rpc
    ensures ReplayStored(retry, ToStore(first, Located(outcome, first), meta))
         == Readdressed(Located(outcome, first), retry)
  {
    match Located(outcome, first) {
      case Success(value) => SuccessReadsBack(first, retry, value, meta);
      case Failure(e) => FailureReadsBack(retry, e, meta);
    }
  }

  lemma SuccessReadsBack(first: RpcRequest, retry: RpcRequest, value: Value, meta: Value)
    ensures ReplayStored(retry, ToStore(first, Success(value), meta)) == Success(value)
  {
    assert SuccessEnvelope(first.id, first.rpc, value, meta).Get("result") == Some(value);
  }

  lemma FailureReadsBack(retry: RpcRequest, e: ApiError, meta: Value)
    ensures ReplayStored(retry, StoredResponse(e.status, ErrorEnvelope(e, meta)))
         == Failure(e.WithContext(retry.id, Some(retry.rpc)))
  {
    assert ErrorEnvelope(e, meta).Get("result") == None;
    assert ErrorEnvelope(e, meta).Get("error") == Some(ErrorBody(e));
    BodyReadsBack(retry, e);
  }

  // ---- sequential calls ----

  predicate Sequential(calls: seq<Call>, from: nat) {
    calls == []
    || (from <= calls[0].checkAt <= calls[0].storeAt && Sequential(calls[1..], calls[0].storeAt))
  }

  function LastTime(calls: seq<Call>, from: nat): nat {
    if calls == [] then from else LastTime(calls[1..], calls[0].storeAt)
  }

  function InvokeAll<D>(c: Config<D>, w: World<D>, calls: seq<Call>): World<D>
    decreases |calls|
  {
    if calls == [] then w else InvokeAll(c, Invoke(c, w, calls[0]).0, calls[1..])
  }

  lemma {:induction false} TimeMovesOn(calls: seq<Call>, from: nat)
    requires Sequential(calls, from)
    ensures from <= LastTime(calls, from)
    decreases |calls|
  {
    if calls != [] {
      TimeMovesOn(calls[1..], calls[0].storeAt);
    }
  }

  lemma EntrySurvivesCall<D>(c: Config<D>, w: World<D>, call: Call, k: string, e: Entry)
    requires k in w.entries && w.entries[k] == e
    requires call.checkAt <= call.storeAt <= e.createdAt + c.ttl
    ensures var after := Invoke(c, w, call).0.entries; k in after && after[k] == e
  {
  }

  /** Until its time to live has passed, no later call touches a stored entry. */
  lemma {:induction false} EntrySurvives<D>(c: Config<D>, w: World<D>, calls: seq<Call>, from: nat, k: string, e: Entry)
    requires k in w.entries && w.entries[k] == e
    requires Sequential(calls, from) && LastTime(calls, from) <= e.createdAt + c.ttl
    ensures var after := InvokeAll(c, w, calls).entries; k in after && after[k] == e
    decreases |calls|
  {
    if calls != [] {
      TimeMovesOn(calls[1..], calls[0].storeAt);
      EntrySurvivesCall(c, w, calls[0], k, e);
      EntrySurvives(c, Invoke(c, w, calls[0]).0, calls[1..], calls[0].storeAt, k, e);
    }
  }

  /** The call is mutating, carries a key, and that key is new. */
  predicate Dispatches<D>(c: Config<D>, w: World<D>, call: Call) {
    && IsMutating(call.request.rpc)
    && call.request.idempotencyKey.Some?
    && MakeKey(call.request.rpc, call.request.idempotencyKey.value) !in Cleaned(w.entries, c.ttl, call.checkAt)
  }

  /** A retry: the same method and key, made after the first answer and within the time to live. */
  predicate Retries<D>(c: Config<D>, first: Call, between: seq<Call>, again: Call) {
    && first.request.rpc == again.request.rpc
    && first.request.idempotencyKey == again.request.idempotencyKey
    && Sequential(between, first.storeAt)
    && LastTime(between, first.storeAt) <= again.checkAt <= first.storeAt + c.ttl
  }

  /** What the store holds for the first call when the retry is checked. */
  lemma RetryFindsTheEntry<D>(c: Config<D>, w: World<D>, first: Call, between: seq<Call>, again: Call)
    returns (before: World<D>, response: StoredResponse)
    requires Dispatches(c, w, first) && Retries(c, first, between, again)
    ensures before == InvokeAll(c, Execute(c, w, first).0, between)
    ensures response == ToStore(first.request, Located(c.dispatch(w.domain, first.request, first.principal).1, first.request),
                                ResponseMeta(c.servedBy, first.servedAt))
    ensures Execute(c, before, again)
         == (before.(entries := Cleaned(before.entries, c.ttl, again.checkAt)),
             if first.request.params == again.request.params then ReplayOf(response)
             else Rejected(KeyReused(again.request, again.request.idempotencyKey.value)))
  {
    var (w1, _) := Execute(c, w, first);
    var k := MakeKey(first.request.rpc, first.request.idempotencyKey.value);
    before, response := InvokeAll(c, w1, between), w1.entries[k].response;
    EntrySurvives(c, w1, between, first.storeAt, k, w1.entries[k]);
  }

  /**
   Once a mutating call has been dispatched, a retry within the time to live
   never changes the domain, whatever was called in between: it gets the first
   answer again, or an error when its parameters differ.
   */
  lemma RetryIsAnsweredFromTheStore<D>(c: Config<D>, w: World<D>, first: Call, between: seq<Call>, again: Call)
    requires Dispatches(c, w, first) && Retries(c, first, between, again)
    ensures var (w1, answer1) := Invoke(c, w, first);
            var w2 := InvokeAll(c, w1, between);
            var (w3, answer3) := Invoke(c, w2, again);
            && w1.domain == c.dispatch(w.domain, first.request, first.principal).0
            && w3.domain == w2.domain
            && answer3 == if first.request.params == again.request.params
                          then Readdressed(answer1, again.request)
                          else Failure(KeyReused(again.request, again.request.idempotencyKey.value))
  {
    var before, response := RetryFindsTheEntry(c, w, first, between, again);
    var outcome := c.dispatch(w.domain, first.request, first.principal).1;
    ReplayRoundTrip(first.request, again.request, outcome, ResponseMeta(c.servedBy, first.servedAt));
  }

  /** Everything in an envelope but the stamp. */
  function WithoutMeta(envelope: Value): Value {
    if envelope.Object? then Object(envelope.fields - {"meta"}) else envelope
  }

  lemma Restamped(a: map<string, Value>, b: map<string, Value>)
    requires "meta" in a && "meta" in b && b == a["meta" := b["meta"]]
    ensures WithoutMeta(Object(a)) == WithoutMeta(Object(b))
  {
    assert a - {"meta"} == b - {"meta"};
  }

  lemma SuccessIsStamped(request: RpcRequest, value: Value, meta1: Value, meta2: Value)
    ensures WithoutMeta(SuccessEnvelope(request.id, request.rpc, value, meta1))
         == WithoutMeta(SuccessEnvelope(request.id, request.rpc, value, meta2))
  {
    Restamped(SuccessEnvelope(request.id, request.rpc, value, meta1).fields,
              SuccessEnvelope(request.id, request.rpc, value, meta2).fields);
  }

  lemma ErrorIsStamped(e: ApiError, meta1: Value, meta2: Value)
    ensures WithoutMeta(ErrorEnvelope(e, meta1)) == WithoutMeta(ErrorEnvelope(e, meta2))
  {
    var a, b := ErrorEnvelope(e, meta1).fields, ErrorEnvelope(e, meta2).fields;
    assert a.Keys == b.Keys && a.Keys == a["meta" := meta2].Keys;
    Restamped(a, b);
  }

  /** Two responses to one answer differ in their stamps only. */
  lemma OnlyTheStampDiffers(request: RpcRequest, outcome: Outcome, meta1: Value, meta2: Value)
    ensures var stored := ToStore(request, outcome, meta1);
            var sent := HttpAnswer(request, AsExecution(outcome), meta2);
            stored.status == sent.status && WithoutMeta(stored.envelope) == WithoutMeta(sent.envelope)
  {
    match outcome {
      case Success(value) => SuccessIsStamped(request, value, meta1, meta2);
      case Failure(e) => ErrorIsStamped(e, meta1, meta2);
    }
  }

  /** Over HTTP the retry gets the first response again, first request identifier and all, but for the stamp. */
  lemma HttpRetryGetsTheSameResponse<D>(c: Config<D>, w: World<D>, first: Call, between: seq<Call>, again: Call,
                                        meta1: Value, meta2: Value)
    requires Dispatches(c, w, first) && Retries(c, first, between, again)
    requires first.request.params == again.request.params
    ensures var (w1, execution1) := Execute(c, w, first);
            var response1 := HttpAnswer(first.request, execution1, meta1);
            var (_, execution3) := Execute(c, InvokeAll(c, w1, between), again);
            var response3 := HttpAnswer(again.request, execution3, meta2);
            && response3.status == response1.status
            && WithoutMeta(response3.envelope) == WithoutMeta(response1.envelope)
  {
    var before, response := RetryFindsTheEntry(c, w, first, between, again);
    var located := Located(c.dispatch(w.domain, first.request, first.principal).1, first.request);
    OnlyTheStampDiffers(first.request, located, ResponseMeta(c.servedBy, first.servedAt), meta1);
    assert Execute(c, w, first).1 == AsExecution(located);
  }

  /** A mutating call without a key changes nothing. */
  lemma NoKeyNoDispatch<D>(c: Config<D>, w: World<D>, call: Call)
    requires IsMutating(call.request.rpc) && call.request.idempotencyKey.None?
    ensures Invoke(c, w, call) == (w, Failure(MissingKey(call.request)))
  {
  }

  // ---- what callers are answered ----

  /** A call that is dispatched changes the domain and is answered as dispatch says, with its own context. */
  lemma DispatchedCallAnswers<D>(c: Config<D>, w: World<D>, call: Call)
    requires !IsMutating(call.request.rpc) || Dispatches(c, w, call)
    ensures var (domain, outcome) := c.dispatch(w.domain, call.request, call.principal);
            var (after, answer) := Invoke(c, w, call);
            && after.domain == domain
            && answer == Located(outcome, call.request)
            && (!IsMutating(call.request.rpc) ==> after.entries == w.entries)
  {
  }

  /** Every error is addressed to the request that gets it. */
  lemma ErrorsAreAddressed<D>(c: Config<D>, w: World<D>, call: Call)
    ensures var answer := Invoke(c, w, call).1;
            answer.Failure? ==> IsAddressed(answer.error, call.request)
  {
    var execution := Execute(c, w, call).1;
    RejectionsAreAddressed(c, w, call);
    if execution.ReplayOf? {
      ReplaysAreAddressed(call.request, execution.response);
    }
  }

  predicate IsAddressed(e: ApiError, request: RpcRequest) {
    e.requestId == request.id && e.rpc == Some(request.rpc)
  }

  lemma RejectionsAreAddressed<D>(c: Config<D>, w: World<D>, call: Call)
    ensures var execution := Execute(c, w, call).1;
            execution.Rejected? ==> IsAddressed(execution.error, call.request)
  {
  }

  lemma ReplaysAreAddressed(request: RpcRequest, response: StoredResponse)
    ensures var answer := ReplayStored(request, response);
            answer.Failure? ==> IsAddressed(answer.error, request)
  {
  }

  /** A missing key is a bad request; a key reused with other parameters is a conflict that names both. */
  lemma RejectionsExplain(request: RpcRequest, key: string)
    ensures MissingKey(request).code == InvalidParams && MissingKey(request).status == 400
    ensures !MissingKey(request).retryable && MissingKey(request).details == None
    ensures KeyReused(request, key).code == IdempotencyConflict && KeyReused(request, key).status == 409
    ensures !KeyReused(request, key).retryable && KeyReused(request, key).details.Some?
    ensures var details := KeyReused(request, key).details.value;
            && details.Get("method") == Some(String(request.rpc))
            && details.Get("idempotencyKey") == Some(String(key))
  {
  }

  /** A mutating call without a key changes nothing and is told so. */
  lemma MissingKeyIsRejected<D>(c: Config<D>, w: World<D>, call: Call)
    requires IsMutating(call.request.rpc) && call.request.idempotencyKey.None?
    ensures Execute(c, w, call) == (w, Rejected(MissingKey(call.request)))
  {
  }

  /** A stored envelope that holds neither a value nor an error replays as an internal error. */
  lemma UnreadableReplay(request: RpcRequest, response: StoredResponse)
    requires response.envelope.Get("result") == None
    requires response.envelope.Get("error").Some? ==> !response.envelope.Get("error").value.Object?
    ensures var answer := ReplayStored(request, response);
            answer.Failure? && answer.error.code == Internal && answer.error.status == 500 && !answer.error.retryable
  {
    match response.envelope.Get("error")
    case None => assert ReplayStored(request, response).Failure?;
    case Some(v) => assert !v.Object?;
  }

  /** An error body without fields replays as an internal error with the stored status. */
  lemma EmptyReplay(request: RpcRequest, status: StatusCode)
    ensures var e := ReplayedError(request, Object(map[]), status);
            && e.code == Internal && e.message == "stored idempotency replay failed"
            && !e.retryable && e.details == None && e.status == status
  {
  }

  /** Over HTTP a value is a success, an error has its own status, and a replay the stored response. */
  lemma HttpStatuses(request: RpcRequest, execution: Execution, meta: Value)
    ensures var response := HttpAnswer(request, execution, meta);
            match execution
            case Fresh(value) => response.status == 200 && response.envelope.Get("result") == Some(value)
            case ReplayOf(stored) =>
              && response.envelope == stored.envelope
              && response.status == if 100 <= stored.status <= 999 then stored.status else 200
            case Rejected(e) => response.status == e.status && response.envelope.Get("error") == Some(ErrorBody(e))
  {
  }
}
