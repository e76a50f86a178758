/** Error codes, their names on the wire, and the errors and envelopes built from them. */
module RpcErrors {
  import opened Wrappers
  import opened Json

  datatype RpcErrorCode =
    | InvalidRequest | MethodNotFound | InvalidParams | Unauthorized | Forbidden | NotFound
    | Conflict | PreconditionFailed | RateLimited | Timeout | ServiceUnavailable | Internal
    | TaskNotFound | LoopNotFound | PlanningSessionNotFound | CollectionNotFound
    | ConfigInvalid | IdempotencyConflict | BackpressureDropped

  function AsStr(code: RpcErrorCode): string {
    match code
    case InvalidRequest => "INVALID_REQUEST"
    case MethodNotFound => "METHOD_NOT_FOUND"
    case InvalidParams => "INVALID_PARAMS"
    case Unauthorized => "UNAUTHORIZED"
    case Forbidden => "FORBIDDEN"
    case NotFound => "NOT_FOUND"
    case Conflict => "CONFLICT"
    case PreconditionFailed => "PRECONDITION_FAILED"
    case RateLimited => "RATE_LIMITED"
    case Timeout => "TIMEOUT"
    case ServiceUnavailable => "SERVICE_UNAVAILABLE"
    case Internal => "INTERNAL"
    case TaskNotFound => "TASK_NOT_FOUND"
    case LoopNotFound => "LOOP_NOT_FOUND"
    case PlanningSessionNotFound => "PLANNING_SESSION_NOT_FOUND"
    case CollectionNotFound => "COLLECTION_NOT_FOUND"
    case ConfigInvalid => "CONFIG_INVALID"
    case IdempotencyConflict => "IDEMPOTENCY_CONFLICT"
    case BackpressureDropped => "BACKPRESSURE_DROPPED"
  }

  /** Only the name of a code is ever taken for it. */
  function FromContract(name: string): (code: Option<RpcErrorCode>)
    ensures code.Some? ==> name == AsStr(code.value)
  {
    if name == "INVALID_REQUEST" then Some(InvalidRequest)
    else if name == "METHOD_NOT_FOUND" then Some(MethodNotFound)
    else if name == "INVALID_PARAMS" then Some(InvalidParams)
    else if name == "UNAUTHORIZED" then Some(Unauthorized)
    else if name == "FORBIDDEN" then Some(Forbidden)
    else if name == "NOT_FOUND" then Some(NotFound)
    else if name == "CONFLICT" then Some(Conflict)
    else if name == "PRECONDITION_FAILED" then Some(PreconditionFailed)
    else if name == "RATE_LIMITED" then Some(RateLimited)
    else if name == "TIMEOUT" then Some(Timeout)
    else if name == "SERVICE_UNAVAILABLE" then Some(ServiceUnavailable)
    else if name == "INTERNAL" then Some(Internal)
    else if name == "TASK_NOT_FOUND" then Some(TaskNotFound)
    else if name == "LOOP_NOT_FOUND" then Some(LoopNotFound)
    else if name == "PLANNING_SESSION_NOT_FOUND" then Some(PlanningSessionNotFound)
    else if name == "COLLECTION_NOT_FOUND" then Some(CollectionNotFound)
    else if name == "CONFIG_INVALID" then Some(ConfigInvalid)
    else if name == "IDEMPOTENCY_CONFLICT" then Some(IdempotencyConflict)
    else if name == "BACKPRESSURE_DROPPED" then Some(BackpressureDropped)
    else None
  }

  /** Each code has its own name, and no other string is a code. */
  lemma NamesAreCodes(name: string, code: RpcErrorCode)
    ensures FromContract(name) == Some(code) <==> name == AsStr(code)
  {
    if name == AsStr(code) {
      NameIsFound(code);
    }
  }

  lemma NameIsFound(code: RpcErrorCode)
    ensures FromContract(AsStr(code)) == Some(code)
  {
    NameIsKnown(code);
    NamesDiffer(code, FromContract(AsStr(code)).value);
  }

  lemma NameIsKnown(code: RpcErrorCode)
    ensures FromContract(AsStr(code)).Some?
  {
  }

  lemma NamesDiffer(a: RpcErrorCode, b: RpcErrorCode)
    requires AsStr(a) == AsStr(b)
    ensures a == b
  {
    assert |AsStr(a)| == |AsStr(b)| && AsStr(a)[0] == AsStr(b)[0] && AsStr(a)[2] == AsStr(b)[2];
  }

  type StatusCode = n: nat | 100 <= n <= 999 witness 200

  function FromU16(n: nat): Option<StatusCode> {
    if 100 <= n <= 999 then Some(n) else None
  }

  function StatusForCode(code: RpcErrorCode): StatusCode {
    match code
    case InvalidRequest | InvalidParams | ConfigInvalid => 400
    case Unauthorized => 401
    case Forbidden => 403
    case MethodNotFound | NotFound | TaskNotFound | LoopNotFound
      | PlanningSessionNotFound | CollectionNotFound => 404
    case Timeout => 408
    case Conflict | IdempotencyConflict => 409
    case PreconditionFailed => 412
    case RateLimited => 429
    case Internal => 500
    case ServiceUnavailable | BackpressureDropped => 503
  }

  datatype ApiError = ApiError(
    code: RpcErrorCode,
    message: string,
    retryable: bool,
    details: Option<Value>,
    status: StatusCode,
    requestId: string,
    rpc: Option<string>)
  {
    function WithContext(requestId: string, rpc: Option<string>): ApiError {
      this.(requestId := requestId, rpc := rpc)
    }
  }

  function NewError(code: RpcErrorCode, message: string): ApiError {
    ApiError(code, message,
             code.RateLimited? || code.Timeout? || code.ServiceUnavailable? || code.BackpressureDropped?,
             None, StatusForCode(code), "unknown", None)
  }

  function ErrorBody(e: ApiError): Value {
    var fields := map["code" := String(AsStr(e.code)), "message" := String(e.message),
                      "retryable" := Bool(e.retryable)];
    Object(if e.details.Some? then fields["details" := e.details.value] else fields)
  }

  function ResponseMeta(servedBy: string, servedAt: string): Value {
    Object(map["servedBy" := String(servedBy), "servedAt" := String(servedAt)])
  }

  const API_VERSION := "v1"

  function SuccessEnvelope(id: string, rpc: string, result: Value, meta: Value): Value {
    Object(map["apiVersion" := String(API_VERSION), "id" := String(id), "method" := String(rpc),
               "result" := result, "meta" := meta])
  }

  function ErrorEnvelope(e: ApiError, meta: Value): Value {
    var fields := map["apiVersion" := String(API_VERSION), "id" := String(e.requestId),
                      "error" := ErrorBody(e), "meta" := meta];
    Object(if e.rpc.Some? then fields["method" := String(e.rpc.value)] else fields)
  }

  // ---- what the tables mean ----

  predicate EndsWith(s: string, suffix: string) {
    |suffix| <= |s| && s[|s| - |suffix|..] == suffix
  }

  predicate StartsWith(s: string, prefix: string) {
    |prefix| <= |s| && s[..|prefix|] == prefix
  }

  lemma LastTwo(s: string, suffix: string)
    requires EndsWith(s, suffix) && |suffix| >= 2
    ensures s[|s| - 1] == suffix[|suffix| - 1] && s[|s| - 2] == suffix[|suffix| - 2]
  {
    assert s[|s| - |suffix|..][|suffix| - 1] == s[|s| - 1];
    assert s[|s| - |suffix|..][|suffix| - 2] == s[|s| - 2];
  }

  lemma FirstThree(s: string, prefix: string)
    requires StartsWith(s, prefix) && |prefix| >= 3
    ensures s[0] == prefix[0] && s[1] == prefix[1] && s[2] == prefix[2]
  {
    assert s[..|prefix|][0] == s[0] && s[..|prefix|][1] == s[1] && s[..|prefix|][2] == s[2];
  }

  lemma NotFoundNames()
    ensures EndsWith("METHOD_NOT_FOUND", "NOT_FOUND") && EndsWith("NOT_FOUND", "NOT_FOUND")
    ensures EndsWith("TASK_NOT_FOUND", "NOT_FOUND") && EndsWith("LOOP_NOT_FOUND", "NOT_FOUND")
    ensures EndsWith("PLANNING_SESSION_NOT_FOUND", "NOT_FOUND") && EndsWith("COLLECTION_NOT_FOUND", "NOT_FOUND")
  {
  }

  lemma InvalidNames()
    ensures StartsWith("INVALID_REQUEST", "INVALID") && StartsWith("INVALID_PARAMS", "INVALID")
    ensures EndsWith("CONFIG_INVALID", "INVALID")
  {
  }

  lemma StartsInvalid(code: RpcErrorCode)
    requires StartsWith(AsStr(code), "INVALID")
    ensures StatusForCode(code) == 400
  {
    FirstThree(AsStr(code), "INVALID");
  }

  lemma EndsInvalid(code: RpcErrorCode)
    requires EndsWith(AsStr(code), "INVALID")
    ensures StatusForCode(code) == 400
  {
    LastTwo(AsStr(code), "INVALID");
  }

  lemma EndsNotFound(code: RpcErrorCode)
    requires EndsWith(AsStr(code), "NOT_FOUND")
    ensures StatusForCode(code) == 404
  {
    LastTwo(AsStr(code), "NOT_FOUND");
  }

  lemma EndsConflict(code: RpcErrorCode)
    requires EndsWith(AsStr(code), "CONFLICT")
    ensures StatusForCode(code) == 409
  {
    LastTwo(AsStr(code), "CONFLICT");
  }

  /** The status follows from the name: what was not found says so, */
  lemma NotFoundSaysSo(code: RpcErrorCode)
    ensures StatusForCode(code) == 404 <==> EndsWith(AsStr(code), "NOT_FOUND")
  {
    NotFoundNames();
    if EndsWith(AsStr(code), "NOT_FOUND") { EndsNotFound(code); }
  }

  /** so does a conflict, */
  lemma ConflictSaysSo(code: RpcErrorCode)
    ensures StatusForCode(code) == 409 <==> EndsWith(AsStr(code), "CONFLICT")
  {
    if EndsWith(AsStr(code), "CONFLICT") { EndsConflict(code); }
  }

  /** and so does what is invalid. */
  lemma InvalidSaysSo(code: RpcErrorCode)
    ensures StatusForCode(code) == 400
       <==> StartsWith(AsStr(code), "INVALID") || EndsWith(AsStr(code), "INVALID")
  {
    InvalidNames();
    if StartsWith(AsStr(code), "INVALID") { StartsInvalid(code); }
    if EndsWith(AsStr(code), "INVALID") { EndsInvalid(code); }
  }

  /** The codes with a status of their own. */
  lemma SingleStatuses(code: RpcErrorCode)
    ensures StatusForCode(code) == 401 <==> code == Unauthorized
    ensures StatusForCode(code) == 403 <==> code == Forbidden
    ensures StatusForCode(code) == 408 <==> code == Timeout
    ensures StatusForCode(code) == 412 <==> code == PreconditionFailed
    ensures StatusForCode(code) == 429 <==> code == RateLimited
    ensures StatusForCode(code) == 500 <==> code == Internal
    ensures StatusForCode(code) == 503 <==> code == ServiceUnavailable || code == BackpressureDropped
  {
  }

  /** A new error is retryable exactly when its status is one of a passing condition. */
  lemma RetryableIffTransient(code: RpcErrorCode, message: string)
    ensures var e := NewError(code, message);
            && e.code == code && e.message == message && e.details == None
            && e.status == StatusForCode(code)
            && (e.retryable <==> e.status == 408 || e.status == 429 || e.status == 503)
  {
  }

  /** What a reader finds in the envelope of a value. */
  lemma SuccessFields(id: string, rpc: string, result: Value, meta: Value)
    ensures var v := SuccessEnvelope(id, rpc, result, meta);
            && v.Get("apiVersion") == Some(String("v1"))
            && v.Get("id") == Some(String(id))
            && v.Get("method") == Some(String(rpc))
            && v.Get("result") == Some(result)
            && v.Get("meta") == Some(meta)
            && v.Get("error") == None
  {
  }

  /** What a reader finds in the envelope of an error. */
  lemma ErrorFields(e: ApiError, meta: Value)
    ensures var v := ErrorEnvelope(e, meta);
            && v.Get("apiVersion") == Some(String("v1"))
            && v.Get("id") == Some(String(e.requestId))
            && v.Get("method") == (if e.rpc.Some? then Some(String(e.rpc.value)) else None)
            && v.Get("error") == Some(ErrorBody(e))
            && v.Get("meta") == Some(meta)
            && v.Get("result") == None
  {
  }

  lemma ErrorBodyFields(e: ApiError)
    ensures var v := ErrorBody(e);
            && v.Get("code") == Some(String(AsStr(e.code)))
            && v.Get("message") == Some(String(e.message))
            && v.Get("retryable") == Some(Bool(e.retryable))
            && v.Get("details") == e.details
  {
  }

  lemma MetaFields(servedBy: string, servedAt: string)
    ensures ResponseMeta(servedBy, servedAt).Get("servedBy") == Some(String(servedBy))
    ensures ResponseMeta(servedBy, servedAt).Get("servedAt") == Some(String(servedAt))
  {
  }
}
