/**
 The in-memory idempotency store, and the requests that use it.  Checking a
 key and storing its response are separate critical sections with the dispatch
 between them, so requests interleave freely.
 */
module Idempotency {
  import opened Json

  datatype StoredResponse = StoredResponse(status: nat, envelope: Value)

  datatype Check = New | Replay(response: StoredResponse) | Conflict

  datatype Entry = Entry(params: Value, response: StoredResponse, createdAt: nat)

  type Entries = map<string, Entry>

  // ---- keys ----

  function MakeKey(rpc: string, key: string): string {
    rpc + ":" + key
  }

  /** Keys of methods without a colon never collide. */
  lemma MakeKeyIsInjective(m1: string, k1: string, m2: string, k2: string)
    requires ':' !in m1 && ':' !in m2
    ensures MakeKey(m1, k1) == MakeKey(m2, k2) <==> m1 == m2 && k1 == k2
  {
    var a, b := MakeKey(m1, k1), MakeKey(m2, k2);
    if a == b {
      assert a[|m1|] == ':' && b[|m2|] == ':';
      assert m1 == a[..|m1|] && m2 == b[..|m2|];
      assert k1 == a[|m1| + 1..] && k2 == b[|m2| + 1..];
    }
  }

  /** With colons they can. */
  lemma MakeKeyCollides()
    ensures MakeKey("a", "b:c") == MakeKey("a:b", "c")
  {
  }

  const MUTATING_TASK_METHODS := [
    "task.create", "task.update", "task.close", "task.archive", "task.unarchive", "task.delete",
    "task.clear", "task.run", "task.run_all", "task.retry", "task.cancel"]

  const MUTATING_LOOP_METHODS := [
    "loop.process", "loop.prune", "loop.retry", "loop.discard", "loop.stop", "loop.merge",
    "loop.trigger_merge_task"]

  const MUTATING_PLANNING_METHODS := [
    "planning.start", "planning.respond", "planning.resume", "planning.delete"]

  const MUTATING_OTHER_METHODS := [
    "config.update", "collection.create", "collection.update", "collection.delete",
    "collection.import", "collection.run", "robot.respond", "robot.guidance"]

  const MUTATING_METHODS :=
    MUTATING_TASK_METHODS + MUTATING_LOOP_METHODS + MUTATING_PLANNING_METHODS + MUTATING_OTHER_METHODS

  predicate IsMutating(rpc: string) {
    rpc in MUTATING_METHODS
  }

  predicate Colonless(names: seq<string>) {
    forall i :: 0 <= i < |names| ==> ':' !in names[i]
  }

  lemma TaskMethodsColonless()
    ensures Colonless(MUTATING_TASK_METHODS)
  {
  }

  lemma LoopMethodsColonless()
    ensures Colonless(MUTATING_LOOP_METHODS)
  {
  }

  lemma PlanningMethodsColonless()
    ensures Colonless(MUTATING_PLANNING_METHODS)
  {
  }

  lemma OtherMethodsColonless()
    ensures Colonless(MUTATING_OTHER_METHODS)
  {
  }

  lemma ColonlessConcat(a: seq<string>, b: seq<string>)
    requires Colonless(a) && Colonless(b)
    ensures Colonless(a + b)
  {
  }

  lemma MutatingMethodsHaveNoColon(rpc: string)
    requires IsMutating(rpc)
    ensures ':' !in rpc
  {
    TaskMethodsColonless();
    LoopMethodsColonless();
    PlanningMethodsColonless();
    OtherMethodsColonless();
    ColonlessConcat(MUTATING_TASK_METHODS, MUTATING_LOOP_METHODS);
    ColonlessConcat(MUTATING_TASK_METHODS + MUTATING_LOOP_METHODS, MUTATING_PLANNING_METHODS);
    ColonlessConcat(MUTATING_TASK_METHODS + MUTATING_LOOP_METHODS + MUTATING_PLANNING_METHODS,
                    MUTATING_OTHER_METHODS);
  }

  // ---- the store ----

  function Elapsed(since: nat, now: nat): nat {
    if since <= now then now - since else 0
  }

  function Cleaned(entries: Entries, ttl: nat, now: nat): Entries {
    map k | k in entries && Elapsed(entries[k].createdAt, now) <= ttl :: entries[k]
  }

  function Lookup(entries: Entries, storeKey: string, params: Value): Check {
    if storeKey !in entries then New
    else if entries[storeKey].params == params then Replay(entries[storeKey].response)
    else Conflict
  }

  class InMemoryIdempotencyStore {
    const ttl: nat
    var entries: Entries

    constructor (ttl: nat)
      ensures this.ttl == ttl && entries == map[]
    {
      this.ttl, entries := ttl, map[];
    }

    /** Drops every entry older than the time to live. */
    method Cleanup(now: nat)
      modifies this
      ensures entries == Cleaned(old(entries), ttl, now)
    {
      var todo := entries.Keys;
      while todo != {}
        invariant todo <= entries.Keys
        invariant entries == map k | k in old(entries)
                    && (k in todo || Elapsed(old(entries)[k].createdAt, now) <= ttl) :: old(entries)[k]
        decreases |todo|
      {
        var k :| k in todo;
        if Elapsed(entries[k].createdAt, now) > ttl {
          entries := entries - {k};
        }
        todo := todo - {k};
      }
    }

    method CheckKey(rpc: string, key: string, params: Value, now: nat) returns (check: Check)
      modifies this
      ensures entries == Cleaned(old(entries), ttl, now)
      ensures check == Lookup(entries, MakeKey(rpc, key), params)
    {
      Cleanup(now);
      var storeKey := MakeKey(rpc, key);
      if storeKey !in entries {
        check := New;
      } else if entries[storeKey].params == params {
        check := Replay(entries[storeKey].response);
      } else {
        check := Conflict;
      }
    }

    method StoreResponse(rpc: string, key: string, params: Value, response: StoredResponse, now: nat)
      modifies this
      ensures entries == Cleaned(old(entries), ttl, now)[MakeKey(rpc, key) := Entry(params, response, now)]
    {
      Cleanup(now);
      entries := entries[MakeKey(rpc, key) := Entry(params, response, now)];
    }
  }

  // ---- requests that interleave ----

  type RequestId = nat

  datatype Phase = Arrived | Admitted | Dispatched(response: StoredResponse) | Answered

  datatype Request = Request(storeKey: string, params: Value, phase: Phase)

  /** What happened, in order. */
  datatype Happening =
    | CheckedNew(id: RequestId, storeKey: string, at: nat)
    | Dispatch(id: RequestId, storeKey: string, at: nat)
    | Stored(id: RequestId, storeKey: string, at: nat, params: Value, response: StoredResponse)
    | Replayed(id: RequestId, storeKey: string, at: nat, params: Value, response: StoredResponse)

  datatype State = State(now: nat, entries: Entries, requests: map<RequestId, Request>, log: seq<Happening>)

  const START := State(0, map[], map[], [])

  datatype Step =
    | Arrive(id: RequestId, storeKey: string, params: Value)
    | CheckStep(id: RequestId)
    | DispatchStep(id: RequestId, response: StoredResponse)
    | StoreStep(id: RequestId)
    | Tick(delta: nat)

  predicate CanStep(s: State, step: Step) {
    match step
    case Arrive(id, _, _) => id !in s.requests
    case CheckStep(id) => id in s.requests && s.requests[id].phase.Arrived?
    case DispatchStep(id, _) => id in s.requests && s.requests[id].phase.Admitted?
    case StoreStep(id) => id in s.requests && s.requests[id].phase.Dispatched?
    case Tick(_) => true
  }

  function SetPhase(s: State, id: RequestId, phase: Phase): map<RequestId, Request>
    requires id in s.requests
  {
    s.requests[id := s.requests[id].(phase := phase)]
  }

  function Apply(s: State, ttl: nat, step: Step): State
    requires CanStep(s, step)
  {
    match step
    case Arrive(id, storeKey, params) =>
      s.(requests := s.requests[id := Request(storeKey, params, Arrived)])
    case CheckStep(id) =>
      var r := s.requests[id];
      var cleaned := Cleaned(s.entries, ttl, s.now);
      (match Lookup(cleaned, r.storeKey, r.params)
       case New => s.(entries := cleaned, requests := SetPhase(s, id, Admitted),
                      log := s.log + [CheckedNew(id, r.storeKey, s.now)])
       case Replay(response) => s.(entries := cleaned, requests := SetPhase(s, id, Answered),
                                   log := s.log + [Replayed(id, r.storeKey, s.now, r.params, response)])
       case Conflict => s.(entries := cleaned, requests := SetPhase(s, id, Answered)))
    case DispatchStep(id, response) =>
      s.(requests := SetPhase(s, id, Dispatched(response)),
         log := s.log + [Dispatch(id, s.requests[id].storeKey, s.now)])
    case StoreStep(id) =>
      var r := s.requests[id];
      s.(entries := Cleaned(s.entries, ttl, s.now)[r.storeKey := Entry(r.params, r.phase.response, s.now)],
         requests := SetPhase(s, id, Answered),
         log := s.log + [Stored(id, r.storeKey, s.now, r.params, r.phase.response)])
    case Tick(delta) => s.(now := s.now + delta)
  }
}
