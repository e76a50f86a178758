/** What holds of every interleaving of idempotent requests. */
module IdempotencyRuns {
  import opened Json
  import opened Idempotency

  // ---- the invariant, one concern at a time ----

  /** A response stored within the time to live is still in the store, or a newer one is. */
  ghost predicate StoreRemembers(s: State, ttl: nat) {
    forall h :: h in s.log && h.Stored? && s.now <= h.at + ttl ==>
      h.storeKey in s.entries && h.at <= s.entries[h.storeKey].createdAt
  }

  /** Every entry is a response that some request stored. */
  ghost predicate StoreHonest(s: State) {
    forall k :: k in s.entries ==>
      s.entries[k].createdAt <= s.now && exists id :: StoredAs(id, k, s.entries[k]) in s.log
  }

  function StoredAs(id: RequestId, storeKey: string, e: Entry): Happening {
    Stored(id, storeKey, e.createdAt, e.params, e.response)
  }

  /** Times never decrease along the log. */
  ghost predicate Chronological(s: State) {
    && (forall i :: 0 <= i < |s.log| ==> s.log[i].at <= s.now)
    && (forall i, j :: 0 <= i < j < |s.log| ==> s.log[i].at <= s.log[j].at)
  }

  /** After a response was stored, no check of its key is new until the time to live has passed. */
  ghost predicate NewOnlyAfterExpiry(log: seq<Happening>, ttl: nat) {
    forall i, j :: 0 <= i < j < |log| ==>
      log[i].Stored? && log[j].CheckedNew? && log[i].storeKey == log[j].storeKey ==>
        log[i].at + ttl < log[j].at
  }

  ghost predicate IsSource(stored: Happening, replayed: Happening, ttl: nat) {
    && stored.Stored? && replayed.Replayed?
    && stored.storeKey == replayed.storeKey && stored.params == replayed.params
    && stored.response == replayed.response && replayed.at <= stored.at + ttl
  }

  /** A replayed response was stored earlier, for the same key and parameters, within the time to live. */
  ghost predicate ReplaysGenuine(log: seq<Happening>, ttl: nat) {
    forall j :: 0 <= j < |log| && log[j].Replayed? ==>
      exists i :: 0 <= i < j && IsSource(log[i], log[j], ttl)
  }

  /** Each request is checked new, dispatched and stored at most once, and in that order. */
  function Rank(h: Happening): nat {
    match h
    case CheckedNew(_, _, _) => 1
    case Dispatch(_, _, _) => 2
    case _ => 3
  }

  ghost predicate InOrder(log: seq<Happening>) {
    forall i, j :: 0 <= i < j < |log| && log[i].id == log[j].id ==> Rank(log[i]) < Rank(log[j])
  }

  function PhaseRank(p: Phase): nat {
    match p
    case Arrived => 0
    case Admitted => 1
    case Dispatched(_) => 2
    case Answered => 3
  }

  /** The log knows no more of a request than its phase, and agrees on its key. */
  ghost predicate Logged(s: State) {
    forall h :: h in s.log ==>
      && h.id in s.requests
      && s.requests[h.id].storeKey == h.storeKey
      && Rank(h) <= PhaseRank(s.requests[h.id].phase)
  }

  ghost predicate Inv(s: State, ttl: nat) {
    && StoreRemembers(s, ttl) && StoreHonest(s) && Chronological(s)
    && NewOnlyAfterExpiry(s.log, ttl) && ReplaysGenuine(s.log, ttl)
    && InOrder(s.log) && Logged(s)
  }

  // ---- one step ----

  /** A request moves on to a later phase and the log says so. */
  lemma MoveKeepsOrder(s: State, s': State, h: Happening, phase: Phase)
    requires InOrder(s.log) && Logged(s) && s'.log == s.log + [h]
    requires h.id in s.requests && s.requests[h.id].storeKey == h.storeKey
    requires PhaseRank(s.requests[h.id].phase) < Rank(h) == PhaseRank(phase)
    requires s'.requests == SetPhase(s, h.id, phase)
    ensures InOrder(s'.log) && Logged(s')
  {
    forall i | 0 <= i < |s.log| && s.log[i].id == h.id ensures Rank(s.log[i]) < Rank(h) {
      assert s.log[i] in s.log;
    }
    forall x | x in s'.log ensures x in s.log || x == h {
    }
  }

  lemma StepKeepsOrder(s: State, ttl: nat, step: Step)
    requires InOrder(s.log) && Logged(s) && CanStep(s, step)
    ensures InOrder(Apply(s, ttl, step).log) && Logged(Apply(s, ttl, step))
  {
    var s' := Apply(s, ttl, step);
    if |s'.log| > |s.log| {
      var h := s'.log[|s.log|];
      MoveKeepsOrder(s, s', h, s'.requests[h.id].phase);
    }
  }

  lemma StepKeepsTime(s: State, ttl: nat, step: Step)
    requires Chronological(s) && CanStep(s, step)
    ensures Chronological(Apply(s, ttl, step))
  {
  }

  /** Cleaning never drops what is still remembered. */
  lemma CleaningRemembers(s: State, ttl: nat)
    requires StoreRemembers(s, ttl)
    ensures StoreRemembers(s.(entries := Cleaned(s.entries, ttl, s.now)), ttl)
  {
  }

  lemma StepKeepsRemembering(s: State, ttl: nat, step: Step)
    requires StoreRemembers(s, ttl) && Chronological(s) && CanStep(s, step)
    ensures StoreRemembers(Apply(s, ttl, step), ttl)
  {
    var s' := Apply(s, ttl, step);
    CleaningRemembers(s, ttl);
    forall h | h in s'.log && h.Stored? && s'.now <= h.at + ttl
      ensures h.storeKey in s'.entries && h.at <= s'.entries[h.storeKey].createdAt
    {
      if h in s.log {
        var i :| 0 <= i < |s.log| && s.log[i] == h;
        assert s.log[i].at <= s.now;
      }
    }
  }

  lemma StepKeepsHonesty(s: State, ttl: nat, step: Step)
    requires StoreHonest(s) && CanStep(s, step)
    ensures StoreHonest(Apply(s, ttl, step))
  {
    var s' := Apply(s, ttl, step);
    forall k | k in s'.entries
      ensures s'.entries[k].createdAt <= s'.now && exists id :: StoredAs(id, k, s'.entries[k]) in s'.log
    {
      if step.StoreStep? && k == s.requests[step.id].storeKey {
        assert StoredAs(step.id, k, s'.entries[k]) in s'.log;
      } else {
        var id :| StoredAs(id, k, s.entries[k]) in s.log;
        assert StoredAs(id, k, s'.entries[k]) in s'.log;
      }
    }
  }

  lemma ExpirySnoc(log: seq<Happening>, h: Happening, ttl: nat)
    requires NewOnlyAfterExpiry(log, ttl)
    requires h.CheckedNew? ==> forall x :: x in log && x.Stored? && x.storeKey == h.storeKey ==> x.at + ttl < h.at
    ensures NewOnlyAfterExpiry(log + [h], ttl)
  {
    forall i, j | 0 <= i < j < |log| + 1 && (log + [h])[i].Stored? && (log + [h])[j].CheckedNew?
                  && (log + [h])[i].storeKey == (log + [h])[j].storeKey
      ensures (log + [h])[i].at + ttl < (log + [h])[j].at
    {
      assert log[i] in log;
    }
  }

  lemma StepKeepsExpiry(s: State, ttl: nat, step: Step)
    requires StoreRemembers(s, ttl) && NewOnlyAfterExpiry(s.log, ttl) && CanStep(s, step)
    ensures NewOnlyAfterExpiry(Apply(s, ttl, step).log, ttl)
  {
    var s' := Apply(s, ttl, step);
    if |s'.log| > |s.log| {
      var h := s'.log[|s.log|];
      assert s'.log == s.log + [h];
      if h.CheckedNew? {
        NewMeansExpired(s, ttl, h.storeKey);
      }
      ExpirySnoc(s.log, h, ttl);
    }
  }

  /** Every response stored for the key has outlived its time to live. */
  ghost predicate AllExpired(s: State, ttl: nat, storeKey: string) {
    forall h :: h in s.log && h.Stored? && h.storeKey == storeKey ==> h.at + ttl < s.now
  }

  lemma NewMeansExpired(s: State, ttl: nat, k: string)
    requires StoreRemembers(s, ttl) && k !in Cleaned(s.entries, ttl, s.now)
    ensures AllExpired(s, ttl, k)
  {
    forall h | h in s.log && h.Stored? && h.storeKey == k ensures h.at + ttl < s.now {
      assert h.storeKey !in Cleaned(s.entries, ttl, s.now);
    }
  }

  lemma ReplaysSnoc(log: seq<Happening>, h: Happening, ttl: nat)
    requires ReplaysGenuine(log, ttl)
    requires h.Replayed? ==> exists x :: x in log && IsSource(x, h, ttl)
    ensures ReplaysGenuine(log + [h], ttl)
  {
    var all := log + [h];
    forall j | 0 <= j < |all| && all[j].Replayed?
      ensures exists i :: 0 <= i < j && IsSource(all[i], all[j], ttl)
    {
      if j < |log| {
        var i :| 0 <= i < j && IsSource(log[i], log[j], ttl);
        assert IsSource(all[i], all[j], ttl);
      } else {
        var x :| x in log && IsSource(x, h, ttl);
        var i :| 0 <= i < |log| && log[i] == x;
        assert IsSource(all[i], all[j], ttl);
      }
    }
  }

  lemma StepKeepsReplays(s: State, ttl: nat, step: Step)
    requires StoreHonest(s) && ReplaysGenuine(s.log, ttl) && CanStep(s, step)
    ensures ReplaysGenuine(Apply(s, ttl, step).log, ttl)
  {
    var s' := Apply(s, ttl, step);
    if |s'.log| > |s.log| {
      var h := s'.log[|s.log|];
      assert s'.log == s.log + [h];
      if h.Replayed? {
        var id :| StoredAs(id, h.storeKey, s.entries[h.storeKey]) in s.log;
        assert IsSource(StoredAs(id, h.storeKey, s.entries[h.storeKey]), h, ttl);
      }
      ReplaysSnoc(s.log, h, ttl);
    }
  }

  lemma StepKeepsInv(s: State, ttl: nat, step: Step)
    requires Inv(s, ttl) && CanStep(s, step)
    ensures Inv(Apply(s, ttl, step), ttl)
  {
    StepKeepsOrder(s, ttl, step);
    StepKeepsTime(s, ttl, step);
    StepKeepsRemembering(s, ttl, step);
    StepKeepsHonesty(s, ttl, step);
    StepKeepsExpiry(s, ttl, step);
    StepKeepsReplays(s, ttl, step);
  }

  // ---- runs ----

  ghost predicate CanRun(s: State, ttl: nat, steps: seq<Step>)
    decreases |steps|
  {
    steps == [] || (CanStep(s, steps[0]) && CanRun(Apply(s, ttl, steps[0]), ttl, steps[1..]))
  }

  ghost function Run(s: State, ttl: nat, steps: seq<Step>): State
    requires CanRun(s, ttl, steps)
    decreases |steps|
  {
    if steps == [] then s else Run(Apply(s, ttl, steps[0]), ttl, steps[1..])
  }

  lemma {:induction false} RunKeepsInv(s: State, ttl: nat, steps: seq<Step>)
    requires Inv(s, ttl) && CanRun(s, ttl, steps)
    ensures Inv(Run(s, ttl, steps), ttl)
    decreases |steps|
  {
    if steps != [] {
      StepKeepsInv(s, ttl, steps[0]);
      RunKeepsInv(Apply(s, ttl, steps[0]), ttl, steps[1..]);
    }
  }

  /** In every interleaving a stored key is not new again until its time to live has passed. */
  lemma StoredKeyIsNotNew(ttl: nat, steps: seq<Step>)
    requires CanRun(START, ttl, steps)
    ensures NewOnlyAfterExpiry(Run(START, ttl, steps).log, ttl)
    ensures ReplaysGenuine(Run(START, ttl, steps).log, ttl)
  {
    RunKeepsInv(START, ttl, steps);
  }

  /**
   Two dispatches of one key whose requests do not overlap, the first having
   stored before the second was checked, are more than the time to live apart.
   */
  lemma DispatchesAreApart(ttl: nat, steps: seq<Step>, log: seq<Happening>,
                           dispatch1: nat, store1: nat, check2: nat, dispatch2: nat)
    requires CanRun(START, ttl, steps) && log == Run(START, ttl, steps).log
    requires dispatch1 < |log| && dispatch2 < |log| && store1 < check2 < |log|
    requires log[dispatch1].Dispatch? && log[store1].Stored? && log[dispatch1].id == log[store1].id
    requires log[check2].CheckedNew? && log[dispatch2].Dispatch? && log[check2].id == log[dispatch2].id
    requires log[dispatch1].storeKey == log[dispatch2].storeKey
    ensures log[dispatch1].at + ttl < log[dispatch2].at
  {
    RunKeepsInv(START, ttl, steps);
    FirstThenSecond(log, dispatch1, store1);
    FirstThenSecond(log, check2, dispatch2);
    SameKey(Run(START, ttl, steps), dispatch1, store1);
    SameKey(Run(START, ttl, steps), check2, dispatch2);
  }

  lemma FirstThenSecond(log: seq<Happening>, i: nat, j: nat)
    requires InOrder(log) && i < |log| && j < |log| && log[i].id == log[j].id
    requires Rank(log[i]) < Rank(log[j])
    ensures i < j
  {
  }

  lemma SameKey(s: State, i: nat, j: nat)
    requires Logged(s) && i < |s.log| && j < |s.log| && s.log[i].id == s.log[j].id
    ensures s.log[i].storeKey == s.log[j].storeKey
  {
    assert s.log[i] in s.log && s.log[j] in s.log;
  }

  /** No request is dispatched twice. */
  lemma DispatchedOnce(ttl: nat, steps: seq<Step>, i: nat, j: nat)
    requires CanRun(START, ttl, steps)
    requires var log := Run(START, ttl, steps).log;
             i < j < |log| && log[i].Dispatch? && log[j].Dispatch?
    ensures var log := Run(START, ttl, steps).log;
            log[i].id != log[j].id
  {
    RunKeepsInv(START, ttl, steps);
    var log := Run(START, ttl, steps).log;
    assert log[i].id == log[j].id ==> Rank(log[i]) < Rank(log[j]);
  }

  /**
   When a check lets a request through: exactly when every response ever stored
   for its key has outlived its time to live.  Requests that were admitted or
   dispatched and have not stored yet do not hold it back.
   */
  lemma AdmittedIffAllExpired(ttl: nat, steps: seq<Step>, id: RequestId)
    requires CanRun(START, ttl, steps) && CanStep(Run(START, ttl, steps), CheckStep(id))
    ensures var s := Run(START, ttl, steps);
            (Apply(s, ttl, CheckStep(id)).requests[id].phase.Admitted?
             <==> AllExpired(s, ttl, s.requests[id].storeKey))
  {
    RunKeepsInv(START, ttl, steps);
    AdmittedIff(Run(START, ttl, steps), ttl, id);
  }

  lemma AdmittedIff(s: State, ttl: nat, id: RequestId)
    requires StoreRemembers(s, ttl) && StoreHonest(s) && CanStep(s, CheckStep(id))
    ensures Apply(s, ttl, CheckStep(id)).requests[id].phase.Admitted?
       <==> AllExpired(s, ttl, s.requests[id].storeKey)
  {
    var k := s.requests[id].storeKey;
    if k in Cleaned(s.entries, ttl, s.now) {
      var writer :| StoredAs(writer, k, s.entries[k]) in s.log;
      assert !AllExpired(s, ttl, k);
    } else {
      NewMeansExpired(s, ttl, k);
    }
  }

  lemma RunCons(s: State, ttl: nat, step: Step, rest: seq<Step>)
    requires CanStep(s, step) && CanRun(Apply(s, ttl, step), ttl, rest)
    ensures CanRun(s, ttl, [step] + rest)
    ensures Run(s, ttl, [step] + rest) == Run(Apply(s, ttl, step), ttl, rest)
  {
    assert ([step] + rest)[1..] == rest;
  }

  /** The two requests, and how far both got. */
  function Pair(k: string, params: Value, phase: Phase): map<RequestId, Request> {
    map[0 := Request(k, params, phase), 1 := Request(k, params, phase)]
  }

  function BothAdmitted(k: string, params: Value): State {
    State(0, map[], Pair(k, params, Admitted), [CheckedNew(0, k, 0), CheckedNew(1, k, 0)])
  }

  /** So overlapping requests can both be dispatched at the same instant. */
  lemma OverlappingRequestsBothDispatch(ttl: nat, k: string, params: Value, r: StoredResponse)
    returns (steps: seq<Step>)
    ensures CanRun(START, ttl, steps)
    ensures Run(START, ttl, steps).log
         == [CheckedNew(0, k, 0), CheckedNew(1, k, 0), Dispatch(0, k, 0), Dispatch(1, k, 0)]
  {
    var s2 := State(0, map[], Pair(k, params, Arrived), []);
    var tail := BothDispatch(ttl, k, params, r);
    steps := BothAdmit(ttl, k, params, tail);
    var s1 := Apply(START, ttl, Arrive(0, k, params));
    assert Apply(s1, ttl, Arrive(1, k, params)) == s2;
    RunCons(s1, ttl, Arrive(1, k, params), steps);
    RunCons(START, ttl, Arrive(0, k, params), [Arrive(1, k, params)] + steps);
    steps := [Arrive(0, k, params)] + ([Arrive(1, k, params)] + steps);
  }

  lemma BothAdmit(ttl: nat, k: string, params: Value, tail: seq<Step>) returns (steps: seq<Step>)
    requires CanRun(BothAdmitted(k, params), ttl, tail)
    ensures var s := State(0, map[], Pair(k, params, Arrived), []);
            CanRun(s, ttl, steps) && Run(s, ttl, steps) == Run(BothAdmitted(k, params), ttl, tail)
  {
    var s := State(0, map[], Pair(k, params, Arrived), []);
    var s1 := Apply(s, ttl, CheckStep(0));
    assert s1.log == [CheckedNew(0, k, 0)] && s1.entries == map[];
    assert Apply(s1, ttl, CheckStep(1)) == BothAdmitted(k, params);
    RunCons(s1, ttl, CheckStep(1), tail);
    RunCons(s, ttl, CheckStep(0), [CheckStep(1)] + tail);
    steps := [CheckStep(0)] + ([CheckStep(1)] + tail);
  }

  lemma BothDispatch(ttl: nat, k: string, params: Value, r: StoredResponse) returns (steps: seq<Step>)
    ensures CanRun(BothAdmitted(k, params), ttl, steps)
    ensures Run(BothAdmitted(k, params), ttl, steps).log
         == [CheckedNew(0, k, 0), CheckedNew(1, k, 0), Dispatch(0, k, 0), Dispatch(1, k, 0)]
  {
    var s := BothAdmitted(k, params);
    var s1 := Apply(s, ttl, DispatchStep(0, r));
    assert s1.log == [CheckedNew(0, k, 0), CheckedNew(1, k, 0), Dispatch(0, k, 0)];
    RunCons(s1, ttl, DispatchStep(1, r), []);
    RunCons(s, ttl, DispatchStep(0, r), [DispatchStep(1, r)] + []);
    steps := [DispatchStep(0, r)] + ([DispatchStep(1, r)] + []);
  }
}
