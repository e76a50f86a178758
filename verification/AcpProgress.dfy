/**
 Progress of the terminal lifecycle, and the one way it breaks: a release whose
 wait for the child failed drops the child without a status.
 */
module AcpProgress {
  import opened Wrappers
  import opened AcpProtocol
  import opened AcpInvariant
  import opened AcpRuns

  const GOOD := Answer(true, false)
  const WAIT_FAILS := Answer(false, true)

  // ---- a published status is always within reach ----

  /** Polls an owner still needs after the next one. */
  function Rank(t: Task): nat {
    match t.pc
    case Terminating => if t.op.Wait? then 1 else 2
    case AwaitingChild => if t.op.Wait? then 2 else 1
    case _ => 0
  }

  /** The child of `id` exited and its status was not lost. */
  ghost predicate Ready(s: State, id: TerminalId) {
    id in s.slots && s.slots[id].reported.Some? && !s.slots[id].lost
  }

  lemma OwnerPollAdvances(slot: Slot, t: Task)
    requires SlotOk(slot, t.terminal) && TaskOk(slot, t) && Owns(t)
    requires slot.reported.Some? && !slot.lost
    ensures var (slot', t') := Poll(slot, t, GOOD);
            && slot'.reported.Some? && !slot'.lost
            && (Published(slot') || (Owns(t') && Rank(t') < Rank(t)))
  {
    match t.op
    case Wait =>
    case Release =>
    case Kill =>
  }

  lemma OwnerAdvances(s: State, k: TaskId, id: TerminalId)
    requires Inv(s) && OwnerOf(s.tasks, k, id) && Ready(s, id)
    ensures CanStep(s, PollStep(k, GOOD))
    ensures var s' := Apply(s, PollStep(k, GOOD));
            && Inv(s') && Ready(s', id)
            && (Published(s'.slots[id]) || (OwnerOf(s'.tasks, k, id) && Rank(s'.tasks[k]) < Rank(s.tasks[k])))
  {
    StepKeepsInv(s, PollStep(k, GOOD));
    OwnerPollAdvances(s.slots[id], s.tasks[k]);
    PollKeeps(s.slots[id], s.tasks[k], GOOD);
  }

  /** Left alone, an owner publishes within three polls. */
  lemma {:induction false} OwnerPublishes(s: State, k: TaskId, id: TerminalId) returns (steps: seq<Step>)
    requires Inv(s) && OwnerOf(s.tasks, k, id) && Ready(s, id)
    ensures |steps| <= 1 + Rank(s.tasks[k]) && CanRun(s, steps)
    ensures Published(SlotOf(Run(s, steps), id))
    decreases Rank(s.tasks[k])
  {
    OwnerAdvances(s, k, id);
    var s' := Apply(s, PollStep(k, GOOD));
    if Published(s'.slots[id]) {
      steps := [PollStep(k, GOOD)];
      assert steps[1..] == [];
    } else {
      var rest := OwnerPublishes(s', k, id);
      steps := [PollStep(k, GOOD)] + rest;
      assert steps[1..] == rest;
    }
  }

  /**
   From every reachable state the status of a terminal whose child exited can
   still be published: by the owner if there is one, else by one new wait.
   */
  lemma StatusAlwaysInReach(s: State, id: TerminalId, unused: TaskId) returns (steps: seq<Step>)
    requires Reachable(s) && Ready(s, id) && s.slots[id].entry.Some? && !Published(s.slots[id])
    requires unused !in s.tasks
    ensures |steps| <= 5 && CanRun(s, steps)
    ensures Published(SlotOf(Run(s, steps), id))
  {
    ReachableInv(s);
    if s.slots[id].cleanup {
      var k :| OwnerOf(s.tasks, k, id);
      steps := OwnerPublishes(s, k, id);
    } else {
      steps := NewWaitPublishes(s, id, unused);
    }
  }

  lemma NewWaitPublishes(s: State, id: TerminalId, unused: TaskId) returns (steps: seq<Step>)
    requires Inv(s) && Ready(s, id) && s.slots[id].entry.Some?
    requires !Published(s.slots[id]) && !s.slots[id].cleanup && unused !in s.tasks
    ensures |steps| <= 5 && CanRun(s, steps)
    ensures Published(SlotOf(Run(s, steps), id))
  {
    var call, poll := CallStep(unused, Wait, id), PollStep(unused, GOOD);
    NewWaitOwns(s, id, unused);
    var s1 := Apply(s, call);
    steps := OwnerPublishes(Apply(s1, poll), unused, id);
    RunCons(s1, poll, steps);
    RunCons(s, call, [poll] + steps);
    steps := [call] + ([poll] + steps);
  }

  lemma RunCons(s: State, step: Step, rest: seq<Step>)
    requires CanStep(s, step) && CanRun(Apply(s, step), rest)
    ensures CanRun(s, [step] + rest) && Run(s, [step] + rest) == Run(Apply(s, step), rest)
  {
    assert ([step] + rest)[1..] == rest;
  }

  /** A new wait on an idle terminal takes it over at its first poll. */
  lemma NewWaitOwns(s: State, id: TerminalId, unused: TaskId)
    requires Inv(s) && Ready(s, id) && s.slots[id].entry.Some?
    requires !Published(s.slots[id]) && !s.slots[id].cleanup && unused !in s.tasks
    ensures var s1 := Apply(s, CallStep(unused, Wait, id));
            && CanStep(s1, PollStep(unused, GOOD))
            && var s2 := Apply(s1, PollStep(unused, GOOD));
               Inv(s2) && OwnerOf(s2.tasks, unused, id) && Ready(s2, id)
  {
    var call := CallStep(unused, Wait, id);
    StepKeepsInv(s, call);
    StepKeepsInv(Apply(s, call), PollStep(unused, GOOD));
  }

  // ---- how a status is lost ----

  lemma PollLoses(slot: Slot, t: Task, a: Answer)
    requires SlotOk(slot, t.terminal) && TaskOk(slot, t) && Enabled(slot, t, a) && !slot.lost
    ensures Poll(slot, t, a).0.lost <==> a.waitFails && t.op.Release? && t.pc.AwaitingChild?
  {
    match t.op
    case Wait =>
    case Release =>
    case Kill =>
  }

  /** Only one step loses a status: the failed wait of a release that owns the child. */
  lemma LostOnlyByFailedRelease(s: State, step: Step, id: TerminalId)
    requires Reachable(s) && CanStep(s, step) && id in s.slots && !s.slots[id].lost
    ensures Apply(s, step).slots[id].lost
       <==> step.PollStep? && step.answer.waitFails && s.tasks[step.task].terminal == id
            && s.tasks[step.task].op.Release? && s.tasks[step.task].pc.AwaitingChild?
  {
    ReachableInv(s);
    if step.PollStep? {
      var t := s.tasks[step.task];
      PollKeeps(SlotOf(s, t.terminal), t, step.answer);
      if t.terminal == id {
        PollLoses(s.slots[id], t, step.answer);
      }
    }
  }

  /** Once lost, no status is ever published and no wait ever succeeds. */
  lemma LostForever(s: State, steps: seq<Step>, id: TerminalId)
    requires Reachable(s) && CanRun(s, steps) && SlotOf(s, id).lost
    ensures SlotOf(Run(s, steps), id).lost && !Published(SlotOf(Run(s, steps), id))
    ensures forall k, v :: k in Run(s, steps).tasks && Run(s, steps).tasks[k].terminal == id
              ==> Run(s, steps).tasks[k].pc != Returned(Exited(v))
  {
    ReachableInv(s);
    RunKeepsInv(s, steps);
    RunMovesForward(s, steps, id);
    LostAnswersNobody(Run(s, steps), id);
  }

  lemma LostAnswersNobody(s: State, id: TerminalId)
    requires Inv(s) && SlotOf(s, id).lost
    ensures !Published(SlotOf(s, id))
    ensures forall k, v :: k in s.tasks && s.tasks[k].terminal == id ==> s.tasks[k].pc != Returned(Exited(v))
  {
    assert id in s.slots && SlotOk(s.slots[id], id);
    forall k, v | k in s.tasks && s.tasks[k].terminal == id
      ensures s.tasks[k].pc != Returned(Exited(v))
    {
      assert TaskOk(SlotOf(s, id), s.tasks[k]);
    }
  }

  const T := "term-1"

  /** The handles of T. */
  const HANDLES := Guard(Some(Child(T)), Some(Reader(T)))

  /** A release or a kill that just took over T. */
  function Owned(op: Op): State {
    State(map[T := Created(T, None).(entry := Some(Entry(None, Some(1), None)), cleanup := true,
                                     releaseRequested := op.Release?)],
          map[0 := Task(op, T, Terminating, op.Release?, HANDLES, Some(1), None)])
  }

  lemma OwnedIsReachable(op: Op)
    requires !op.Wait?
    ensures Reachable(Owned(op))
  {
    assert CanRun(EMPTY, []) && Run(EMPTY, []) == EMPTY;
    var s1 := Apply(EMPTY, CreateStep(T, Some(1)));
    ReachableSnoc(EMPTY, CreateStep(T, Some(1)));
    var s2 := Apply(s1, CallStep(0, op, T));
    ReachableSnoc(s1, CallStep(0, op, T));
    ReachableSnoc(s2, PollStep(0, GOOD));
    assert Apply(s2, PollStep(0, GOOD)) == Owned(op);
  }

  /** It got as far as waiting for the child. */
  function Waiting(op: Op): State {
    State(map[T := Created(T, None).(entry := Some(Entry(None, None, None)), cleanup := true,
                                     releaseRequested := op.Release?)],
          map[0 := Task(op, T, AwaitingChild, op.Release?, HANDLES, Some(1), None)])
  }

  lemma WaitingIsReachable(op: Op)
    requires !op.Wait?
    ensures Reachable(Waiting(op))
  {
    OwnedIsReachable(op);
    ReachableSnoc(Owned(op), PollStep(0, GOOD));
    assert Apply(Owned(op), PollStep(0, GOOD)) == Waiting(op);
  }

  /** A release whose wait fails and which is then cancelled strands the terminal. */
  lemma StrandingHappens() returns (s: State)
    ensures Reachable(s) && T in s.slots && FallsThrough(s.slots[T])
  {
    WaitingIsReachable(Release);
    var failed := Apply(Waiting(Release), PollStep(0, WAIT_FAILS));
    ReachableSnoc(Waiting(Release), PollStep(0, WAIT_FAILS));
    assert failed.slots[T].lost && failed.tasks[0].pc.Draining?;
    s := Apply(failed, CancelStep(0));
    ReachableSnoc(failed, CancelStep(0));
    ReachableInv(s);
  }

  /** Left to finish, the same release removes the terminal without any status. */
  lemma SilentRemovalHappens() returns (s: State)
    ensures Reachable(s) && T in s.slots && s.slots[T].entry.None? && !Published(s.slots[T])
  {
    WaitingIsReachable(Release);
    var failed := Apply(Waiting(Release), PollStep(0, WAIT_FAILS));
    ReachableSnoc(Waiting(Release), PollStep(0, WAIT_FAILS));
    assert failed.slots[T].lost && failed.tasks[0].pc.Draining?;
    s := Apply(failed, PollStep(0, GOOD));
    ReachableSnoc(failed, PollStep(0, GOOD));
    ReachableInv(s);
  }

  /** A kill whose wait fails publishes a status that the system never reported. */
  lemma PlaceholderHappens() returns (s: State)
    ensures Reachable(s) && T in s.slots
    ensures s.slots[T].exitStatus == Some(UNKNOWN_STATUS) && s.slots[T].reported.None?
  {
    var failed := KillWaitFails();
    s := Apply(failed, PollStep(0, GOOD));
    ReachableSnoc(failed, PollStep(0, GOOD));
  }

  lemma KillWaitFails() returns (s: State)
    ensures Reachable(s) && T in s.slots && 0 in s.tasks
    ensures s.slots[T].pending == Some(UNKNOWN_STATUS) && s.slots[T].reported.None?
    ensures s.tasks[0].op.Kill? && s.tasks[0].terminal == T && s.tasks[0].pc.Draining?
  {
    WaitingIsReachable(Kill);
    s := Apply(Waiting(Kill), PollStep(0, WAIT_FAILS));
    ReachableSnoc(Waiting(Kill), PollStep(0, WAIT_FAILS));
  }
}
