/** What each terminal call answers, what it leaves behind, and who asked for what. */
module AcpAnswers {
  import opened Wrappers
  import opened AcpProtocol
  import opened AcpInvariant
  import opened AcpRuns

  /** The terminal is not in the map, or its status is known. */
  predicate Settled(slot: Slot) {
    slot.entry.None? || slot.exitStatus.Some?
  }

  function PidOf(slot: Slot): Option<nat> {
    match slot.entry
    case Some(e) => e.pid
    case None => None
  }

  // ---- answers ----

  /** A wait answers with the published status, unless its terminal is unknown or waiting failed. */
  lemma WaitAnswers(s: State, k: TaskId, a: Answer)
    requires Reachable(s) && CanStep(s, PollStep(k, a)) && s.tasks[k].op.Wait?
    ensures var t, t' := s.tasks[k], Apply(s, PollStep(k, a)).tasks[k];
            var slot, slot' := SlotOf(s, t.terminal), SlotOf(Apply(s, PollStep(k, a)), t.terminal);
            && (t'.pc.Returned? <==> if Owns(t) then t.pc.Draining? || (t.pc.AwaitingChild? && a.waitFails)
                                     else Settled(slot))
            && (t'.pc.Returned? ==>
                  t'.pc == Returned(
                    if t.pc.AwaitingChild? then WaitFailed
                    else if slot.entry.None? && (t.pc.Fresh? || slot.exitStatus.None?) then UnknownTerminal
                    else Exited(slot'.exitStatus.GetOr(UNKNOWN_STATUS))))
            && (t'.pc.Returned? && t'.pc.outcome.Exited? ==> slot'.exitStatus.Some?)
  {
    ReachableInv(s);
  }

  /** A release answers Ok, unless the first time it looked the terminal was unknown. */
  lemma ReleaseAnswers(s: State, k: TaskId, a: Answer)
    requires Reachable(s) && CanStep(s, PollStep(k, a)) && s.tasks[k].op.Release?
    ensures var t, t' := s.tasks[k], Apply(s, PollStep(k, a)).tasks[k];
            var slot := SlotOf(s, t.terminal);
            && (t'.pc.Returned? <==> if Owns(t) then t.pc.Draining? else Settled(slot))
            && (t'.pc.Returned? ==>
                  t'.pc == Returned(if t.pc.Fresh? && slot.entry.None? then UnknownTerminal else Finished))
  {
    ReachableInv(s);
  }

  /** A kill answers Ok, unless its terminal was unknown when it started. */
  lemma KillAnswers(s: State, k: TaskId, a: Answer)
    requires Reachable(s) && CanStep(s, PollStep(k, a)) && s.tasks[k].op.Kill?
    ensures var t, t' := s.tasks[k], Apply(s, PollStep(k, a)).tasks[k];
            var slot := SlotOf(s, t.terminal);
            && (t'.pc.Returned? <==> if Owns(t) then t.pc.Draining? else t.pc.Signalling? || Settled(slot))
            && (t'.pc.Returned? ==>
                  t'.pc == Returned(if t.pc.Fresh? && slot.entry.None? then UnknownTerminal else Finished))
  {
    ReachableInv(s);
  }

  /**
   How a call takes over: a wait looks once whether the child exited and else
   awaits it; whoever has a status to publish, or came to stop the child,
   begins by signalling the process group.
   */
  lemma TakeoverBegins(s: State, k: TaskId, a: Answer)
    requires Reachable(s) && CanStep(s, PollStep(k, a))
    requires !Owns(s.tasks[k]) && Owns(Apply(s, PollStep(k, a)).tasks[k])
    ensures var t, t' := s.tasks[k], Apply(s, PollStep(k, a)).tasks[k];
            var slot, slot' := SlotOf(s, t.terminal), SlotOf(Apply(s, PollStep(k, a)), t.terminal);
            && t'.pc == (if t.op.Wait? && slot'.pending.None? then AwaitingChild else Terminating)
            && slot'.pending == (if slot.pending.None? && t.op.Wait? && a.tryWaitSees then slot.reported else slot.pending)
            && t'.pid == PidOf(slot) && slot'.cleanup
  {
    ReachableInv(s);
    AfterPoll(s, k, a);
    PollTakesOver(SlotOf(s, s.tasks[k].terminal), s.tasks[k], a);
  }

  /** What a poll leaves of the call and of its terminal. */
  lemma AfterPoll(s: State, k: TaskId, a: Answer)
    requires Inv(s) && CanStep(s, PollStep(k, a))
    ensures var t := s.tasks[k];
            var s' := Apply(s, PollStep(k, a));
            (SlotOf(s', t.terminal), s'.tasks[k]) == Poll(SlotOf(s, t.terminal), t, a)
  {
    PollKeeps(SlotOf(s, s.tasks[k].terminal), s.tasks[k], a);
  }

  lemma PollTakesOver(slot: Slot, t: Task, a: Answer)
    requires SlotOk(slot, t.terminal) && TaskOk(slot, t) && Enabled(slot, t, a)
    requires !Owns(t) && Owns(Poll(slot, t, a).1)
    ensures var (slot', t') := Poll(slot, t, a);
            && t'.pc == (if t.op.Wait? && slot'.pending.None? then AwaitingChild else Terminating)
            && slot'.pending == (if slot.pending.None? && t.op.Wait? && a.tryWaitSees then slot.reported else slot.pending)
            && t'.pid == PidOf(slot) && slot'.cleanup
  {
    match t.op
    case Wait =>
    case Release =>
    case Kill =>
  }

  /** A cancelled call that owns nothing leaves every terminal as it is. */
  lemma CancelElsewhere(s: State, k: TaskId)
    requires Reachable(s) && CanStep(s, CancelStep(k)) && !Owns(s.tasks[k])
    ensures Apply(s, CancelStep(k)).slots == s.slots
    ensures Apply(s, CancelStep(k)).tasks[k].pc == Returned(Cancelled)
  {
    var id := s.tasks[k].terminal;
    if id in s.slots {
      assert s.slots[id := s.slots[id]] == s.slots;
    }
  }

  function Count<T(==)>(a: Option<T>, x: T): nat {
    if a == Some(x) then 1 else 0
  }

  /** The destructor never loses or doubles a handle: each goes back, or is killed or aborted. */
  lemma DropConservesHandles(slot: Slot, guard: Guard, child: Child, reader: Reader)
    requires slot.entry.Some?
    ensures var before, after := slot.entry.value, DropGuard(slot, guard).entry.value;
            var left := Leftover(slot, guard);
            && Count(after.child, child) + Count(left.child, child)
               == Count(before.child, child) + Count(guard.child, child)
            && Count(after.reader, reader) + Count(left.reader, reader)
               == Count(before.reader, reader) + Count(guard.reader, reader)
            && after.pid == before.pid
  {
  }

  // ---- what a call that owned the terminal leaves behind ----

  /** The last poll of an owner publishes the pending status; the entry goes exactly when a release asked. */
  lemma OwnerLeaves(s: State, k: TaskId, a: Answer)
    requires Reachable(s) && CanStep(s, PollStep(k, a)) && s.tasks[k].pc.Draining?
    ensures var id := s.tasks[k].terminal;
            var slot, slot' := SlotOf(s, id), SlotOf(Apply(s, PollStep(k, a)), id);
            && slot'.exitStatus == slot.pending && slot'.pending.None? && !slot'.cleanup && slot'.drained
            && (slot'.entry.None? <==> s.tasks[k].op.Release? || slot.releaseRequested)
  {
    ReachableInv(s);
    AfterPoll(s, k, a);
    LastPoll(SlotOf(s, s.tasks[k].terminal), s.tasks[k], a);
  }

  lemma LastPoll(slot: Slot, t: Task, a: Answer)
    requires SlotOk(slot, t.terminal) && TaskOk(slot, t) && Enabled(slot, t, a) && t.pc.Draining?
    ensures var slot' := Poll(slot, t, a).0;
            && slot'.exitStatus == slot.pending && slot'.pending.None? && !slot'.cleanup && slot'.drained
            && (slot'.entry.None? <==> t.op.Release? || slot.releaseRequested)
  {
  }

  /** What a step does to one terminal of the map. */
  function SlotAfter(s: State, step: Step, id: TerminalId): Slot
    requires CanStep(s, step) && id in s.slots
  {
    match step
    case PollStep(k, a) =>
      if s.tasks[k].terminal == id then Poll(s.slots[id], s.tasks[k], a).0 else s.slots[id]
    case CancelStep(k) =>
      if s.tasks[k].terminal == id then Cancel(s.slots[id], s.tasks[k]).0 else s.slots[id]
    case ExitStep(i, status) =>
      if i == id then s.slots[id].(reported := Some(status)) else s.slots[id]
    case _ => s.slots[id]
  }

  lemma AfterStep(s: State, step: Step, id: TerminalId)
    requires Inv(s) && CanStep(s, step) && id in s.slots
    ensures id in Apply(s, step).slots && Apply(s, step).slots[id] == SlotAfter(s, step, id)
  {
    match step
    case PollStep(k, a) => PollKeeps(SlotOf(s, s.tasks[k].terminal), s.tasks[k], a);
    case _ =>
  }

  /** The reader counts as drained by the poll that finishes draining it, and by no other step. */
  lemma DrainedOnlyByDraining(s: State, step: Step, id: TerminalId)
    requires Reachable(s) && CanStep(s, step) && id in s.slots && !s.slots[id].drained
    ensures id in Apply(s, step).slots
    ensures Apply(s, step).slots[id].drained
       <==> step.PollStep? && s.tasks[step.task].terminal == id && s.tasks[step.task].pc.Draining?
  {
    ReachableInv(s);
    AfterStep(s, step, id);
    if step.PollStep? && s.tasks[step.task].terminal == id {
      PollDrains(s.slots[id], s.tasks[step.task], step.answer);
    }
  }

  lemma PollDrains(slot: Slot, t: Task, a: Answer)
    requires SlotOk(slot, t.terminal) && TaskOk(slot, t) && Enabled(slot, t, a) && !slot.drained
    ensures Poll(slot, t, a).0.drained <==> t.pc.Draining?
  {
    match t.op
    case Wait =>
    case Release =>
    case Kill =>
  }

  /**
   Every kill that owns a terminal has a status to publish once it waited, so the
   reader is never drained without publishing one.
   */
  lemma DrainingPublishes(s: State, k: TaskId)
    requires Reachable(s) && k in s.tasks
    ensures !s.tasks[k].pc.DrainingDetached?
    ensures s.tasks[k].op.Kill? && s.tasks[k].pc.Draining? ==> SlotOf(s, s.tasks[k].terminal).pending.Some?
  {
    ReachableInv(s);
  }

  /** The placeholder is published only on behalf of a kill whose own wait failed. */
  lemma PlaceholderOnlyByFailedKill(s: State, step: Step, id: TerminalId)
    requires Reachable(s) && CanStep(s, step) && id in s.slots && !s.slots[id].killWaitFailed
    ensures id in Apply(s, step).slots
    ensures Apply(s, step).slots[id].killWaitFailed
       <==> step.PollStep? && step.answer.waitFails && s.tasks[step.task].terminal == id
            && s.tasks[step.task].op.Kill? && s.tasks[step.task].pc.AwaitingChild?
  {
    ReachableInv(s);
    AfterStep(s, step, id);
    if step.PollStep? && s.tasks[step.task].terminal == id {
      PollFailsKill(s.slots[id], s.tasks[step.task], step.answer);
    }
  }

  lemma PollFailsKill(slot: Slot, t: Task, a: Answer)
    requires SlotOk(slot, t.terminal) && TaskOk(slot, t) && Enabled(slot, t, a) && !slot.killWaitFailed
    ensures Poll(slot, t, a).0.killWaitFailed <==> a.waitFails && t.op.Kill? && t.pc.AwaitingChild?
  {
    match t.op
    case Wait =>
    case Release =>
    case Kill =>
  }

  // ---- the pid ----

  /** A mapped terminal keeps the pid it was created with until an owner has signalled its process group. */
  lemma PidClearedOnlyAfterSignalling(s: State, step: Step, id: TerminalId)
    requires Reachable(s) && CanStep(s, step) && id in s.slots && PidOf(s.slots[id]).Some?
    ensures id in Apply(s, step).slots
    ensures PidOf(Apply(s, step).slots[id])
         == if step.PollStep? && s.tasks[step.task].terminal == id && s.tasks[step.task].pc.Terminating?
            then None else PidOf(s.slots[id])
  {
    ReachableInv(s);
    AfterStep(s, step, id);
    if step.PollStep? && s.tasks[step.task].terminal == id {
      PollPid(s.slots[id], s.tasks[step.task], step.answer);
    }
  }

  lemma PollPid(slot: Slot, t: Task, a: Answer)
    requires SlotOk(slot, t.terminal) && TaskOk(slot, t) && Enabled(slot, t, a) && PidOf(slot).Some?
    ensures PidOf(Poll(slot, t, a).0) == if t.pc.Terminating? then None else PidOf(slot)
  {
    match t.op
    case Wait =>
    case Release =>
    case Kill =>
  }

  /** A new terminal has its child, its pid and its reader. */
  lemma CreatedHoldsAll(s: State, id: TerminalId, pid: Option<nat>)
    requires CanStep(s, CreateStep(id, pid))
    ensures var slot := SlotOf(Apply(s, CreateStep(id, pid)), id);
            && slot.entry == Some(Entry(Some(Child(id)), pid, Some(Reader(id))))
            && slot.exitStatus.None? && slot.pending.None? && slot.reported.None?
            && !slot.cleanup && !slot.releaseRequested
  {
  }

  // ---- requests to release ----

  /** Release `k` found terminal `id` in the map. */
  ghost predicate AskedBy(tasks: map<TaskId, Task>, k: TaskId, id: TerminalId) {
    k in tasks && tasks[k].terminal == id && tasks[k].op.Release? && tasks[k].sawTerminal
  }

  ghost predicate TaskAsked(slot: Slot, t: Task) {
    && (t.sawTerminal ==> slot != ABSENT && (slot.entry.None? || slot.releaseRequested))
    && (t.op.Release? && Owns(t) ==> t.sawTerminal)
  }

  ghost predicate RequestsOk(s: State) {
    && (forall k :: k in s.tasks ==> TaskAsked(SlotOf(s, s.tasks[k].terminal), s.tasks[k]))
    && (forall id :: id in s.slots && s.slots[id].entry.None? ==> s.slots[id].releaseRequested)
    && (forall id :: id in s.slots && s.slots[id].releaseRequested ==> exists k :: AskedBy(s.tasks, k, id))
  }

  /** One poll of one call keeps what was asked for. */
  ghost predicate KeepsRequests(slot: Slot, t: Task, after: (Slot, Task)) {
    && TaskAsked(after.0, after.1) && (t.sawTerminal ==> after.1.sawTerminal)
    && (slot.releaseRequested ==> after.0.releaseRequested)
    && (slot.entry.None? ==> after.0.entry.None?)
    && (after.0.releaseRequested && !slot.releaseRequested ==> after.1.op.Release? && after.1.sawTerminal)
    && (after.0 == ABSENT || after.0.entry.Some? || after.0.releaseRequested)
  }

  lemma WaitKeepsRequests(slot: Slot, t: Task, a: Answer)
    requires SlotOk(slot, t.terminal) && TaskOk(slot, t) && Enabled(slot, t, a) && TaskAsked(slot, t)
    requires slot == ABSENT || slot.entry.Some? || slot.releaseRequested
    requires t.op.Wait?
    ensures KeepsRequests(slot, t, PollWait(slot, t, a))
  {
  }

  lemma ReleaseKeepsRequests(slot: Slot, t: Task, a: Answer)
    requires SlotOk(slot, t.terminal) && TaskOk(slot, t) && Enabled(slot, t, a) && TaskAsked(slot, t)
    requires slot == ABSENT || slot.entry.Some? || slot.releaseRequested
    requires t.op.Release?
    ensures KeepsRequests(slot, t, PollRelease(slot, t, a))
  {
  }

  lemma KillKeepsRequests(slot: Slot, t: Task, a: Answer)
    requires SlotOk(slot, t.terminal) && TaskOk(slot, t) && Enabled(slot, t, a) && TaskAsked(slot, t)
    requires slot == ABSENT || slot.entry.Some? || slot.releaseRequested
    requires t.op.Kill?
    ensures KeepsRequests(slot, t, PollKill(slot, t, a))
  {
  }

  /** A step of call `k` that keeps requests, seen from the whole client. */
  lemma PutKeepsRequests(s: State, k: TaskId, after: (Slot, Task))
    requires RequestsOk(s) && k in s.tasks && after.1.terminal == s.tasks[k].terminal && after.1.op == s.tasks[k].op
    requires KeepsRequests(SlotOf(s, s.tasks[k].terminal), s.tasks[k], after)
    requires s.tasks[k].terminal in s.slots ==> after.0 != ABSENT
    requires s.tasks[k].terminal !in s.slots ==> after.0 == ABSENT
    ensures RequestsOk(Put(s, k, after))
  {
    var s' := Put(s, k, after);
    forall id | id in s'.slots && s'.slots[id].releaseRequested ensures exists j :: AskedBy(s'.tasks, j, id) {
      if s.slots[id].releaseRequested {
        var j :| AskedBy(s.tasks, j, id);
        assert AskedBy(s'.tasks, j, id);
      } else {
        assert AskedBy(s'.tasks, k, id);
      }
    }
    assert SlotOf(s', s.tasks[k].terminal) == after.0;
  }

  lemma PollKeepsRequests(s: State, k: TaskId, a: Answer)
    requires Inv(s) && RequestsOk(s) && CanStep(s, PollStep(k, a))
    ensures RequestsOk(Apply(s, PollStep(k, a)))
  {
    var slot, t := SlotOf(s, s.tasks[k].terminal), s.tasks[k];
    PollKeeps(slot, t, a);
    match t.op {
      case Wait => WaitKeepsRequests(slot, t, a);
      case Release => ReleaseKeepsRequests(slot, t, a);
      case Kill => KillKeepsRequests(slot, t, a);
    }
    PutKeepsRequests(s, k, Poll(slot, t, a));
  }

  lemma CancelKeepsRequests(s: State, k: TaskId)
    requires Inv(s) && RequestsOk(s) && CanStep(s, CancelStep(k))
    ensures RequestsOk(Apply(s, CancelStep(k)))
  {
    var slot, t := SlotOf(s, s.tasks[k].terminal), s.tasks[k];
    CancelKeeps(slot, t);
    PutKeepsRequests(s, k, Cancel(slot, t));
  }

  lemma StepKeepsRequests(s: State, step: Step)
    requires Inv(s) && RequestsOk(s) && CanStep(s, step)
    ensures RequestsOk(Apply(s, step))
  {
    var s' := Apply(s, step);
    match step
    case PollStep(k, a) => PollKeepsRequests(s, k, a);
    case CancelStep(k) => CancelKeepsRequests(s, k);
    case CreateStep(id, pid) => CreateKeepsRequests(s, id, pid);
    case CallStep(k, op, id) =>
      forall i | i in s'.slots && s'.slots[i].releaseRequested ensures exists j :: AskedBy(s'.tasks, j, i) {
        var j :| AskedBy(s.tasks, j, i);
        assert AskedBy(s'.tasks, j, i);
      }
    case ExitStep(id, status) =>
      forall i | i in s'.slots && s'.slots[i].releaseRequested ensures exists j :: AskedBy(s'.tasks, j, i) {
        assert s.slots[i].releaseRequested;
      }
  }

  lemma CreateKeepsRequests(s: State, id: TerminalId, pid: Option<nat>)
    requires RequestsOk(s) && Inv(s) && CanStep(s, CreateStep(id, pid))
    ensures RequestsOk(Apply(s, CreateStep(id, pid)))
  {
    var s' := Apply(s, CreateStep(id, pid));
    forall k | k in s'.tasks ensures TaskAsked(SlotOf(s', s'.tasks[k].terminal), s'.tasks[k]) {
      assert TaskOk(SlotOf(s, s.tasks[k].terminal), s.tasks[k]);
      if s.tasks[k].terminal == id {
        assert SlotOf(s, id) == ABSENT;
      }
    }
    forall i | i in s'.slots && s'.slots[i].releaseRequested ensures exists j :: AskedBy(s'.tasks, j, i) {
      assert s.slots[i].releaseRequested;
    }
  }

  lemma {:induction false} RunKeepsRequests(s: State, steps: seq<Step>)
    requires Inv(s) && RequestsOk(s) && CanRun(s, steps)
    ensures RequestsOk(Run(s, steps))
    decreases |steps|
  {
    if steps != [] {
      StepKeepsRequests(s, steps[0]);
      StepKeepsInv(s, steps[0]);
      RunKeepsRequests(Apply(s, steps[0]), steps[1..]);
    }
  }

  /**
   A terminal leaves the map only because some release found it there; and as
   soon as one has, publishing the status removes the terminal.
   */
  lemma RemovedOnlyOnRequest(s: State, id: TerminalId)
    requires Reachable(s) && id in s.slots
    ensures s.slots[id].entry.None? ==> exists k :: AskedBy(s.tasks, k, id)
    ensures (exists k :: AskedBy(s.tasks, k, id)) && Published(s.slots[id]) ==> s.slots[id].entry.None?
  {
    ReachableInv(s);
    var steps :| CanRun(EMPTY, steps) && Run(EMPTY, steps) == s;
    RunKeepsRequests(EMPTY, steps);
    if k :| AskedBy(s.tasks, k, id) {
      assert TaskAsked(s.slots[id], s.tasks[k]);
    }
  }
}
