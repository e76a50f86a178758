/**
 The inductive invariant of the terminal lifecycle.

 `SlotOk` speaks of one terminal, `TaskOk` of one call and its terminal, and
 `Inv` adds that the cleanup flag is exactly the existence of one owner.
 */
module AcpInvariant {
  import opened Wrappers
  import opened AcpProtocol

  ghost predicate Published(slot: Slot) {
    slot.exitStatus.Some?
  }

  /** A status is what the system reported; after a failed kill it is the placeholder. */
  ghost predicate Genuine(slot: Slot, status: ExitStatus) {
    if slot.killWaitFailed then status == UNKNOWN_STATUS else slot.reported == Some(status)
  }

  ghost predicate SlotOk(slot: Slot, id: TerminalId) {
    && (slot.exitStatus.Some? ==> Genuine(slot, slot.exitStatus.value))
    && (slot.pending.Some? ==> Genuine(slot, slot.pending.value))
    && (slot.killWaitFailed ==> Published(slot) || slot.pending.Some?)
    && (slot.lost ==> !Published(slot) && slot.pending.None?)
    && (Published(slot) ==> slot.pending.None? && !slot.cleanup && slot.drained)
    && match slot.entry
       case None => !slot.cleanup && (Published(slot) || slot.lost || slot == ABSENT)
       case Some(e) => EntryOk(slot, e, id)
  }

  ghost predicate EntryOk(slot: Slot, e: Entry, id: TerminalId) {
    if Published(slot) then e == Entry(None, None, None) && !slot.releaseRequested
    else if slot.cleanup then e.child.None? && e.reader.None?
    else
      && e.reader == Some(Reader(id))
      && e.child == (if slot.lost || slot.pending.Some? then None else Some(Child(id)))
  }

  ghost predicate TaskOk(slot: Slot, t: Task) {
    && (t.sawTerminal ==> t.op.Release?)
    && (!Owns(t) ==> t.guard == EMPTY_GUARD)
    && match t.pc
    case Fresh => !t.sawTerminal
    case Polling => t.op.Wait? && slot != ABSENT
    case Signalling => !t.op.Wait? && slot != ABSENT && (t.op.Release? ==> t.sawTerminal)
    case Returned(Exited(status)) => t.op.Wait? && slot.exitStatus == Some(status)
    case Returned(Finished) => t.op.Release? ==> slot != ABSENT && slot.entry.None?
    case Returned(UnknownTerminal) => !t.sawTerminal
    case Returned(_) => true
    case _ => slot.entry.Some? && slot.cleanup && OwnerOk(slot, slot.entry.value, t)
  }

  /** What the owner holds, point by point. */
  ghost predicate OwnerOk(slot: Slot, e: Entry, t: Task) {
    && t.guard.reader == Some(Reader(t.terminal))
    && t.guard.child == (if slot.lost || slot.pending.Some? then None else Some(Child(t.terminal)))
    && (slot.lost ==> t.op.Release?)
    && (t.op.Wait? && !t.pc.AwaitingChild? ==> slot.pending.Some? && t.status == slot.pending)
    && match t.pc
       case Terminating => t.pid == e.pid
       case AwaitingChild =>
         t.guard.child.Some? && (if t.op.Wait? then t.pid == e.pid else e.pid.None?)
       case Draining => t.guard.child.None? && e.pid.None?
       case _ => false
  }

  /** Call `k` owns terminal `id`. */
  ghost predicate OwnerOf(tasks: map<TaskId, Task>, k: TaskId, id: TerminalId) {
    k in tasks && tasks[k].terminal == id && Owns(tasks[k])
  }

  ghost predicate Inv(s: State) {
    && (forall id :: id in s.slots ==> s.slots[id] != ABSENT && SlotOk(s.slots[id], id))
    && (forall k :: k in s.tasks ==> TaskOk(SlotOf(s, s.tasks[k].terminal), s.tasks[k]))
    && (forall id :: id in s.slots && s.slots[id].cleanup ==> exists k :: OwnerOf(s.tasks, k, id))
    && (forall j, k, id :: OwnerOf(s.tasks, j, id) && OwnerOf(s.tasks, k, id) ==> j == k)
  }

  // ---- one call, one terminal ----

  /** What a step of `t` may do to the terminal as the other calls see it. */
  ghost predicate Framed(slot: Slot, t: Task, slot': Slot, t': Task) {
    && t'.terminal == t.terminal && t'.op == t.op
    && (slot' == ABSENT <==> slot == ABSENT)
    && (Published(slot) ==> slot'.exitStatus == slot.exitStatus)
    && (slot.entry.None? ==> slot'.entry.None?)
    && (slot.lost ==> slot'.lost)
    && (slot'.cleanup <==> Owns(t') || (slot.cleanup && !Owns(t)))
    && (slot.cleanup && !Owns(t) ==>
          !Owns(t') && (slot' == slot || slot' == slot.(releaseRequested := true)))
  }

  /** The step to (slot', t') keeps the invariant of the terminal and of the call. */
  ghost predicate Keeps(slot: Slot, t: Task, after: (Slot, Task)) {
    SlotOk(after.0, t.terminal) && TaskOk(after.0, after.1) && Framed(slot, t, after.0, after.1)
  }

  lemma BeginWaitKeeps(slot: Slot, t: Task, a: Answer)
    requires SlotOk(slot, t.terminal) && TaskOk(slot, t) && t.op.Wait?
    requires t.pc.Fresh? || (t.pc.Polling? && !Published(slot))
    ensures Keeps(slot, t, BeginWait(slot, t, a))
  {
  }

  lemma WaitOwnerKeeps(slot: Slot, t: Task, a: Answer)
    requires SlotOk(slot, t.terminal) && TaskOk(slot, t) && Enabled(slot, t, a) && t.op.Wait?
    requires Owns(t)
    ensures Keeps(slot, t, PollWait(slot, t, a))
  {
    if t.pc.Terminating? {
    } else if t.pc.AwaitingChild? {
    }
  }

  lemma WaitKeeps(slot: Slot, t: Task, a: Answer)
    requires SlotOk(slot, t.terminal) && TaskOk(slot, t) && Enabled(slot, t, a) && t.op.Wait?
    ensures Keeps(slot, t, PollWait(slot, t, a))
  {
    match t.pc
    case Fresh => BeginWaitKeeps(slot, t, a);
    case Polling => if !Published(slot) { BeginWaitKeeps(slot, t, a); }
    case _ => WaitOwnerKeeps(slot, t, a);
  }

  lemma BeginReleaseKeeps(slot: Slot, t: Task)
    requires SlotOk(slot, t.terminal) && TaskOk(slot, t) && t.op.Release?
    requires t.pc.Fresh? || t.pc.Signalling?
    ensures Keeps(slot, t, BeginRelease(slot, t))
  {
  }

  lemma ReleaseOwnerKeeps(slot: Slot, t: Task, a: Answer)
    requires SlotOk(slot, t.terminal) && TaskOk(slot, t) && Enabled(slot, t, a) && t.op.Release?
    requires Owns(t)
    ensures Keeps(slot, t, PollRelease(slot, t, a))
  {
    if t.pc.Terminating? {
    } else if t.pc.AwaitingChild? {
    }
  }

  lemma ReleaseKeeps(slot: Slot, t: Task, a: Answer)
    requires SlotOk(slot, t.terminal) && TaskOk(slot, t) && Enabled(slot, t, a) && t.op.Release?
    ensures Keeps(slot, t, PollRelease(slot, t, a))
  {
    match t.pc
    case Fresh => BeginReleaseKeeps(slot, t);
    case Signalling => BeginReleaseKeeps(slot, t);
    case _ => ReleaseOwnerKeeps(slot, t, a);
  }

  lemma BeginKillKeeps(slot: Slot, t: Task)
    requires SlotOk(slot, t.terminal) && TaskOk(slot, t) && t.op.Kill? && t.pc.Fresh?
    ensures Keeps(slot, t, BeginKill(slot, t))
  {
  }

  lemma KillOwnerKeeps(slot: Slot, t: Task, a: Answer)
    requires SlotOk(slot, t.terminal) && TaskOk(slot, t) && Enabled(slot, t, a) && t.op.Kill?
    requires Owns(t)
    ensures Keeps(slot, t, PollKill(slot, t, a))
  {
    if t.pc.Terminating? {
    } else if t.pc.AwaitingChild? {
    }
  }

  lemma KillKeeps(slot: Slot, t: Task, a: Answer)
    requires SlotOk(slot, t.terminal) && TaskOk(slot, t) && Enabled(slot, t, a) && t.op.Kill?
    ensures Keeps(slot, t, PollKill(slot, t, a))
  {
    match t.pc
    case Fresh => BeginKillKeeps(slot, t);
    case Signalling => assert Framed(slot, t, slot, Return(t, Finished));
    case _ => KillOwnerKeeps(slot, t, a);
  }

  lemma CancelKeeps(slot: Slot, t: Task)
    requires SlotOk(slot, t.terminal) && TaskOk(slot, t) && Live(t)
    ensures Keeps(slot, t, Cancel(slot, t))
  {
  }

  lemma PollKeeps(slot: Slot, t: Task, a: Answer)
    requires SlotOk(slot, t.terminal) && TaskOk(slot, t) && Enabled(slot, t, a)
    ensures Keeps(slot, t, Poll(slot, t, a))
  {
    match t.op
    case Wait => WaitKeeps(slot, t, a);
    case Release => ReleaseKeeps(slot, t, a);
    case Kill => KillKeeps(slot, t, a);
  }

  // ---- the whole client ----

  /** The invariant of the other calls survives a framed step of `t`. */
  lemma OthersKeep(slot: Slot, t: Task, slot': Slot, t': Task, u: Task)
    requires SlotOk(slot, t.terminal) && TaskOk(slot, t) && TaskOk(slot, u)
    requires u.terminal == t.terminal && !(Owns(t) && Owns(u))
    requires Framed(slot, t, slot', t') && SlotOk(slot', t.terminal)
    ensures TaskOk(slot', u) && !(Owns(t') && Owns(u))
  {
  }

  lemma PutKeepsInv(s: State, k: TaskId, after: (Slot, Task))
    requires Inv(s) && k in s.tasks
    requires Keeps(SlotOf(s, s.tasks[k].terminal), s.tasks[k], after)
    ensures Inv(Put(s, k, after))
  {
    var t := s.tasks[k];
    var id := t.terminal;
    var slot := SlotOf(s, id);
    var s' := Put(s, k, after);
    assert SlotOf(s', id) == after.0;
    forall j | j in s'.tasks && j != k
      ensures TaskOk(SlotOf(s', s'.tasks[j].terminal), s'.tasks[j])
      ensures s'.tasks[j].terminal == id ==> !(Owns(after.1) && Owns(s'.tasks[j]))
    {
      if s.tasks[j].terminal == id {
        assert Owns(t) && Owns(s.tasks[j]) ==> OwnerOf(s.tasks, j, id) && OwnerOf(s.tasks, k, id);
        OthersKeep(slot, t, after.0, after.1, s.tasks[j]);
      }
    }
    forall i | i in s'.slots && s'.slots[i].cleanup
      ensures exists j :: OwnerOf(s'.tasks, j, i)
    {
      if i == id && Owns(after.1) {
        assert OwnerOf(s'.tasks, k, id);
      } else {
        var j :| OwnerOf(s.tasks, j, i);
        assert OwnerOf(s'.tasks, j, i);
      }
    }
    forall j, l, i | OwnerOf(s'.tasks, j, i) && OwnerOf(s'.tasks, l, i)
      ensures j == l
    {
      if j != k && l != k {
        assert OwnerOf(s.tasks, j, i) && OwnerOf(s.tasks, l, i);
      }
    }
  }

  lemma SetSlotKeepsInv(s: State, id: TerminalId, slot: Slot)
    requires Inv(s) && slot != ABSENT && SlotOk(slot, id)
    requires slot.cleanup == SlotOf(s, id).cleanup
    requires forall k :: k in s.tasks && s.tasks[k].terminal == id ==> TaskOk(slot, s.tasks[k])
    ensures Inv(s.(slots := s.slots[id := slot]))
  {
    var s' := s.(slots := s.slots[id := slot]);
    forall k | k in s'.tasks ensures TaskOk(SlotOf(s', s'.tasks[k].terminal), s'.tasks[k]) {
      if s.tasks[k].terminal != id {
        assert SlotOf(s', s.tasks[k].terminal) == SlotOf(s, s.tasks[k].terminal);
      }
    }
    forall i | i in s'.slots && s'.slots[i].cleanup ensures exists k :: OwnerOf(s'.tasks, k, i) {
      assert i in s.slots && s.slots[i].cleanup;
    }
  }

  lemma CallKeepsInv(s: State, k: TaskId, op: Op, id: TerminalId)
    requires Inv(s) && k !in s.tasks
    ensures Inv(s.(tasks := s.tasks[k := NewCall(op, id)]))
  {
    var s' := s.(tasks := s.tasks[k := NewCall(op, id)]);
    assert forall j, i :: OwnerOf(s'.tasks, j, i) <==> OwnerOf(s.tasks, j, i);
    forall i | i in s'.slots && s'.slots[i].cleanup
      ensures exists j :: OwnerOf(s'.tasks, j, i)
    {
      var j :| OwnerOf(s.tasks, j, i);
      assert OwnerOf(s'.tasks, j, i);
    }
  }

  lemma ExitKeepsInv(s: State, id: TerminalId, status: ExitStatus)
    requires Inv(s) && id in s.slots && s.slots[id].reported.None?
    ensures Inv(s.(slots := s.slots[id := s.slots[id].(reported := Some(status))]))
  {
    SetSlotKeepsInv(s, id, s.slots[id].(reported := Some(status)));
  }

  lemma StepKeepsInv(s: State, step: Step)
    requires Inv(s) && CanStep(s, step)
    ensures Inv(Apply(s, step))
  {
    match step
    case CreateStep(id, pid) => SetSlotKeepsInv(s, id, Created(id, pid));
    case CallStep(k, op, id) => CallKeepsInv(s, k, op, id);
    case PollStep(k, a) =>
      PollKeeps(SlotOf(s, s.tasks[k].terminal), s.tasks[k], a);
      PutKeepsInv(s, k, Poll(SlotOf(s, s.tasks[k].terminal), s.tasks[k], a));
    case CancelStep(k) =>
      CancelKeeps(SlotOf(s, s.tasks[k].terminal), s.tasks[k]);
      PutKeepsInv(s, k, Cancel(SlotOf(s, s.tasks[k].terminal), s.tasks[k]));
    case ExitStep(id, status) => ExitKeepsInv(s, id, status);
  }
}
