/** What the invariant gives over whole runs of the terminal lifecycle. */
module AcpRuns {
  import opened Wrappers
  import opened AcpProtocol
  import opened AcpInvariant

  // ---- runs ----

  ghost predicate CanRun(s: State, steps: seq<Step>)
    decreases |steps|
  {
    steps == [] || (CanStep(s, steps[0]) && CanRun(Apply(s, steps[0]), steps[1..]))
  }

  ghost function Run(s: State, steps: seq<Step>): State
    requires CanRun(s, steps)
    decreases |steps|
  {
    if steps == [] then s else Run(Apply(s, steps[0]), steps[1..])
  }

  ghost predicate Reachable(s: State) {
    exists steps :: CanRun(EMPTY, steps) && Run(EMPTY, steps) == s
  }

  lemma {:induction false} RunKeepsInv(s: State, steps: seq<Step>)
    requires Inv(s) && CanRun(s, steps)
    ensures Inv(Run(s, steps))
    decreases |steps|
  {
    if steps != [] {
      StepKeepsInv(s, steps[0]);
      RunKeepsInv(Apply(s, steps[0]), steps[1..]);
    }
  }

  lemma ReachableInv(s: State)
    requires Reachable(s)
    ensures Inv(s)
  {
    var steps :| CanRun(EMPTY, steps) && Run(EMPTY, steps) == s;
    RunKeepsInv(EMPTY, steps);
  }

  lemma {:induction false} RunSnoc(s: State, steps: seq<Step>, step: Step)
    requires CanRun(s, steps) && CanStep(Run(s, steps), step)
    ensures CanRun(s, steps + [step]) && Run(s, steps + [step]) == Apply(Run(s, steps), step)
    decreases |steps|
  {
    if steps != [] {
      RunSnoc(Apply(s, steps[0]), steps[1..], step);
      assert (steps + [step])[1..] == steps[1..] + [step];
    } else {
      assert [step][1..] == [];
    }
  }

  lemma ReachableSnoc(s: State, step: Step)
    requires Reachable(s) && CanStep(s, step)
    ensures Reachable(Apply(s, step))
  {
    var steps :| CanRun(EMPTY, steps) && Run(EMPTY, steps) == s;
    RunSnoc(EMPTY, steps, step);
  }

  // ---- ownership ----

  /** The cleanup flag is set exactly when one live call owns the terminal, and never two. */
  lemma CleanupMeansOneOwner(s: State, id: TerminalId)
    requires Reachable(s) && id in s.slots
    ensures s.slots[id].cleanup <==> exists k :: OwnerOf(s.tasks, k, id)
    ensures forall j, k :: OwnerOf(s.tasks, j, id) && OwnerOf(s.tasks, k, id) ==> j == k
  {
    ReachableInv(s);
  }

  datatype Place = InEntry | InGuard(task: TaskId)

  ghost predicate HoldsChild(s: State, p: Place, id: TerminalId) {
    match p
    case InEntry => SlotOf(s, id).entry.Some? && SlotOf(s, id).entry.value.child == Some(Child(id))
    case InGuard(k) => k in s.tasks && s.tasks[k].guard.child == Some(Child(id))
  }

  ghost predicate HoldsReader(s: State, p: Place, id: TerminalId) {
    match p
    case InEntry => SlotOf(s, id).entry.Some? && SlotOf(s, id).entry.value.reader == Some(Reader(id))
    case InGuard(k) => k in s.tasks && s.tasks[k].guard.reader == Some(Reader(id))
  }

  /** A guard holding a handle of `id` belongs to the owner of `id`. */
  lemma GuardIsOwners(s: State, k: TaskId, id: TerminalId)
    requires Inv(s) && k in s.tasks
    requires s.tasks[k].guard.child == Some(Child(id)) || s.tasks[k].guard.reader == Some(Reader(id))
    ensures OwnerOf(s.tasks, k, id) && SlotOf(s, id).cleanup
    ensures SlotOf(s, id).entry.Some? && OwnerOk(SlotOf(s, id), SlotOf(s, id).entry.value, s.tasks[k])
  {
  }

  /** Who holds the reader of a terminal, and when anyone does. */
  lemma ReaderHolder(s: State, p: Place, id: TerminalId)
    requires Inv(s) && HoldsReader(s, p, id) && id in s.slots
    ensures s.slots[id].entry.Some? && !Published(s.slots[id])
    ensures if p.InGuard? then OwnerOf(s.tasks, p.task, id) && s.slots[id].cleanup else !s.slots[id].cleanup
  {
    if p.InGuard? { GuardIsOwners(s, p.task, id); }
  }

  lemma ChildHolder(s: State, p: Place, id: TerminalId)
    requires Inv(s) && HoldsChild(s, p, id) && id in s.slots
    ensures s.slots[id].entry.Some? && !Published(s.slots[id])
    ensures s.slots[id].pending.None? && !s.slots[id].lost
    ensures if p.InGuard? then OwnerOf(s.tasks, p.task, id) && s.slots[id].cleanup else !s.slots[id].cleanup
  {
    if p.InGuard? { GuardIsOwners(s, p.task, id); }
  }

  /** Where the handles of an unpublished terminal are. */
  lemma HandlesAreSomewhere(s: State, id: TerminalId) returns (p: Place)
    requires Inv(s) && id in s.slots && s.slots[id].entry.Some? && !Published(s.slots[id])
    ensures HoldsReader(s, p, id)
    ensures s.slots[id].pending.None? && !s.slots[id].lost ==> HoldsChild(s, p, id)
  {
    if s.slots[id].cleanup {
      var k :| OwnerOf(s.tasks, k, id);
      p := InGuard(k);
    } else {
      p := InEntry;
    }
  }

  /**
   While a terminal is mapped and has no status yet its reader is in exactly
   one place; afterwards it is nowhere.
   */
  lemma ReaderInOnePlace(s: State, id: TerminalId)
    requires Reachable(s) && id in s.slots
    ensures (exists p :: HoldsReader(s, p, id))
       <==> s.slots[id].entry.Some? && !Published(s.slots[id])
    ensures forall p, q :: HoldsReader(s, p, id) && HoldsReader(s, q, id) ==> p == q
  {
    ReachableInv(s);
    forall p, q | HoldsReader(s, p, id) && HoldsReader(s, q, id) ensures p == q {
      ReaderHolder(s, p, id);
      ReaderHolder(s, q, id);
    }
    if p :| HoldsReader(s, p, id) {
      ReaderHolder(s, p, id);
    } else if s.slots[id].entry.Some? && !Published(s.slots[id]) {
      var p := HandlesAreSomewhere(s, id);
      assert false;
    }
  }

  /**
   The child too is in exactly one place until it is reaped; it is reaped
   when its status became pending or a release failed to wait for it.
   */
  lemma ChildInOnePlace(s: State, id: TerminalId)
    requires Reachable(s) && id in s.slots
    ensures (exists p :: HoldsChild(s, p, id))
       <==> s.slots[id].entry.Some? && !Published(s.slots[id])
            && s.slots[id].pending.None? && !s.slots[id].lost
    ensures forall p, q :: HoldsChild(s, p, id) && HoldsChild(s, q, id) ==> p == q
  {
    ReachableInv(s);
    forall p, q | HoldsChild(s, p, id) && HoldsChild(s, q, id) ensures p == q {
      ChildHolder(s, p, id);
      ChildHolder(s, q, id);
    }
    if p :| HoldsChild(s, p, id) {
      ChildHolder(s, p, id);
    } else if s.slots[id].entry.Some? && !Published(s.slots[id])
              && s.slots[id].pending.None? && !s.slots[id].lost {
      var p := HandlesAreSomewhere(s, id);
      assert false;
    }
  }

  /**
   Cancelling the owner at any suspension point puts exactly its handles back,
   clears the flag, changes nothing else and kills nothing.
   */
  lemma CancelHandsBack(s: State, k: TaskId)
    requires Reachable(s) && k in s.tasks && Owns(s.tasks[k])
    ensures var id := s.tasks[k].terminal;
            var s' := Apply(s, CancelStep(k));
            && id in s.slots && s.slots[id].entry.Some?
            && s'.slots == s.slots[id := s.slots[id].(
                 cleanup := false,
                 entry := Some(Entry(s.tasks[k].guard.child, s.slots[id].entry.value.pid,
                                     s.tasks[k].guard.reader)))]
            && Leftover(s.slots[id], s.tasks[k].guard) == EMPTY_GUARD
            && forall j :: !OwnerOf(s'.tasks, j, id)
  {
    ReachableInv(s);
    var id := s.tasks[k].terminal;
    var s' := Apply(s, CancelStep(k));
    assert OwnerOf(s.tasks, k, id);
    assert forall j :: OwnerOf(s'.tasks, j, id) ==> OwnerOf(s.tasks, j, id);
  }

  // ---- no stranded terminal ----

  /** Mapped, no status published, nobody cleaning up. */
  ghost predicate Idle(slot: Slot) {
    slot.entry.Some? && !Published(slot) && !slot.cleanup
  }

  /** Neither a child to wait for nor a status to publish: the arms that only sleep. */
  ghost predicate FallsThrough(slot: Slot) {
    Idle(slot) && slot.pending.None? && slot.entry.value.child.None?
  }

  /**
   An idle terminal keeps its reader; it keeps a child or a pending status,
   never both, and neither exactly when a release failed to wait.
   */
  lemma StrandedIffReleaseLostTheStatus(s: State, id: TerminalId)
    requires Reachable(s) && id in s.slots && Idle(s.slots[id])
    ensures s.slots[id].entry.value.reader == Some(Reader(id))
    ensures !(s.slots[id].entry.value.child.Some? && s.slots[id].pending.Some?)
    ensures FallsThrough(s.slots[id]) <==> s.slots[id].lost
  {
    ReachableInv(s);
  }

  /**
   A wait goes to sleep exactly while another call owns the terminal or the
   terminal is stranded.
   */
  lemma WaitSleepsIffOwnedOrStranded(s: State, k: TaskId, a: Answer)
    requires Reachable(s) && CanStep(s, PollStep(k, a))
    requires s.tasks[k].op.Wait? && !Owns(s.tasks[k])
    ensures var id := s.tasks[k].terminal;
            (Apply(s, PollStep(k, a)).tasks[k].pc.Polling?
       <==> id in s.slots && s.slots[id].entry.Some?
            && ((exists j :: j != k && OwnerOf(s.tasks, j, id)) || FallsThrough(s.slots[id])))
  {
    ReachableInv(s);
    var id := s.tasks[k].terminal;
    if id in s.slots && s.slots[id].cleanup {
      var j :| OwnerOf(s.tasks, j, id);
      assert j != k;
    }
    if j :| OwnerOf(s.tasks, j, id) {
      assert SlotOf(s, id).cleanup && id in s.slots;
    }
  }

  /** A release that finds no owner never sleeps, and never removes an unpublished status. */
  lemma ReleaseWithoutOwnerMakesProgress(s: State, k: TaskId, a: Answer)
    requires Reachable(s) && CanStep(s, PollStep(k, a))
    requires s.tasks[k].op.Release? && !Owns(s.tasks[k])
    requires s.tasks[k].terminal in s.slots && s.slots[s.tasks[k].terminal].entry.Some?
    requires forall j :: !OwnerOf(s.tasks, j, s.tasks[k].terminal)
    ensures var id := s.tasks[k].terminal;
            var s' := Apply(s, PollStep(k, a));
            && (Published(s.slots[id]) ==> s'.tasks[k].pc == Returned(Finished) && s'.slots[id].entry.None?)
            && (!Published(s.slots[id]) ==> OwnerOf(s'.tasks, k, id) && s'.slots[id].entry.Some?)
  {
    ReachableInv(s);
  }

  // ---- the exit status over a run ----

  ghost predicate SlotLater(a: Slot, b: Slot) {
    && (b == ABSENT ==> a == ABSENT)
    && (Published(a) ==> b.exitStatus == a.exitStatus)
    && (a != ABSENT && a.entry.None? ==> b.entry.None?)
    && (a.lost ==> b.lost)
  }

  lemma StepMovesForward(s: State, step: Step, id: TerminalId)
    requires Inv(s) && CanStep(s, step)
    ensures SlotLater(SlotOf(s, id), SlotOf(Apply(s, step), id))
  {
    match step
    case PollStep(k, a) => PollKeeps(SlotOf(s, s.tasks[k].terminal), s.tasks[k], a);
    case CancelStep(k) => CancelKeeps(SlotOf(s, s.tasks[k].terminal), s.tasks[k]);
    case _ =>
  }

  /** A status once written never changes, and an id that left the map never comes back. */
  lemma {:induction false} RunMovesForward(s: State, steps: seq<Step>, id: TerminalId)
    requires Inv(s) && CanRun(s, steps)
    ensures SlotLater(SlotOf(s, id), SlotOf(Run(s, steps), id))
    decreases |steps|
  {
    if steps != [] {
      StepMovesForward(s, steps[0], id);
      StepKeepsInv(s, steps[0]);
      RunMovesForward(Apply(s, steps[0]), steps[1..], id);
    }
  }

  lemma {:induction false} ReturnedStays(s: State, steps: seq<Step>, k: TaskId)
    requires CanRun(s, steps) && k in s.tasks && s.tasks[k].pc.Returned?
    ensures k in Run(s, steps).tasks && Run(s, steps).tasks[k] == s.tasks[k]
    decreases |steps|
  {
    if steps != [] {
      ReturnedStays(Apply(s, steps[0]), steps[1..], k);
    }
  }

  /**
   A status is published after the reader was drained.  It is what the system
   reported, unless a kill failed to wait: then it is the placeholder.
   */
  lemma PublishedIsGenuine(s: State, id: TerminalId)
    requires Reachable(s) && id in s.slots && Published(s.slots[id])
    ensures s.slots[id].drained
    ensures Genuine(s.slots[id], s.slots[id].exitStatus.value)
    ensures s.slots[id].exitStatus
         == if s.slots[id].killWaitFailed then Some(UNKNOWN_STATUS) else s.slots[id].reported
    ensures s.slots[id].exitStatus == s.slots[id].reported
       <==> (s.slots[id].killWaitFailed ==> s.slots[id].reported == Some(UNKNOWN_STATUS))
  {
    ReachableInv(s);
  }

  /** A kill that finds its terminal only signals exactly while another call owns it or it is stranded. */
  lemma KillOnlySignalsIffOwnedOrStranded(s: State, k: TaskId, a: Answer)
    requires Reachable(s) && CanStep(s, PollStep(k, a))
    requires s.tasks[k].op.Kill? && s.tasks[k].pc.Fresh?
    ensures var id := s.tasks[k].terminal;
            (Apply(s, PollStep(k, a)).tasks[k].pc.Signalling?
       <==> id in s.slots && s.slots[id].entry.Some?
            && ((exists j :: j != k && OwnerOf(s.tasks, j, id)) || FallsThrough(s.slots[id])))
  {
    ReachableInv(s);
    var id := s.tasks[k].terminal;
    if id in s.slots && s.slots[id].cleanup {
      var j :| OwnerOf(s.tasks, j, id);
      assert j != k;
    }
    if j :| OwnerOf(s.tasks, j, id) {
      assert SlotOf(s, id).cleanup && id in s.slots;
    }
  }

  /** Any two waits that ever succeed on a terminal return the one published status. */
  lemma WaitersAgree(s: State, steps: seq<Step>, j: TaskId, k: TaskId, v: ExitStatus, w: ExitStatus)
    requires Reachable(s) && CanRun(s, steps)
    requires j in s.tasks && s.tasks[j].pc == Returned(Exited(v))
    requires k in Run(s, steps).tasks && Run(s, steps).tasks[k].pc == Returned(Exited(w))
    requires s.tasks[j].terminal == Run(s, steps).tasks[k].terminal
    ensures v == w
    ensures SlotOf(Run(s, steps), s.tasks[j].terminal).exitStatus == Some(v)
  {
    ReachableInv(s);
    RunKeepsInv(s, steps);
    RunMovesForward(s, steps, s.tasks[j].terminal);
  }

  /** A wait that has seen its terminal, and reports it unknown only if a release lost it. */
  ghost predicate SeenBy(s: State, k: TaskId, id: TerminalId) {
    && k in s.tasks && s.tasks[k].op.Wait? && s.tasks[k].terminal == id
    && !s.tasks[k].pc.Fresh?
    && SlotOf(s, id) != ABSENT
    && (s.tasks[k].pc == Returned(UnknownTerminal) ==> SlotOf(s, id).entry.None? && SlotOf(s, id).lost)
  }

  /** The same of the call and its terminal alone. */
  ghost predicate SeenAt(slot: Slot, t: Task) {
    && t.op.Wait? && !t.pc.Fresh? && slot != ABSENT
    && (t.pc == Returned(UnknownTerminal) ==> slot.entry.None? && slot.lost)
  }

  lemma PollKeepsSeen(slot: Slot, t: Task, a: Answer)
    requires SlotOk(slot, t.terminal) && TaskOk(slot, t) && Enabled(slot, t, a) && SeenAt(slot, t)
    ensures SeenAt(Poll(slot, t, a).0, Poll(slot, t, a).1)
  {
  }

  lemma LaterKeepsSeen(slot: Slot, slot': Slot, t: Task)
    requires SeenAt(slot, t) && SlotLater(slot, slot')
    ensures SeenAt(slot', t)
  {
  }

  lemma StepKeepsSeen(s: State, step: Step, k: TaskId, id: TerminalId)
    requires Inv(s) && CanStep(s, step) && SeenBy(s, k, id)
    ensures SeenBy(Apply(s, step), k, id)
  {
    StepMovesForward(s, step, id);
    if step.PollStep? && step.task == k {
      PollKeepsSeen(SlotOf(s, id), s.tasks[k], step.answer);
      PollKeeps(SlotOf(s, id), s.tasks[k], step.answer);
    } else {
      LaterKeepsSeen(SlotOf(s, id), SlotOf(Apply(s, step), id), s.tasks[k]);
    }
  }

  lemma {:induction false} RunKeepsSeen(s: State, steps: seq<Step>, k: TaskId, id: TerminalId)
    requires Inv(s) && CanRun(s, steps) && SeenBy(s, k, id)
    ensures SeenBy(Run(s, steps), k, id)
    decreases |steps|
  {
    if steps != [] {
      StepKeepsSeen(s, steps[0], k, id);
      StepKeepsInv(s, steps[0]);
      RunKeepsSeen(Apply(s, steps[0]), steps[1..], k, id);
    }
  }

  /**
   A wait asleep on a terminal never answers "unknown terminal", whatever the
   other calls do, unless a release lost the status; and then it does.
   */
  lemma SleeperGetsTheStatus(s: State, steps: seq<Step>, k: TaskId)
    requires Reachable(s) && CanRun(s, steps)
    requires k in s.tasks && s.tasks[k].pc.Polling?
    ensures var id := s.tasks[k].terminal;
            var s' := Run(s, steps);
            && k in s'.tasks
            && (s'.tasks[k].pc == Returned(UnknownTerminal) ==> SlotOf(s', id).lost)
            && (s'.tasks[k].pc.Polling? && SlotOf(s', id).entry.None? ==> forall a ::
                  Apply(s', PollStep(k, a)).tasks[k].pc == Returned(
                    if SlotOf(s', id).lost then UnknownTerminal
                    else Exited(SlotOf(s', id).exitStatus.GetOr(UNKNOWN_STATUS))))
            && (s'.tasks[k].pc.Polling? && SlotOf(s', id).entry.None? ==>
                  (SlotOf(s', id).lost <==> !Published(SlotOf(s', id))))
  {
    ReachableInv(s);
    RunKeepsInv(s, steps);
    RunKeepsSeen(s, steps, k, s.tasks[k].terminal);
  }

  // ---- removal ----

  /** Every removal follows publication, except exactly those of a release that lost the status. */
  lemma RemovedIffPublishedOrLost(s: State, id: TerminalId)
    requires Reachable(s) && id in s.slots && s.slots[id].entry.None?
    ensures Published(s.slots[id]) <==> !s.slots[id].lost
  {
    ReachableInv(s);
  }

  /** A mapped terminal with a published status keeps no pid, no handle and no pending release. */
  lemma PublishedEntryIsClean(s: State, id: TerminalId)
    requires Reachable(s) && id in s.slots && s.slots[id].entry.Some? && Published(s.slots[id])
    ensures s.slots[id].entry == Some(Entry(None, None, None))
    ensures !s.slots[id].releaseRequested && !s.slots[id].cleanup && s.slots[id].pending.None?
  {
    ReachableInv(s);
  }

  /** release_terminal returns Ok only once the entry is gone, and it stays gone. */
  lemma ReleaseOkMeansGone(s: State, steps: seq<Step>, k: TaskId)
    requires Reachable(s) && CanRun(s, steps)
    requires k in s.tasks && s.tasks[k].op.Release? && s.tasks[k].pc == Returned(Finished)
    ensures s.tasks[k].terminal in s.slots
    ensures SlotOf(Run(s, steps), s.tasks[k].terminal).entry.None?
  {
    ReachableInv(s);
    RunMovesForward(s, steps, s.tasks[k].terminal);
  }
}
