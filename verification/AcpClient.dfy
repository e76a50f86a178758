/**
 The three terminal calls as they run: objects whose fields are taken, set and
 cleared one by one.  Each method is one atomic step and is proved to do to the
 terminal and to the call what the transition system of AcpProtocol says.
 */
module AcpClient {
  import opened Wrappers
  import opened AcpProtocol

  /** A terminal: the map entry's own fields and the cells shared with the calls. */
  class Terminal {
    const id: TerminalId
    var mapped: bool
    var child: Option<Child>
    var pid: Option<nat>
    var reader: Option<Reader>
    var exitStatus: Option<ExitStatus>
    var pendingExitStatus: Option<ExitStatus>
    var cleanupInProgress: bool
    var releaseRequested: bool
    var reported: Option<ExitStatus>
    ghost var lost: bool
    ghost var killWaitFailed: bool
    ghost var drained: bool

    constructor (id: TerminalId, pid: Option<nat>)
      ensures this.id == id && Abs() == Created(id, pid)
    {
      this.id := id;
      mapped := true;
      child, this.pid, reader := Some(Child(id)), pid, Some(Reader(id));
      exitStatus, pendingExitStatus := None, None;
      cleanupInProgress, releaseRequested := false, false;
      reported := None;
      lost, killWaitFailed, drained := false, false, false;
    }

    ghost function Abs(): Slot
      reads this
    {
      Slot(if mapped then Some(Entry(child, pid, reader)) else None,
           exitStatus, pendingExitStatus, cleanupInProgress, releaseRequested,
           reported, lost, killWaitFailed, drained)
    }

    method ClearPidAfterCleanup(pid: Option<nat>)
      modifies this
      ensures Abs() == ClearPid(old(Abs()), pid)
    {
      if pid.None? { return; }
      if !mapped { return; }
      if this.pid == pid {
        this.pid := None;
      }
    }

    method Remove()
      modifies this`mapped
      ensures Abs() == old(Abs()).(entry := None)
    {
      mapped := false;
    }
  }

  /** The guard of a call that owns a terminal. */
  class PendingTerminalWait {
    var child: Option<Child>
    var reader: Option<Reader>

    constructor ()
      ensures Abs() == EMPTY_GUARD
    {
      child, reader := None, None;
    }

    ghost function Abs(): Guard
      reads this
    {
      Guard(child, reader)
    }

    /** The destructor: hands the handles back, or gives up what it could not hand back. */
    method Drop(t: Terminal) returns (killed: bool, aborted: bool)
      modifies this, t
      ensures t.Abs() == DropGuard(old(t.Abs()), old(Abs()))
      ensures Abs() == EMPTY_GUARD
      ensures killed <==> Leftover(old(t.Abs()), old(Abs())).child.Some?
      ensures aborted <==> Leftover(old(t.Abs()), old(Abs())).reader.Some?
    {
      var resetCleanup := false;
      if t.mapped && t.exitStatus.None? {
        resetCleanup := true;
        if t.child.None? {
          t.child, child := child, None;
        }
        if t.reader.None? {
          t.reader, reader := reader, None;
        }
      }
      if resetCleanup {
        t.cleanupInProgress := false;
      }
      killed, aborted := child.Some?, reader.Some?;
      child, reader := None, None;
    }

    /** Joins or aborts the reader. */
    method DrainReader(t: Terminal)
      modifies this`reader, t`drained
      ensures t.Abs() == MarkDrained(old(t.Abs()), old(Abs()))
      ensures Abs() == old(Abs()).(reader := None)
    {
      if reader.None? { return; }
      t.drained := true;
      reader := None;
    }
  }

  class Call {
    const op: Op
    const terminal: TerminalId
    const pending: PendingTerminalWait
    var pc: Pc
    var sawTerminal: bool
    var pid: Option<nat>
    var status: Option<ExitStatus>

    constructor (op: Op, terminal: TerminalId)
      ensures Abs() == NewCall(op, terminal) && fresh(pending)
    {
      this.op, this.terminal := op, terminal;
      pending := new PendingTerminalWait();
      pc, sawTerminal, pid, status := Fresh, false, None, None;
    }

    ghost function Abs(): Task
      reads this, pending
    {
      Task(op, terminal, pc, sawTerminal, pending.Abs(), pid, status)
    }

    method Finish(outcome: Outcome)
      modifies this, pending
      ensures Abs() == Return(old(Abs()), outcome)
    {
      pc := Returned(outcome);
      pending.child, pending.reader := None, None;
    }

    /** The future is dropped at a suspension point. */
    method CancelCall(t: Terminal)
      modifies this, pending, t
      ensures (t.Abs(), Abs()) == Cancel(old(t.Abs()), old(Abs()))
    {
      if pc.Terminating? || pc.AwaitingChild? || pc.Draining? || pc.DrainingDetached? {
        var _, _ := pending.Drop(t);
      }
      Finish(Cancelled);
    }

    // ---- wait_for_terminal_exit ----

    method PlanWait(t: Terminal, a: Answer)
      modifies this, pending, t
      ensures (t.Abs(), Abs()) == BeginWait(old(t.Abs()), old(Abs()), a)
    {
      if !t.mapped {
        Finish(UnknownTerminal);
      } else if t.exitStatus.Some? {
        Finish(Exited(t.exitStatus.value));
      } else if t.pendingExitStatus.Some? {
        if t.cleanupInProgress {
          pc := Polling;
        } else {
          t.cleanupInProgress := true;
          pending.child, pending.reader := None, t.reader;
          t.reader := None;
          pc, pid, status := Terminating, t.pid, t.pendingExitStatus;
        }
      } else if t.child.Some? {
        TakeChild(t, a);
      } else {
        pc := Polling;
      }
    }

    /** Nobody waits for the child yet: look whether it exited, and own it either way. */
    method TakeChild(t: Terminal, a: Answer)
      requires t.mapped && t.exitStatus.None? && t.pendingExitStatus.None? && t.child.Some?
      modifies this, pending, t
      ensures (t.Abs(), Abs()) == BeginWait(old(t.Abs()), old(Abs()), a)
    {
      t.cleanupInProgress := true;
      if a.tryWaitSees && t.reported.Some? {
        t.pendingExitStatus := t.reported;
        pending.child, t.child := None, None;
        pc, status := Terminating, t.reported;
      } else {
        pending.child, t.child := t.child, None;
        pc := AwaitingChild;
      }
      pending.reader, t.reader := t.reader, None;
      pid := t.pid;
    }

    method StepWait(t: Terminal, a: Answer)
      requires op.Wait? && Enabled(t.Abs(), Abs(), a)
      modifies this, pending, t
      ensures (t.Abs(), Abs()) == PollWait(old(t.Abs()), old(Abs()), a)
    {
      if pc.Polling? {
        if t.exitStatus.Some? {
          Finish(Exited(t.exitStatus.value));
        } else {
          PlanWait(t, a);
        }
      } else if pc.AwaitingChild? {
        if a.waitFails {
          var _, _ := pending.Drop(t);
          Finish(WaitFailed);
        } else {
          t.pendingExitStatus := t.reported;
          t.cleanupInProgress := true;
          pending.child := None;
          pc, status := Terminating, t.reported;
        }
      } else if pc.Terminating? {
        t.ClearPidAfterCleanup(pid);
        pc := Draining;
      } else if pc.Draining? {
        if status.Some? {
          pending.DrainReader(t);
          t.pendingExitStatus := None;
          t.cleanupInProgress := false;
          t.exitStatus := status;
          if t.releaseRequested {
            t.Remove();
          }
          Finish(Exited(status.value));
        }
      } else {
        PlanWait(t, a);
      }
    }

    // ---- release_terminal ----

    method PlanRelease(t: Terminal)
      modifies this, pending, t
      ensures (t.Abs(), Abs()) == BeginRelease(old(t.Abs()), old(Abs()))
    {
      if !t.mapped {
        if sawTerminal { Finish(Finished); } else { Finish(UnknownTerminal); }
        return;
      }
      sawTerminal := true;
      t.releaseRequested := true;
      if t.cleanupInProgress {
        pc := Signalling;
      } else if t.child.None? && t.reader.None? {
        if t.exitStatus.Some? || t.pendingExitStatus.Some? {
          t.Remove();
          Finish(Finished);
        } else {
          pc := Signalling;
        }
      } else {
        Own(t);
      }
    }

    method Own(t: Terminal)
      requires t.mapped
      modifies this, pending, t
      ensures (t.Abs(), Abs()) == TakeOwnership(old(t.Abs()), old(Abs()), Terminating)
    {
      t.cleanupInProgress := true;
      pending.child, t.child := t.child, None;
      pending.reader, t.reader := t.reader, None;
      pc, pid := Terminating, t.pid;
    }

    /** After the child: drain the reader, publish what is pending, drop the entry. */
    method CloseRelease(t: Terminal)
      requires op.Release? && pc.Draining?
      modifies this, pending, t
      ensures (t.Abs(), Abs()) == PollRelease(old(t.Abs()), old(Abs()), Answer(false, false))
    {
      pending.DrainReader(t);
      var exit := t.pendingExitStatus;
      t.pendingExitStatus := None;
      t.cleanupInProgress := false;
      if exit.Some? {
        t.exitStatus := exit;
      }
      t.Remove();
      Finish(Finished);
    }

    method StepRelease(t: Terminal, a: Answer)
      requires op.Release? && Enabled(t.Abs(), Abs(), a)
      modifies this, pending, t
      ensures (t.Abs(), Abs()) == PollRelease(old(t.Abs()), old(Abs()), a)
    {
      if pc.Terminating? {
        t.ClearPidAfterCleanup(pid);
        if pending.child.Some? { pc := AwaitingChild; } else { pc := Draining; }
      } else if pc.AwaitingChild? {
        if a.waitFails {
          t.lost := true;
        } else {
          t.pendingExitStatus := t.reported;
        }
        pending.child := None;
        pc := Draining;
      } else if pc.Draining? {
        CloseRelease(t);
      } else {
        PlanRelease(t);
      }
    }

    // ---- kill_terminal_command ----

    method PlanKill(t: Terminal)
      modifies this, pending, t
      ensures (t.Abs(), Abs()) == BeginKill(old(t.Abs()), old(Abs()))
    {
      if !t.mapped {
        Finish(UnknownTerminal);
      } else if t.exitStatus.Some? {
        Finish(Finished);
      } else if t.cleanupInProgress {
        pc := Signalling;
      } else if t.pendingExitStatus.Some? || t.child.Some? {
        Own(t);
      } else {
        pc := Signalling;
      }
    }

    /** After the reader: clear the flag, honour a release that arrived meanwhile, return. */
    method CloseKill(t: Terminal)
      modifies this, pending, t
      ensures (t.Abs(), Abs()) == FinishKill(old(t.Abs()), old(Abs()))
    {
      t.cleanupInProgress := false;
      if t.releaseRequested {
        t.Remove();
      }
      Finish(Finished);
    }

    method StartKillDrain(t: Terminal)
      modifies this, pending, t
      ensures (t.Abs(), Abs()) == KillDrain(old(t.Abs()), old(Abs()))
    {
      if t.pendingExitStatus.Some? {
        pc := Draining;
      } else if pending.reader.Some? {
        pending.reader := None;
        pc := DrainingDetached;
      } else {
        CloseKill(t);
      }
    }

    method ReapForKill(t: Terminal, a: Answer)
      requires op.Kill? && pc.AwaitingChild? && Enabled(t.Abs(), Abs(), a)
      modifies this, pending, t
      ensures (t.Abs(), Abs()) == PollKill(old(t.Abs()), old(Abs()), a)
    {
      if !a.waitFails {
        t.pendingExitStatus := t.reported;
      } else if t.pendingExitStatus.None? && t.exitStatus.None? {
        t.pendingExitStatus := Some(UNKNOWN_STATUS);
        t.killWaitFailed := true;
      }
      pending.child := None;
      StartKillDrain(t);
    }

    method StepKill(t: Terminal, a: Answer)
      requires op.Kill? && Enabled(t.Abs(), Abs(), a)
      modifies this, pending, t
      ensures (t.Abs(), Abs()) == PollKill(old(t.Abs()), old(Abs()), a)
    {
      if pc.Signalling? {
        Finish(Finished);
      } else if pc.Terminating? {
        t.ClearPidAfterCleanup(pid);
        if pending.child.Some? { pc := AwaitingChild; } else { StartKillDrain(t); }
      } else if pc.AwaitingChild? {
        ReapForKill(t, a);
      } else if pc.Draining? {
        pending.DrainReader(t);
        if t.pendingExitStatus.Some? {
          t.exitStatus := t.pendingExitStatus;
          t.pendingExitStatus := None;
        }
        CloseKill(t);
      } else if pc.DrainingDetached? {
        t.drained := true;
        CloseKill(t);
      } else {
        PlanKill(t);
      }
    }
  }
}
