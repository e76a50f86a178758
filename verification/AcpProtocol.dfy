/**
 The terminal lifecycle of the ACP client as a transition system.

 Everything the client does runs on one thread, so the code between two
 suspension points is one atomic step.  `Poll` is that step for one call
 and the one terminal it names; `DropGuard` is the destructor that runs
 when a call is cancelled while it owns a terminal.
 */
module AcpProtocol {
  import opened Wrappers

  type TerminalId = string
  type TaskId = nat

  datatype ExitStatus = ExitStatus(exitCode: Option<int>, signal: Option<string>)

  /** The status a kill publishes when waiting for the child failed. */
  const UNKNOWN_STATUS := ExitStatus(None, None)

  /** Handles carry the terminal they were created for. */
  datatype Child = Child(terminal: TerminalId)
  datatype Reader = Reader(terminal: TerminalId)

  /** The fields that live in the map entry itself. */
  datatype Entry = Entry(child: Option<Child>, pid: Option<nat>, reader: Option<Reader>)

  /**
   One terminal.  `entry` is None once the id left the map; the shared cells
   outlive the entry because calls keep references to them.  `reported` is
   what the operating system says about the child.  The last three fields
   only record history: a release whose wait failed, a kill whose wait
   failed, and the reader having been drained or aborted.
   */
  datatype Slot = Slot(
    entry: Option<Entry>,
    exitStatus: Option<ExitStatus>,
    pending: Option<ExitStatus>,
    cleanup: bool,
    releaseRequested: bool,
    reported: Option<ExitStatus>,
    lost: bool,
    killWaitFailed: bool,
    drained: bool)

  const ABSENT := Slot(None, None, None, false, false, None, false, false, false)

  function Created(id: TerminalId, pid: Option<nat>): Slot {
    ABSENT.(entry := Some(Entry(Some(Child(id)), pid, Some(Reader(id)))))
  }

  datatype Op = Wait | Release | Kill

  datatype Outcome =
    | Exited(status: ExitStatus)
    | Finished
    | UnknownTerminal
    | WaitFailed
    | Cancelled

  /** Where a call is suspended. */
  datatype Pc =
    | Fresh             // not polled yet
    | Polling           // wait: asleep, another call owns the terminal
    | Signalling        // release or kill: another call owns the terminal
    | Terminating       // owner: signalling the process group
    | AwaitingChild     // owner: child.wait()
    | Draining          // owner: joining the reader, handle in the guard
    | DrainingDetached  // owner (kill): joining the reader, handle not in the guard
    | Returned(outcome: Outcome)

  /** The handles a call holds while it owns a terminal. */
  datatype Guard = Guard(child: Option<Child>, reader: Option<Reader>)

  const EMPTY_GUARD := Guard(None, None)

  datatype Task = Task(
    op: Op,
    terminal: TerminalId,
    pc: Pc,
    sawTerminal: bool,
    guard: Guard,
    pid: Option<nat>,
    status: Option<ExitStatus>)

  function NewCall(op: Op, id: TerminalId): Task {
    Task(op, id, Fresh, false, EMPTY_GUARD, None, None)
  }

  /** What the operating system answers during one step. */
  datatype Answer = Answer(tryWaitSees: bool, waitFails: bool)

  predicate Owns(t: Task) {
    t.pc.Terminating? || t.pc.AwaitingChild? || t.pc.Draining? || t.pc.DrainingDetached?
  }

  predicate Live(t: Task) {
    !t.pc.Returned?
  }

  /** A successful child.wait() needs the child to have exited. */
  predicate Enabled(slot: Slot, t: Task, a: Answer) {
    Live(t) && (t.pc.AwaitingChild? && !a.waitFails ==> slot.reported.Some?)
  }

  function Return(t: Task, outcome: Outcome): Task {
    t.(pc := Returned(outcome), guard := EMPTY_GUARD)
  }

  // ---- the destructor of the guard ----

  function DropGuard(slot: Slot, guard: Guard): Slot {
    if slot.entry.Some? && slot.exitStatus.None? then
      var e := slot.entry.value;
      slot.(entry := Some(e.(child := if e.child.None? then guard.child else e.child,
                             reader := if e.reader.None? then guard.reader else e.reader)),
            cleanup := false)
    else slot
  }

  /** What the destructor could not hand back: it kills the child and aborts the reader. */
  function Leftover(slot: Slot, guard: Guard): Guard {
    if slot.entry.Some? && slot.exitStatus.None? then
      Guard(if slot.entry.value.child.None? then None else guard.child,
            if slot.entry.value.reader.None? then None else guard.reader)
    else guard
  }

  function Cancel(slot: Slot, t: Task): (Slot, Task) {
    (if Owns(t) then DropGuard(slot, t.guard) else slot, Return(t, Cancelled))
  }

  // ---- pieces shared by the three calls ----

  /** Takes both handles out of the entry and becomes the owner. */
  function TakeOwnership(slot: Slot, t: Task, pc: Pc): (Slot, Task)
    requires slot.entry.Some?
  {
    var e := slot.entry.value;
    (slot.(entry := Some(Entry(None, e.pid, None)), cleanup := true),
     t.(pc := pc, guard := Guard(e.child, e.reader), pid := e.pid))
  }

  function ClearPid(slot: Slot, pid: Option<nat>): Slot {
    if pid.Some? && slot.entry.Some? && slot.entry.value.pid == pid
    then slot.(entry := Some(slot.entry.value.(pid := None)))
    else slot
  }

  function RemoveIfReleased(slot: Slot): Slot {
    if slot.releaseRequested then slot.(entry := None) else slot
  }

  function MarkDrained(slot: Slot, guard: Guard): Slot {
    if guard.reader.Some? then slot.(drained := true) else slot
  }

  // ---- wait_for_terminal_exit ----

  function BeginWait(slot: Slot, t: Task, a: Answer): (Slot, Task) {
    if slot.entry.None? then (slot, Return(t, UnknownTerminal))
    else if slot.exitStatus.Some? then (slot, Return(t, Exited(slot.exitStatus.value)))
    else if slot.pending.Some? then
      if slot.cleanup then (slot, t.(pc := Polling))
      else
        var e := slot.entry.value;
        (slot.(entry := Some(e.(reader := None)), cleanup := true),
         t.(pc := Terminating, guard := Guard(None, e.reader), pid := e.pid, status := slot.pending))
    else if slot.entry.value.child.Some? then
      var (slot', t') := TakeOwnership(slot, t, AwaitingChild);
      if a.tryWaitSees && slot.reported.Some? then
        (slot'.(pending := slot.reported),
         t'.(pc := Terminating, guard := t'.guard.(child := None), status := slot.reported))
      else (slot', t')
    else (slot, t.(pc := Polling))
  }

  function PollWait(slot: Slot, t: Task, a: Answer): (Slot, Task)
    requires t.op.Wait? && Enabled(slot, t, a)
  {
    match t.pc
    case Polling =>
      if slot.exitStatus.Some? then (slot, Return(t, Exited(slot.exitStatus.value)))
      else BeginWait(slot, t, a)
    case AwaitingChild =>
      if a.waitFails then (DropGuard(slot, t.guard), Return(t, WaitFailed))
      else
        (slot.(pending := slot.reported, cleanup := true),
         t.(pc := Terminating, guard := t.guard.(child := None), status := slot.reported))
    case Terminating => (ClearPid(slot, t.pid), t.(pc := Draining))
    case Draining =>
      if t.status.None? then (slot, t)
      else
        var done := MarkDrained(slot, t.guard)
          .(pending := None, cleanup := false, exitStatus := t.status);
        (RemoveIfReleased(done), Return(t, Exited(t.status.value)))
    case _ => BeginWait(slot, t, a)
  }

  // ---- release_terminal ----

  function BeginRelease(slot: Slot, t: Task): (Slot, Task) {
    if slot.entry.None? then (slot, Return(t, if t.sawTerminal then Finished else UnknownTerminal))
    else
      var slot := slot.(releaseRequested := true);
      var t := t.(sawTerminal := true);
      if slot.cleanup then (slot, t.(pc := Signalling))
      else if slot.entry.value.child.None? && slot.entry.value.reader.None? then
        if slot.exitStatus.Some? || slot.pending.Some?
        then (slot.(entry := None), Return(t, Finished))
        else (slot, t.(pc := Signalling))
      else TakeOwnership(slot, t, Terminating)
  }

  function PollRelease(slot: Slot, t: Task, a: Answer): (Slot, Task)
    requires t.op.Release? && Enabled(slot, t, a)
  {
    match t.pc
    case Terminating =>
      (ClearPid(slot, t.pid), t.(pc := if t.guard.child.Some? then AwaitingChild else Draining))
    case AwaitingChild =>
      (if a.waitFails then slot.(lost := true) else slot.(pending := slot.reported),
       t.(pc := Draining, guard := t.guard.(child := None)))
    case Draining =>
      var published := if slot.pending.Some? then slot.(exitStatus := slot.pending) else slot;
      (MarkDrained(published, t.guard).(pending := None, cleanup := false, entry := None),
       Return(t, Finished))
    case _ => BeginRelease(slot, t)
  }

  // ---- kill_terminal_command ----

  function BeginKill(slot: Slot, t: Task): (Slot, Task) {
    if slot.entry.None? then (slot, Return(t, UnknownTerminal))
    else if slot.exitStatus.Some? then (slot, Return(t, Finished))
    else if slot.cleanup then (slot, t.(pc := Signalling))
    else if slot.pending.Some? || slot.entry.value.child.Some?
    then TakeOwnership(slot, t, Terminating)
    else (slot, t.(pc := Signalling))
  }

  function FinishKill(slot: Slot, t: Task): (Slot, Task) {
    (RemoveIfReleased(slot.(cleanup := false)), Return(t, Finished))
  }

  /** After the child is gone: drain through the guard when there is a status to publish. */
  function KillDrain(slot: Slot, t: Task): (Slot, Task) {
    if slot.pending.Some? then (slot, t.(pc := Draining))
    else if t.guard.reader.Some? then
      (slot, t.(pc := DrainingDetached, guard := t.guard.(reader := None)))
    else FinishKill(slot, t)
  }

  function PollKill(slot: Slot, t: Task, a: Answer): (Slot, Task)
    requires t.op.Kill? && Enabled(slot, t, a)
  {
    match t.pc
    case Signalling => (slot, Return(t, Finished))
    case Terminating =>
      var slot := ClearPid(slot, t.pid);
      if t.guard.child.Some? then (slot, t.(pc := AwaitingChild)) else KillDrain(slot, t)
    case AwaitingChild =>
      var slot :=
        if !a.waitFails then slot.(pending := slot.reported)
        else if slot.pending.None? && slot.exitStatus.None?
        then slot.(pending := Some(UNKNOWN_STATUS), killWaitFailed := true)
        else slot;
      KillDrain(slot, t.(guard := t.guard.(child := None)))
    case Draining =>
      var drained := MarkDrained(slot, t.guard);
      FinishKill(if slot.pending.Some? then drained.(exitStatus := slot.pending, pending := None)
                 else drained, t)
    case DrainingDetached => FinishKill(slot.(drained := true), t)
    case _ => BeginKill(slot, t)
  }

  function Poll(slot: Slot, t: Task, a: Answer): (Slot, Task)
    requires Enabled(slot, t, a)
  {
    match t.op
    case Wait => PollWait(slot, t, a)
    case Release => PollRelease(slot, t, a)
    case Kill => PollKill(slot, t, a)
  }

  // ---- the whole client: any number of terminals and calls ----

  datatype State = State(slots: map<TerminalId, Slot>, tasks: map<TaskId, Task>)

  const EMPTY := State(map[], map[])

  function SlotOf(s: State, id: TerminalId): Slot {
    if id in s.slots then s.slots[id] else ABSENT
  }

  datatype Step =
    | CreateStep(id: TerminalId, pid: Option<nat>)
    | CallStep(task: TaskId, op: Op, id: TerminalId)
    | PollStep(task: TaskId, answer: Answer)
    | CancelStep(task: TaskId)
    | ExitStep(id: TerminalId, status: ExitStatus)

  predicate CanStep(s: State, step: Step) {
    match step
    case CreateStep(id, _) => id !in s.slots
    case CallStep(task, _, _) => task !in s.tasks
    case PollStep(task, a) =>
      task in s.tasks && Enabled(SlotOf(s, s.tasks[task].terminal), s.tasks[task], a)
    case CancelStep(task) => task in s.tasks && Live(s.tasks[task])
    case ExitStep(id, _) => id in s.slots && s.slots[id].reported.None?
  }

  /** Stores a call's new state and, when its terminal exists, the terminal's. */
  function Put(s: State, task: TaskId, after: (Slot, Task)): State {
    var id := after.1.terminal;
    State(if id in s.slots then s.slots[id := after.0] else s.slots, s.tasks[task := after.1])
  }

  function Apply(s: State, step: Step): State
    requires CanStep(s, step)
  {
    match step
    case CreateStep(id, pid) => s.(slots := s.slots[id := Created(id, pid)])
    case CallStep(task, op, id) => s.(tasks := s.tasks[task := NewCall(op, id)])
    case PollStep(task, a) =>
      Put(s, task, Poll(SlotOf(s, s.tasks[task].terminal), s.tasks[task], a))
    case CancelStep(task) =>
      Put(s, task, Cancel(SlotOf(s, s.tasks[task].terminal), s.tasks[task]))
    case ExitStep(id, status) =>
      s.(slots := s.slots[id := s.slots[id].(reported := Some(status))])
  }
}
