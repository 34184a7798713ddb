/**
 One connection as a state machine: the message loop and every task it has ever
 spawned take turns at their suspension points, all on the same session
 (src/handlers/session/manager.py, src/handlers/websocket/supervision.py,
 src/handlers/websocket/message_loop.py, src/handlers/websocket/manager.py).
 Tasks are numbered in the order of creation.
 */
module SessionLifecycle {
  import opened Options
  import opened Requests

  datatype Phase = Operating | Finishing | Done

  /** cancelled: the task has been told to stop; it may go on for any time. */
  datatype TaskState = TaskState(id: RequestId, phase: Phase, cancelled: bool)

  datatype After = ThenPlan | ThenReceive | ThenClose

  /** Where the message loop is suspended. */
  datatype Loop =
    | Receiving
    | AbortReadId(next: After)
    | AbortCancel(aborted: RequestId, next: After)
    | AbortEngine(aborted: RequestId, next: After)
    | AbortCleanup(next: After)
    | Planning
    | Beginning(id: RequestId)
    | Spawning(id: RequestId)
    | Attaching(id: RequestId, task: TaskId)
    | Closing
    | Ended
    | Crashed

  /** used holds every request id handed out so far. */
  datatype System = System(session: Session, tasks: seq<TaskState>, loop: Loop, used: set<RequestId>)

  predicate Live(c: System, t: TaskId) {
    t < |c.tasks| && c.tasks[t].phase != Done
  }

  /** Running, and nobody has told it to stop. */
  predicate Unstopped(c: System, t: TaskId) {
    Live(c, t) && !c.tasks[t].cancelled
  }

  predicate Init(c: System) {
    c == System(FRESH_SESSION, [], Receiving, {})
  }

  predicate HasRunning(c: System) {
    TracksRunning(c.session, (t: TaskId) => Live(c, t))
  }

  function Resume(next: After): Loop {
    match next
    case ThenPlan => Planning
    case ThenReceive => Receiving
    case ThenClose => Closing
  }

  function StopTask(tasks: seq<TaskState>, t: Option<TaskId>): seq<TaskState> {
    if t.Some? && t.value < |tasks| && tasks[t.value].phase != Done
    then tasks[t.value := tasks[t.value].(cancelled := true)]
    else tasks
  }

  datatype Step =
    | Message | CancelMessage | EndLoop | PlanFails | PlanReady(id: RequestId)
    | ReadId | MarkCancel | EngineAbort | ForceCleanup
    | BeginRequest | CreateTask | TrackTask
    | MarkClosed | Crash
    | OperationEnds(t: TaskId) | CompleteRequest(t: TaskId) | Unwind(t: TaskId)

  ghost predicate Next(c: System, step: Step, d: System) {
    match step
    // the serial loop; a message aborts a running task before it plans its own turn
    case Message => c.loop == Receiving
      && d == c.(loop := if HasRunning(c) then AbortReadId(ThenPlan) else Planning)
    case CancelMessage => c.loop == Receiving && d == c.(loop := AbortReadId(ThenReceive))
    case EndLoop => c.loop == Receiving && d == c.(loop := AbortReadId(ThenClose))
    case PlanFails => c.loop == Planning && d == c.(loop := Receiving)
    case PlanReady(id) => c.loop == Planning && id != "" && id !in c.used
      && d == c.(loop := Beginning(id), used := c.used + {id})
    // abort, split at its awaits
    case ReadId => c.loop.AbortReadId?
      && d == c.(loop := AbortCancel(if c.session.activeId.None? then "" else c.session.activeId.value, c.loop.next))
    case MarkCancel => c.loop.AbortCancel?
      && d == c.(session := MarkCancelled(c.session), tasks := StopTask(c.tasks, c.session.activeTask),
                 loop := AbortEngine(c.loop.aborted, c.loop.next))
    case EngineAbort => c.loop.AbortEngine? && d == c.(loop := AbortCleanup(c.loop.next))
    case ForceCleanup => c.loop.AbortCleanup?
      && d == c.(session := Cleanup(c.session, None, true), loop := Resume(c.loop.next))
    // spawning a session task
    case BeginRequest => c.loop.Beginning?
      && d == c.(session := Begin(c.session, c.loop.id),
                 loop := if c.session.lifecycle == Closed then Receiving else Spawning(c.loop.id))
    case CreateTask => c.loop.Spawning?
      && d == c.(tasks := c.tasks + [TaskState(c.loop.id, Operating, false)], loop := Attaching(c.loop.id, |c.tasks|))
    case TrackTask => c.loop.Attaching?
      && d == c.(session := Attach(c.session, c.loop.id, c.loop.task), loop := Receiving)
    // the connection's cleanup, and an exception that skips it
    case MarkClosed => c.loop == Closing && d == c.(session := Close(c.session), loop := Ended)
    case Crash => c.loop != Ended && c.loop != Crashed && d == c.(loop := Crashed)
    // a task: its operation ends, it completes its request; or cancellation ends it without that
    case OperationEnds(t) => t < |c.tasks| && c.tasks[t].phase == Operating
      && d == c.(tasks := c.tasks[t := c.tasks[t].(phase := Finishing)])
    case CompleteRequest(t) => t < |c.tasks| && c.tasks[t].phase == Finishing
      && d == c.(session := Cleanup(c.session, Some(c.tasks[t].id), false),
                 tasks := c.tasks[t := c.tasks[t].(phase := Done)])
    case Unwind(t) =>
      && t < |c.tasks| && c.tasks[t].phase != Done && c.tasks[t].cancelled
      && d == c.(tasks := c.tasks[t := c.tasks[t].(phase := Done)])
  }

  ghost predicate Steps(c: System, d: System) {
    exists step :: Next(c, step, d)
  }

  ghost predicate Run(cs: seq<System>) {
    && cs != [] && Init(cs[0])
    && forall i :: 0 <= i < |cs| - 1 ==> Steps(cs[i], cs[i + 1])
  }

  ghost predicate Reachable(c: System) {
    exists cs :: Run(cs) && cs[|cs| - 1] == c
  }

  // ------------------------------------------------------------------
  // The invariant
  // ------------------------------------------------------------------

  /** Request ids are non-empty and no two tasks share one. */
  ghost predicate GoodIds(c: System) {
    && (forall t: nat :: t < |c.tasks| ==> c.tasks[t].id in c.used && c.tasks[t].id != "")
    && (forall t: nat, u: nat :: t < u < |c.tasks| ==> c.tasks[t].id != c.tasks[u].id)
    && (c.session.activeId.Some? ==> c.session.activeId.value in c.used && c.session.activeId.value != "")
  }

  ghost predicate NoneUnstopped(c: System) {
    forall t: nat :: t < |c.tasks| ==> !Unstopped(c, t)
  }

  /** A task that was told to stop owns the session only until the abort has cleaned up. */
  ghost predicate StoppedTasks(c: System) {
    forall t: nat :: Live(c, t) && c.tasks[t].cancelled && c.session.activeId == Some(c.tasks[t].id) ==>
      c.session.lifecycle == Cancelling
  }

  ghost predicate Owned(c: System, t: TaskId)
    requires t < |c.tasks|
  {
    && c.session.activeId == Some(c.tasks[t].id) && c.session.lifecycle == Running
    && (c.session.activeTask == Some(t) || c.loop == Attaching(c.tasks[t].id, t) || c.loop == Crashed)
  }

  /** The tracked task is live and unstopped, except while an abort is on its way. */
  ghost predicate Tracked(c: System) {
    c.session.activeTask.Some? ==>
      var t := c.session.activeTask.value;
      && t < |c.tasks| && c.session.activeId == Some(c.tasks[t].id)
      && (Unstopped(c, t) || c.loop.AbortEngine? || c.loop.AbortCleanup? || c.loop == Crashed)
  }

  /** Field values that go together at any time. */
  ghost predicate Consistent(s: Session) {
    && (s.lifecycle == Running <==> s.activeId.Some? && s.lifecycle != Cancelling)
    && (s.cancelRequested <==> s.lifecycle == Cancelling || s.lifecycle == Closed)
    && (s.lifecycle == Closed ==> s.activeId.None? && s.activeTask.None?)
  }

  /** What is true at each suspension point of the loop. */
  ghost predicate AtLoop(c: System) {
    match c.loop
    case Receiving | AbortReadId(_) | AbortCancel(_, _) => Settled(c.session)
    case AbortEngine(_, _) | AbortCleanup(_) =>
      NoneUnstopped(c) && (c.session.lifecycle == Cancelling || c.session.lifecycle == Idle)
    case Planning | Closing => c.session == FRESH_SESSION && NoneUnstopped(c)
    case Beginning(id) => c.session == FRESH_SESSION && NoneUnstopped(c) && Unclaimed(c, id)
    case Spawning(id) => c.session == Session(Some(id), None, Running, false) && NoneUnstopped(c) && Unclaimed(c, id)
    case Attaching(id, t) =>
      && t < |c.tasks| && c.tasks[t].id == id && !c.tasks[t].cancelled
      && c.session == if c.tasks[t].phase == Done then FRESH_SESSION else Session(Some(id), None, Running, false)
    case Ended => c.session == Session(None, None, Closed, true) && NoneUnstopped(c)
    case Crashed => c.session.lifecycle != Closed
  }

  /** Not cancelling and not closed, and a request is tracked exactly when one is active. */
  ghost predicate Settled(s: Session) {
    (s.lifecycle == Idle || s.lifecycle == Running) && (s.activeId.Some? <==> s.activeTask.Some?)
  }

  ghost predicate Unclaimed(c: System, id: RequestId) {
    id in c.used && id != "" && forall t: nat :: t < |c.tasks| ==> c.tasks[t].id != id
  }

  ghost predicate Inv(c: System) {
    && GoodIds(c) && Consistent(c.session) && AtLoop(c) && Tracked(c) && StoppedTasks(c)
    && (forall t: nat :: t < |c.tasks| && Unstopped(c, t) ==> Owned(c, t))
  }

  lemma InitInv(c: System)
    requires Init(c)
    ensures Inv(c)
  {
  }

  /** A task's own steps wake nobody up. */
  lemma TaskStepWakesNobody(c: System, d: System, t: TaskId, task: TaskState)
    requires t < |c.tasks| && d.tasks == c.tasks[t := task] && d.loop == c.loop
    requires task.id == c.tasks[t].id && task.cancelled == c.tasks[t].cancelled
    requires c.tasks[t].phase != Done && (task.phase == Done || d.session == c.session)
    ensures forall u: nat :: u < |d.tasks| && Unstopped(d, u) ==> Unstopped(c, u)
    ensures NoneUnstopped(c) ==> NoneUnstopped(d)
    ensures forall id :: Unclaimed(c, id) && d.used == c.used ==> Unclaimed(d, id)
  {
  }

  lemma OperationEndsInv(c: System, t: TaskId, d: System)
    requires Inv(c) && Next(c, OperationEnds(t), d)
    ensures Inv(d)
  {
    TaskStepWakesNobody(c, d, t, d.tasks[t]);
    assert forall u: nat :: u < |c.tasks| && Unstopped(c, u) ==> Owned(c, u);
  }

  /** A task that completes clears the session only if the session is still its own. */
  lemma CompleteRequestInv(c: System, t: TaskId, d: System)
    requires Inv(c) && Next(c, CompleteRequest(t), d)
    ensures Inv(d)
  {
    TaskStepWakesNobody(c, d, t, d.tasks[t]);
    forall u: nat | u < |d.tasks| && Unstopped(d, u)
      ensures Owned(d, u)
    {
      assert Owned(c, u);
      assert c.tasks[u].id != c.tasks[t].id;
    }
  }

  lemma UnwindInv(c: System, t: TaskId, d: System)
    requires Inv(c) && Next(c, Unwind(t), d)
    ensures Inv(d)
  {
    TaskStepWakesNobody(c, d, t, d.tasks[t]);
    assert forall u: nat :: u < |c.tasks| && Unstopped(c, u) ==> Owned(c, u);
  }

  /** After the cancel step of an abort no task is left that has not been told to stop. */
  lemma MarkCancelInv(c: System, d: System)
    requires Inv(c) && Next(c, Step.MarkCancel, d)
    ensures Inv(d)
  {
    forall t: nat | t < |d.tasks|
      ensures !Unstopped(d, t)
    {
      if Unstopped(c, t) {
        assert Owned(c, t);
      }
    }
  }

  lemma CreateTaskInv(c: System, d: System)
    requires Inv(c) && Next(c, CreateTask, d)
    ensures Inv(d)
  {
    forall t: nat | t < |c.tasks|
      ensures !Unstopped(d, t)
    {
      assert !Unstopped(c, t);
    }
  }

  /** The steps of the loop that only move it on. */
  lemma LoopStepInv(c: System, step: Step, d: System)
    requires Inv(c) && Next(c, step, d)
    requires step in {Message, CancelMessage, EndLoop, PlanFails, ReadId, EngineAbort, Crash} || step.PlanReady?
    ensures Inv(d)
  {
    assert forall t: nat :: t < |c.tasks| && Unstopped(c, t) ==> Owned(c, t);
    assert forall t: nat :: t < |c.tasks| ==> Unstopped(d, t) == Unstopped(c, t);
  }

  /** The steps of the loop that change the session and leave the tasks alone. */
  lemma SessionStepInv(c: System, step: Step, d: System)
    requires Inv(c) && Next(c, step, d)
    requires step in {ForceCleanup, BeginRequest, MarkClosed}
    ensures Inv(d)
  {
    assert forall t: nat :: t < |c.tasks| && Unstopped(c, t) ==> Owned(c, t);
    assert forall t: nat :: t < |c.tasks| ==> Unstopped(d, t) == Unstopped(c, t);
  }

  /** The new task may have ended before it is tracked. */
  lemma TrackTaskInv(c: System, d: System)
    requires Inv(c) && Next(c, TrackTask, d)
    ensures Inv(d)
  {
    assert forall t: nat :: t < |c.tasks| && Unstopped(c, t) ==> Owned(c, t);
    assert forall t: nat :: t < |c.tasks| ==> Unstopped(d, t) == Unstopped(c, t);
  }

  lemma StepInv(c: System, step: Step, d: System)
    requires Inv(c) && Next(c, step, d)
    ensures Inv(d)
  {
    match step {
      case OperationEnds(t) => OperationEndsInv(c, t, d);
      case CompleteRequest(t) => CompleteRequestInv(c, t, d);
      case Unwind(t) => UnwindInv(c, t, d);
      case MarkCancel => MarkCancelInv(c, d);
      case CreateTask => CreateTaskInv(c, d);
      case TrackTask => TrackTaskInv(c, d);
      case ForceCleanup | BeginRequest | MarkClosed => SessionStepInv(c, step, d);
      case _ => LoopStepInv(c, step, d);
    }
  }

  lemma {:induction false} RunInv(cs: seq<System>, i: nat)
    requires Run(cs) && i < |cs|
    ensures Inv(cs[i])
  {
    if i == 0 {
      InitInv(cs[0]);
    } else {
      RunInv(cs, i - 1);
      assert Steps(cs[i - 1], cs[i - 1 + 1]);
      var step :| Next(cs[i - 1], step, cs[i]);
      StepInv(cs[i - 1], step, cs[i]);
    }
  }

  lemma ReachableInv(c: System)
    requires Reachable(c)
    ensures Inv(c)
  {
    var cs :| Run(cs) && cs[|cs| - 1] == c;
    RunInv(cs, |cs| - 1);
  }

  // ------------------------------------------------------------------
  // What holds in every interleaving
  // ------------------------------------------------------------------

  /** At most one task runs without having been told to stop; the tracked task
      belongs to the active request; a new request begins only when every
      earlier task has ended or has been told to stop. */
  lemma OneTaskAtATime(c: System)
    requires Reachable(c)
    ensures forall t: nat, u: nat :: Unstopped(c, t) && Unstopped(c, u) ==> t == u
    ensures c.session.activeTask.Some? ==>
      c.session.activeTask.value < |c.tasks|
      && c.session.activeId == Some(c.tasks[c.session.activeTask.value].id)
    ensures c.loop.Beginning? || c.loop.Spawning? || c.loop == Ended ==> forall t: nat :: !Unstopped(c, t)
  {
    ReachableInv(c);
    forall t: nat, u: nat | Unstopped(c, t) && Unstopped(c, u)
      ensures t == u
    {
      assert Owned(c, t) && Owned(c, u);
    }
  }

  /** From the moment a request has begun until it ends or is told to stop, it
      is never reported cancelled, whatever other tasks do in between. */
  lemma NeverCancelledByOthers(c: System, t: TaskId)
    requires Reachable(c)
    ensures Unstopped(c, t) ==> !IsRequestCancelled(c.session, c.tasks[t].id)
    ensures c.loop.Spawning? ==> !IsRequestCancelled(c.session, c.loop.id)
  {
    ReachableInv(c);
    if Unstopped(c, t) {
      assert Owned(c, t);
    }
  }

  /** When a message arrives, the loop sees a running task, and aborts it, exactly
      if some task runs that has not been told to stop. */
  lemma RunningIsUnstopped(c: System)
    requires Reachable(c) && c.loop == Receiving
    ensures HasRunning(c) <==> exists t: nat :: Unstopped(c, t)
  {
    ReachableInv(c);
    if HasRunning(c) {
      assert Unstopped(c, c.session.activeTask.value);
    }
    if t: nat :| Unstopped(c, t) {
      assert Owned(c, t);
    }
  }

  /** A task that was told to stop but still runs is reported cancelled exactly
      while the session is not idle. */
  lemma StoppedTaskReport(c: System, t: TaskId)
    requires Reachable(c) && Live(c, t) && c.tasks[t].cancelled
    ensures IsRequestCancelled(c.session, c.tasks[t].id) <==> c.session.lifecycle != Idle
  {
    ReachableInv(c);
  }

  /** Once the connection's cleanup has closed the session it stays closed in
      every continuation, and every id is reported cancelled. */
  lemma {:induction false} ClosedForGood(cs: seq<System>, i: nat, j: nat, id: RequestId)
    requires Run(cs) && i <= j < |cs| && cs[i].loop == Ended
    ensures cs[j].loop == Ended && cs[j].session.lifecycle == Closed
    ensures IsRequestCancelled(cs[j].session, id)
    decreases j
  {
    RunInv(cs, j);
    if i == j {
    } else {
      ClosedForGood(cs, i, j - 1, id);
      assert Steps(cs[j - 1], cs[j - 1 + 1]);
      var step :| Next(cs[j - 1], step, cs[j]);
    }
  }

  /** The session is closed in no other way. */
  lemma ClosedOnlyByCleanup(c: System)
    requires Reachable(c)
    ensures c.session.lifecycle == Closed <==> c.loop == Ended
  {
    ReachableInv(c);
  }

  // ------------------------------------------------------------------
  // Where each client message leads
  // ------------------------------------------------------------------

  /** The steps, taken one after the other with no other in between, lead from c to d. */
  ghost predicate Leads(c: System, steps: seq<Step>, d: System)
    decreases |steps|
  {
    if steps == [] then d == c else exists m :: Next(c, steps[0], m) && Leads(m, steps[1..], d)
  }

  lemma LeadsFirst(c: System, step: Step, m: System, rest: seq<Step>, d: System)
    requires Next(c, step, m) && Leads(m, rest, d)
    ensures Leads(c, [step] + rest, d)
  {
    assert ([step] + rest)[1..] == rest;
  }

  lemma LeadsNowhere(c: System)
    ensures Leads(c, [], c)
  {
  }

  const ABORT := [ReadId, Step.MarkCancel, EngineAbort, ForceCleanup]

  function Then(next: After): Loop {
    if next == ThenPlan then Planning else if next == ThenReceive then Receiving else Closing
  }

  /** The four steps of an abort with nobody in between do what an undisturbed
      abort does: the session is fresh, the tracked task, if it runs, is told to
      stop and no other is, and the loop goes on with what the abort was for. */
  lemma AbortRound(c: System, d: System)
    requires c.loop.AbortReadId?
    requires d == System(FRESH_SESSION, d.tasks, Then(c.loop.next), c.used)
    requires |d.tasks| == |c.tasks| && c.session.lifecycle != Closed
    requires forall t: nat :: t < |c.tasks| ==>
      d.tasks[t] == if c.session.activeTask == Some(t) && c.tasks[t].phase != Done
                    then c.tasks[t].(cancelled := true) else c.tasks[t]
    ensures Leads(c, ABORT, d)
  {
    var id := if c.session.activeId.None? then "" else c.session.activeId.value;
    var next := c.loop.next;
    var c1 := c.(loop := AbortCancel(id, next));
    var c2 := c.(session := MarkCancelled(c.session), tasks := d.tasks, loop := AbortEngine(id, next));
    var c3 := c2.(loop := AbortCleanup(next));
    assert d.tasks == StopTask(c.tasks, c.session.activeTask);
    assert Next(c, ReadId, c1) && Next(c1, Step.MarkCancel, c2);
    assert Next(c2, EngineAbort, c3) && Next(c3, ForceCleanup, d);
    hide Next, Leads;
    LeadsNowhere(d);
    LeadsFirst(c3, ForceCleanup, d, [], d);
    assert [ForceCleanup] + [] == [ForceCleanup];
    LeadsFirst(c2, EngineAbort, c3, [ForceCleanup], d);
    assert [EngineAbort] + [ForceCleanup] == [EngineAbort, ForceCleanup];
    LeadsFirst(c1, Step.MarkCancel, c2, [EngineAbort, ForceCleanup], d);
    assert [Step.MarkCancel] + [EngineAbort, ForceCleanup] == [Step.MarkCancel, EngineAbort, ForceCleanup];
    LeadsFirst(c, ReadId, c1, [Step.MarkCancel, EngineAbort, ForceCleanup], d);
    assert [ReadId] + [Step.MarkCancel, EngineAbort, ForceCleanup] == ABORT;
  }

  /** A cancel message leaves the loop receiving, the session fresh and the
      tracked task told to stop. */
  lemma CancelRound(c: System, d: System)
    requires Reachable(c) && c.loop == Receiving
    requires d == System(FRESH_SESSION, d.tasks, Receiving, c.used) && |d.tasks| == |c.tasks|
    requires forall t: nat :: t < |c.tasks| ==>
      d.tasks[t] == if Unstopped(c, t) then c.tasks[t].(cancelled := true) else c.tasks[t]
    ensures Leads(c, [CancelMessage] + ABORT, d)
  {
    ReachableInv(c);
    var m := c.(loop := AbortReadId(ThenReceive));
    StopsUnstopped(c);
    AbortRound(m, d);
    hide Leads;
    LeadsFirst(c, CancelMessage, m, ABORT, d);
  }

  /** While the loop receives, the tracked task is the one that runs unstopped. */
  lemma StopsUnstopped(c: System)
    requires Inv(c) && c.loop == Receiving
    ensures forall t: nat :: t < |c.tasks| ==>
      (Unstopped(c, t) <==> c.session.activeTask == Some(t) && c.tasks[t].phase != Done)
    ensures HasRunning(c) <==> c.session.activeTask.Some?
    ensures c.session.activeTask.None? ==> c.session == FRESH_SESSION
    ensures c.session.lifecycle != Closed
  {
    assert forall t: nat :: t < |c.tasks| && Unstopped(c, t) ==> Owned(c, t);
  }

  /** The end of the loop leads, through an abort, to a closed session and no task
      that has not been told to stop. */
  lemma EndRound(c: System, d: System)
    requires Reachable(c) && c.loop == Receiving
    requires d == System(Session(None, None, Closed, true), d.tasks, Ended, c.used) && |d.tasks| == |c.tasks|
    requires forall t: nat :: t < |c.tasks| ==>
      d.tasks[t] == if Unstopped(c, t) then c.tasks[t].(cancelled := true) else c.tasks[t]
    ensures Leads(c, [EndLoop] + (ABORT + [MarkClosed]), d)
  {
    ReachableInv(c);
    StopsUnstopped(c);
    var m, n := c.(loop := AbortReadId(ThenClose)), System(FRESH_SESSION, d.tasks, Closing, c.used);
    AbortRound(m, n);
    NextEndLoop(c);
    NextMarkClosed(n);
    ThroughAbort(c, m, n, d);
  }

  lemma ThroughAbort(c: System, m: System, n: System, d: System)
    requires Next(c, EndLoop, m) && Leads(m, ABORT, n) && Next(n, MarkClosed, d)
    ensures Leads(c, [EndLoop] + (ABORT + [MarkClosed]), d)
  {
    hide *;
    LeadsNowhere(d);
    LeadsFirst(n, MarkClosed, d, [], d);
    assert [MarkClosed] + [] == [MarkClosed];
    LeadsOn(m, ABORT, n, [MarkClosed], d);
    LeadsFirst(c, EndLoop, m, ABORT + [MarkClosed], d);
  }

  lemma NextMarkClosed(c: System)
    requires c.loop == Closing
    ensures Next(c, MarkClosed, c.(session := Session(None, None, Closed, true), loop := Ended))
  {
  }

  lemma NextEndLoop(c: System)
    requires c.loop == Receiving
    ensures Next(c, EndLoop, c.(loop := AbortReadId(ThenClose)))
  {
  }

  lemma {:induction false} LeadsOn(c: System, steps: seq<Step>, m: System, rest: seq<Step>, d: System)
    requires Leads(c, steps, m) && Leads(m, rest, d)
    ensures Leads(c, steps + rest, d)
    decreases |steps|
  {
    if steps == [] {
      assert steps + rest == rest;
    } else {
      var n :| Next(c, steps[0], n) && Leads(n, steps[1..], m);
      LeadsOn(n, steps[1..], m, rest, d);
      assert (steps + rest)[1..] == steps[1..] + rest;
    }
  }

  /** A message, whatever runs, leads to a new task that the session tracks, with
      the one that ran told to stop. */
  lemma MessageRound(c: System, id: RequestId, d: System, stopped: seq<TaskState>) returns (steps: seq<Step>)
    requires Reachable(c) && c.loop == Receiving && id != "" && id !in c.used
    requires |stopped| == |c.tasks| && forall t: nat :: t < |c.tasks| ==>
      stopped[t] == if Unstopped(c, t) then c.tasks[t].(cancelled := true) else c.tasks[t]
    requires d == System(Session(Some(id), Some(|c.tasks|), Running, false),
      stopped + [TaskState(id, Operating, false)], Receiving, c.used + {id})
    ensures Leads(c, steps, d)
    ensures steps == [Message] + (if HasRunning(c) then ABORT else []) + StartSteps(id)
  {
    ReachableInv(c);
    StopsUnstopped(c);
    var m := c.(loop := if HasRunning(c) then AbortReadId(ThenPlan) else Planning);
    var n := System(FRESH_SESSION, stopped, Planning, c.used);
    assert Next(c, Message, m);
    StartRound(n, id, d);
    var abort := if HasRunning(c) then ABORT else [];
    if HasRunning(c) {
      AbortRound(m, n);
    } else {
      assert stopped == c.tasks;
      LeadsNowhere(n);
    }
    steps := [Message] + abort + StartSteps(id);
    ThroughStart(c, m, abort, n, StartSteps(id), d);
  }

  lemma ThroughStart(c: System, m: System, abort: seq<Step>, n: System, rest: seq<Step>, d: System)
    requires Next(c, Message, m) && Leads(m, abort, n) && Leads(n, rest, d)
    ensures Leads(c, [Message] + abort + rest, d)
  {
    hide *;
    LeadsOn(m, abort, n, rest, d);
    LeadsFirst(c, Message, m, abort + rest, d);
    assert [Message] + abort + rest == [Message] + (abort + rest);
  }

  function StartSteps(id: RequestId): seq<Step> {
    [PlanReady(id), BeginRequest, CreateTask, TrackTask]
  }

  lemma StartRound(n: System, id: RequestId, d: System)
    requires n.loop == Planning && n.session == FRESH_SESSION && id != "" && id !in n.used
    requires d == System(Session(Some(id), Some(|n.tasks|), Running, false),
      n.tasks + [TaskState(id, Operating, false)], Receiving, n.used + {id})
    ensures Leads(n, StartSteps(id), d)
  {
    var n1 := n.(loop := Beginning(id), used := n.used + {id});
    var n2 := n1.(session := Session(Some(id), None, Running, false), loop := Spawning(id));
    var n3 := n2.(tasks := d.tasks, loop := Attaching(id, |n.tasks|));
    assert Next(n, PlanReady(id), n1) && Next(n1, BeginRequest, n2);
    assert Next(n2, CreateTask, n3) && Next(n3, TrackTask, d);
    hide Next, Leads;
    LeadsNowhere(d);
    LeadsFirst(n3, TrackTask, d, [], d);
    assert [TrackTask] + [] == [TrackTask];
    LeadsFirst(n2, CreateTask, n3, [TrackTask], d);
    assert [CreateTask] + [TrackTask] == [CreateTask, TrackTask];
    LeadsFirst(n1, BeginRequest, n2, [CreateTask, TrackTask], d);
    assert [BeginRequest] + [CreateTask, TrackTask] == [BeginRequest, CreateTask, TrackTask];
    LeadsFirst(n, PlanReady(id), n1, [BeginRequest, CreateTask, TrackTask], d);
    assert [PlanReady(id)] + [BeginRequest, CreateTask, TrackTask] == StartSteps(id);
  }

  /** Steps of the loop to the end of the cleanup, once it has left; 6 before. */
  function ToCleanup(loop: Loop): nat {
    match loop
    case AbortReadId(ThenClose) => 5
    case AbortCancel(_, ThenClose) => 4
    case AbortEngine(_, ThenClose) => 3
    case AbortCleanup(ThenClose) => 2
    case Closing => 1
    case Ended => 0
    case _ => 6
  }

  /** In any interleaving: the end of the loop is the start of the cleanup; on the
      way, the steps of tasks hold nothing up, each step of the loop brings it
      nearer, one is always possible, and only an exception leads elsewhere. */
  lemma EndLeadsToCleanup(c: System, step: Step, d: System)
    requires Next(c, step, d)
    ensures step == EndLoop ==> ToCleanup(d.loop) == 5
    ensures ToCleanup(c.loop) <= 5 && step != Crash ==>
      ToCleanup(d.loop) ==
        ToCleanup(c.loop) - if step.OperationEnds? || step.CompleteRequest? || step.Unwind? then 0 else 1
    ensures 0 < ToCleanup(c.loop) <= 5 ==>
      exists s, e :: Next(c, s, e) && ToCleanup(e.loop) == ToCleanup(c.loop) - 1
  {
    if 0 < ToCleanup(c.loop) <= 5 {
      var s, e := CleanupStep(c);
    }
  }

  lemma CleanupStep(c: System) returns (step: Step, d: System)
    requires 0 < ToCleanup(c.loop) <= 5
    ensures Next(c, step, d) && ToCleanup(d.loop) == ToCleanup(c.loop) - 1
  {
    match c.loop {
      case AbortReadId(next) =>
        step := ReadId;
        d := c.(loop := AbortCancel(if c.session.activeId.None? then "" else c.session.activeId.value, next));
      case AbortCancel(id, next) =>
        step := Step.MarkCancel;
        d := c.(session := MarkCancelled(c.session), tasks := StopTask(c.tasks, c.session.activeTask),
                loop := AbortEngine(id, next));
      case AbortEngine(id, next) =>
        step, d := EngineAbort, c.(loop := AbortCleanup(next));
      case AbortCleanup(next) =>
        step, d := ForceCleanup, c.(session := Cleanup(c.session, None, true), loop := Resume(next));
      case Closing =>
        step, d := MarkClosed, c.(session := Close(c.session), loop := Ended);
    }
  }

  // ------------------------------------------------------------------
  // What does not hold
  // ------------------------------------------------------------------

  /** Any run may be continued by one step. */
  lemma Extend(c: System, step: Step, d: System)
    requires Reachable(c) && Next(c, step, d)
    ensures Reachable(d)
  {
    var cs :| Run(cs) && cs[|cs| - 1] == c;
    var ds := cs + [d];
    assert Steps(c, d);
    forall i | 0 <= i < |ds| - 1
      ensures Steps(ds[i], ds[i + 1])
    {
      if i < |cs| - 1 {
        assert Steps(cs[i], cs[i + 1]);
      }
    }
    assert Run(ds);
  }

  function OneTask(cancelled: bool, session: Session, loop: Loop): System {
    System(session, [TaskState("a", Operating, cancelled)], loop, {"a"})
  }

  lemma FirstTaskBegins()
    ensures Reachable(System(Session(Some("a"), None, Running, false), [], Spawning("a"), {"a"}))
  {
    var c0 := System(FRESH_SESSION, [], Receiving, {});
    assert Run([c0]) && [c0][|[c0]| - 1] == c0;
    var c1 := c0.(loop := Planning);
    var c2 := c1.(loop := Beginning("a"), used := {"a"});
    var c3 := c2.(session := Session(Some("a"), None, Running, false), loop := Spawning("a"));
    hide Run, Reachable;
    Extend(c0, Message, c1);
    Extend(c1, PlanReady("a"), c2);
    Extend(c2, BeginRequest, c3);
  }

  lemma FirstTaskRuns()
    ensures Reachable(OneTask(false, Session(Some("a"), Some(0), Running, false), Receiving))
  {
    hide Run, Reachable;
    var c3 := System(Session(Some("a"), None, Running, false), [], Spawning("a"), {"a"});
    var c4 := OneTask(false, c3.session, Attaching("a", 0));
    var c5 := OneTask(false, Session(Some("a"), Some(0), Running, false), Receiving);
    FirstTaskBegins();
    Extend(c3, CreateTask, c4);
    Extend(c4, TrackTask, c5);
  }

  /** After a cancel message the stopped task can still be running while the
      session is idle, and is then told that it is not cancelled. */
  lemma StoppedTaskMissesCancellation()
    ensures exists c ::
      Reachable(c) && Live(c, 0) && c.tasks[0].cancelled && !IsRequestCancelled(c.session, c.tasks[0].id)
  {
    FirstTaskRuns();
    hide Run, Reachable;
    var running := Session(Some("a"), Some(0), Running, false);
    var c5 := OneTask(false, running, Receiving);
    var c6 := OneTask(false, running, AbortReadId(ThenReceive));
    var c7 := OneTask(false, running, AbortCancel("a", ThenReceive));
    var c8 := OneTask(true, MarkCancelled(running), AbortEngine("a", ThenReceive));
    var c9 := OneTask(true, MarkCancelled(running), AbortCleanup(ThenReceive));
    var c10 := OneTask(true, FRESH_SESSION, Receiving);
    Extend(c5, CancelMessage, c6);
    Extend(c6, ReadId, c7);
    Extend(c7, Step.MarkCancel, c8);
    Extend(c8, EngineAbort, c9);
    Extend(c9, ForceCleanup, c10);
    assert Live(c10, 0) && c10.tasks[0].cancelled && !IsRequestCancelled(c10.session, "a");
  }

  /** When an exception leaves the message loop, the cleanup is skipped. A task
      that nobody told to stop is then left running exactly if the loop was
      receiving or had not reached the cancel step of an abort, with a running
      task tracked, or was about to track a task that had not ended yet. */
  lemma CrashLeavesTaskExactly(c: System, d: System)
    requires Reachable(c) && Next(c, Crash, d)
    ensures (exists t: nat :: Unstopped(d, t)) <==>
      || ((c.loop.Receiving? || c.loop.AbortReadId? || c.loop.AbortCancel?) && HasRunning(c))
      || (c.loop.Attaching? && Live(c, c.loop.task))
  {
    ReachableInv(c);
    assert forall t: nat :: Unstopped(d, t) == Unstopped(c, t);
    if t: nat :| Unstopped(d, t) {
      assert Owned(c, t);
    }
    if (c.loop.Receiving? || c.loop.AbortReadId? || c.loop.AbortCancel?) && HasRunning(c) {
      assert Unstopped(d, c.session.activeTask.value);
    }
    if c.loop.Attaching? && Live(c, c.loop.task) {
      assert Unstopped(d, c.loop.task);
    }
  }

  /** In every continuation such a task runs until it ends by itself: nobody
      tells it to stop, and the session is never closed. */
  lemma {:induction false} CrashedForGood(cs: seq<System>, i: nat, j: nat, t: TaskId)
    requires Run(cs) && i <= j < |cs| && cs[i].loop == Crashed && Unstopped(cs[i], t)
    ensures cs[j].loop == Crashed && cs[j].session.lifecycle != Closed
    ensures t < |cs[j].tasks| && !cs[j].tasks[t].cancelled
    decreases j
  {
    RunInv(cs, j);
    if i == j {
    } else {
      CrashedForGood(cs, i, j - 1, t);
      assert Steps(cs[j - 1], cs[j - 1 + 1]);
      var step :| Next(cs[j - 1], step, cs[j]);
    }
  }

  /** Such a crash happens. */
  lemma CrashLeavesTaskRunning()
    ensures exists c :: Reachable(c) && c.loop == Crashed && Unstopped(c, 0)
  {
    FirstTaskRuns();
    var running := Session(Some("a"), Some(0), Running, false);
    var c6 := OneTask(false, running, Crashed);
    Extend(OneTask(false, running, Receiving), Crash, c6);
    assert Unstopped(c6, 0);
  }
}
