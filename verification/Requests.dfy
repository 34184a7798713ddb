/**
 Request and task tracking of one session (src/handlers/session/requests.py).
 Session is the value of the fields that these operations touch; the functions
 say what each operation does to that value, and the methods below do it in
 place on the session object.
 */
module Requests {
  import opened Options

  type RequestId = string
  type TaskId = nat

  datatype Lifecycle = Idle | Running | Cancelling | Closed

  datatype Session = Session(
    activeId: Option<RequestId>,
    activeTask: Option<TaskId>,
    lifecycle: Lifecycle,
    cancelRequested: bool)

  const FRESH_SESSION := Session(None, None, Idle, false)

  /** An empty id counts as no active request, like None. */
  predicate IsRequestCancelled(s: Session, id: RequestId) {
    if s.lifecycle == Cancelling || s.lifecycle == Closed then true
    else if s.cancelRequested then true
    else if s.activeId.None? || s.activeId.value == "" then false
    else s.activeId.value != id
  }

  /** A task is tracked and has not ended. */
  predicate TracksRunning(s: Session, live: TaskId -> bool) {
    s.activeTask.Some? && live(s.activeTask.value)
  }

  function Begin(s: Session, id: RequestId): Session {
    if s.lifecycle == Closed then s
    else s.(activeId := Some(id), cancelRequested := false, lifecycle := Running)
  }

  function Attach(s: Session, id: RequestId, task: TaskId): Session {
    if s.lifecycle == Closed || s.activeId != Some(id) then s else s.(activeTask := Some(task))
  }

  function MarkCancelled(s: Session): Session {
    s.(lifecycle := Cancelling, cancelRequested := true)
  }

  function Cleanup(s: Session, id: Option<RequestId>, force: bool): Session {
    if !force && id.Some? && s.activeId != id then s
    else Session(None, None, if s.lifecycle == Closed then Closed else Idle, false)
  }

  function Close(s: Session): Session {
    Session(None, None, Closed, true)
  }

  /** A closed session stays closed under every operation except one: marking it
      cancelled, as an abort does. After a complete abort it is open again and
      cancels nobody. */
  lemma ClosedIsKeptUnlessCancelled(s: Session, id: RequestId, task: TaskId, cleanupId: Option<RequestId>, force: bool)
    requires s.lifecycle == Closed
    ensures Begin(s, id).lifecycle == Closed && Attach(s, id, task).lifecycle == Closed
    ensures Cleanup(s, cleanupId, force).lifecycle == Closed && Close(s).lifecycle == Closed
    ensures IsRequestCancelled(s, id) && IsRequestCancelled(Cleanup(s, cleanupId, force), id)
    ensures MarkCancelled(s).lifecycle != Closed
    ensures Cleanup(MarkCancelled(s), cleanupId, true) == FRESH_SESSION
    ensures !IsRequestCancelled(Cleanup(MarkCancelled(s), cleanupId, true), id)
  {
  }

  /** A request is reported cancelled for one of three reasons: somebody asked the
      session to cancel, the session is on its way out, or another request is active. */
  lemma CancelledIffReason(s: Session, id: RequestId)
    ensures s.cancelRequested ==> IsRequestCancelled(s, id)
    ensures s.lifecycle in {Cancelling, Closed} ==> IsRequestCancelled(s, id)
    ensures s.activeId.Some? && s.activeId.value !in {"", id} ==> IsRequestCancelled(s, id)
    ensures IsRequestCancelled(s, id) ==>
      || s.cancelRequested || s.lifecycle in {Cancelling, Closed}
      || (s.activeId.Some? && s.activeId.value !in {"", id})
  {
  }

  /** Beginning a request on any session that is not closed makes it current, and supersedes every other. */
  lemma BeginSupersedes(s: Session, id: RequestId, other: RequestId)
    requires s.lifecycle != Closed && id != ""
    ensures IsRequestCancelled(Begin(s, id), other) <==> other != id
  {
  }

  // ------------------------------------------------------------------
  // The operations on the session object
  // ------------------------------------------------------------------

  class Task {
    const id: TaskId
    var done: bool
    var cancelRequested: bool

    constructor (id: TaskId)
      ensures this.id == id && !done && !cancelRequested
    {
      this.id, done, cancelRequested := id, false, false;
    }

    method Cancel()
      modifies this`cancelRequested
      ensures cancelRequested
    {
      cancelRequested := true;
    }
  }

  class SessionState {
    var activeRequestTask: Task?
    var activeRequestId: Option<RequestId>
    var lifecycleState: Lifecycle
    var cancelRequested: bool

    ghost function View(): Session
      reads this
    {
      Session(
        activeRequestId,
        if activeRequestTask == null then None else Some(activeRequestTask.id),
        lifecycleState,
        cancelRequested)
    }

    constructor ()
      ensures View() == FRESH_SESSION
    {
      activeRequestTask, activeRequestId := null, None;
      lifecycleState, cancelRequested := Idle, false;
    }
  }

  /** cancelled also for a missing session. */
  method CheckRequestCancelled(state: SessionState?, id: RequestId) returns (cancelled: bool)
    ensures cancelled == (state == null || IsRequestCancelled(state.View(), id))
  {
    if state == null {
      return true;
    }
    if state.lifecycleState == Cancelling || state.lifecycleState == Closed {
      return true;
    }
    if state.cancelRequested {
      return true;
    }
    var active := state.activeRequestId;
    if active.None? || active.value == "" {
      return false;
    }
    return active.value != id;
  }

  /** live says which tasks have not ended. */
  method HasRunningTask(state: SessionState?, ghost live: TaskId -> bool) returns (running: bool)
    requires state != null && state.activeRequestTask != null ==>
      live(state.activeRequestTask.id) == !state.activeRequestTask.done
    ensures running == (state != null && TracksRunning(state.View(), live))
  {
    if state == null {
      return false;
    }
    var task := state.activeRequestTask;
    if task == null {
      return false;
    }
    return !task.done;
  }

  method BeginSessionRequest(state: SessionState, id: RequestId) returns (started: bool)
    modifies state
    ensures state.View() == Begin(old(state.View()), id)
    ensures started == (old(state.lifecycleState) != Closed)
  {
    if state.lifecycleState == Closed {
      return false;
    }
    state.activeRequestId := Some(id);
    state.cancelRequested := false;
    state.lifecycleState := Running;
    return true;
  }

  method AttachRequestTask(state: SessionState, id: RequestId, task: Task)
    modifies state
    ensures state.View() == Attach(old(state.View()), id, task.id)
    ensures state.activeRequestTask == task || state.activeRequestTask == old(state.activeRequestTask)
  {
    if state.lifecycleState == Closed {
      return;
    }
    if state.activeRequestId != Some(id) {
      return;
    }
    state.activeRequestTask := task;
  }

  /** The only task that is ever told to stop is the tracked one, and only while it runs. */
  method CancelSessionRequests(state: SessionState)
    modifies state, state.activeRequestTask
    ensures state.View() == MarkCancelled(old(state.View()))
    ensures state.activeRequestTask == old(state.activeRequestTask)
    ensures var task := state.activeRequestTask;
      task != null ==>
        task.done == old(task.done) && task.cancelRequested == (old(task.cancelRequested) || !task.done)
  {
    state.lifecycleState := Cancelling;
    state.cancelRequested := true;
    var task := state.activeRequestTask;
    if task != null && !task.done {
      task.Cancel();
    }
  }

  /** Returns the id that was active, or "" when there was none. */
  method CleanupSessionRequests(state: SessionState?, id: Option<RequestId>, force: bool) returns (active: RequestId)
    modifies state
    ensures state == null ==> active == ""
    ensures state != null ==> state.View() == Cleanup(old(state.View()), id, force)
    ensures state != null ==>
      active == if old(state.activeRequestId).None? then "" else old(state.activeRequestId).value
  {
    if state == null {
      return "";
    }
    active := if state.activeRequestId.None? then "" else state.activeRequestId.value;
    if !force && id.Some? && state.activeRequestId != id {
      return;
    }
    state.activeRequestId := None;
    state.activeRequestTask := null;
    if state.lifecycleState != Closed {
      state.lifecycleState := Idle;
    }
    state.cancelRequested := false;
  }

  method CloseSessionRequests(state: SessionState)
    modifies state
    ensures state.View() == Close(old(state.View()))
  {
    state.lifecycleState := Closed;
    state.cancelRequested := true;
    state.activeRequestId := None;
    state.activeRequestTask := null;
  }

  /** An abort with nobody else taking a step in between. aborted is the request
      passed to the engine, if there is one. Whatever the session was, closed
      included, it is fresh afterwards. */
  method AbortSessionRequests(state: SessionState?, hasEngine: bool)
    returns (active: RequestId, aborted: Option<RequestId>)
    modifies state, if state == null then null else state.activeRequestTask
    ensures state == null ==> active == "" && aborted.None?
    ensures state != null ==> state.View() == FRESH_SESSION
    ensures state != null ==>
      active == if old(state.activeRequestId).None? then "" else old(state.activeRequestId).value
    ensures aborted == if hasEngine && active != "" then Some(active) else None
    ensures state != null && old(state.activeRequestTask) != null ==>
      old(state.activeRequestTask).done || old(state.activeRequestTask).cancelRequested
  {
    if state == null {
      return "", None;
    }
    var activeId := if state.activeRequestId.None? then "" else state.activeRequestId.value;
    CancelSessionRequests(state);
    aborted := None;
    if activeId != "" && hasEngine {
      aborted := Some(activeId);
    }
    active := CleanupSessionRequests(state, None, true);
  }
}
