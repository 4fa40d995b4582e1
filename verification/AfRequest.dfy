/** The mutable state of a Request (Request.swift) and the URLSessionTasks it
    drives. */
module AfRequest {
  import opened Wrappers
  import opened AfTaskMap

  // ---------------------------------------------------------------------
  // States
  // ---------------------------------------------------------------------

  datatype State = Initialized | Resumed | Suspended | Cancelled | Finished
  {
    /** canTransitionTo, case by case. */
    predicate CanTransitionTo(state: State) {
      match (this, state)
      case (Initialized, _) => true
      case (_, Initialized) => false
      case (Cancelled, _) => false
      case (Finished, _) => false
      case (Resumed, Cancelled) => true
      case (Suspended, Cancelled) => true
      case (Resumed, Suspended) => true
      case (Suspended, Resumed) => true
      case (Suspended, Suspended) => false
      case (Resumed, Resumed) => false
      case (_, Finished) => true
    }
  }

  /** The transitions are those to another state that lead neither back to the
      start nor out of an end, and the idle one at the start. */
  lemma TransitionsAre(a: State, b: State)
    ensures a.CanTransitionTo(b)
            <==> a != Cancelled && a != Finished && (a == Initialized || (b != Initialized && b != a))
  {
  }

  /** The state property of a URLSessionTask. Of a task that is cancelled while it
      is suspended, here `Discarded`, no metrics are gathered. */
  datatype TaskState = Running | Paused | Canceling | Discarded | Completed
  {
    function Resume(): TaskState { if this == Paused then Running else this }
    function Suspend(): TaskState { if this == Running then Paused else this }
    function Cancel(): TaskState { if this == Paused then Discarded else if this == Running then Canceling else this }
  }

  /** What a task must be doing, unless it is over, when its request is in a
      state. */
  predicate Obeys(state: State, task: TaskState) {
    task == Completed ||
    match state
    case Initialized => task == Paused
    case Resumed => task == Running
    case Suspended => task == Paused
    case Cancelled => task == Canceling
    case Finished => true
  }

  /** What any task of a request can have come to: it is cancelled only by a
      cancel and never without metrics, and started only by a resume. */
  predicate Reached(state: State, task: TaskState) {
    task != Discarded && (task == Canceling ==> state == Cancelled) && (task == Running ==> state != Initialized)
  }

  // ---------------------------------------------------------------------
  // The protected state and its atomic changes
  // ---------------------------------------------------------------------

  /** Work handed to the underlying queue or to the serialization queue. */
  datatype Post =
    | PostFinish
    | PostProcessNext
    | PostResumeIfStarting
    | PostSerialize(handler: nat)

  /** MutableState. Response serializers and their completion closures are known
      by the number of the handler they belong to. */
  datatype MutableState = MutableState(
    state: State,
    tasks: seq<TaskId>,
    responseSerializers: seq<nat>,
    responseSerializerCompletions: seq<nat>,
    responseSerializerProcessingFinished: bool,
    isFinishing: bool)

  const NEW_STATE: MutableState := MutableState(Initialized, [], [], [], false, false)

  /** What one locked block does: the new state, the newest task, the work posted
      and the completion closures called. */
  datatype Effect = Effect(state: MutableState, task: Option<TaskState>, posts: seq<Post>, called: seq<nat>)

  predicate Live(task: Option<TaskState>) {
    task.Some? && task.value != Completed
  }

  /** cancel; `task` is the state of the newest task. */
  function CancelEffect(m: MutableState, task: Option<TaskState>): Effect {
    if !m.state.CanTransitionTo(Cancelled) then Effect(m, task, [], [])
    else if !Live(task) then Effect(m.(state := Cancelled), task, [PostFinish], [])
    else Effect(m.(state := Cancelled), Some(task.value.Resume().Cancel()), [], [])
  }

  /** suspend */
  function SuspendEffect(m: MutableState, task: Option<TaskState>): Effect {
    if !m.state.CanTransitionTo(Suspended) then Effect(m, task, [], [])
    else Effect(m.(state := Suspended), if Live(task) then Some(task.value.Suspend()) else task, [], [])
  }

  /** resume */
  function ResumeEffect(m: MutableState, task: Option<TaskState>): Effect {
    if !m.state.CanTransitionTo(Resumed) then Effect(m, task, [], [])
    else Effect(m.(state := Resumed), if Live(task) then Some(task.value.Resume()) else task, [], [])
  }

  /** Session.updateStatesForTask */
  function UpdateTask(state: State, task: TaskState): TaskState {
    match state
    case Initialized => task
    case Finished => task
    case Resumed => task.Resume()
    case Suspended => task.Suspend()
    case Cancelled => task.Resume().Cancel()
  }

  /** appendResponseSerializer */
  function AppendEffect(m: MutableState, handler: nat): Effect {
    var m1 := m.(responseSerializers := m.responseSerializers + [handler],
                 state := if m.state == Finished then Resumed else m.state);
    var posts := (if m1.responseSerializerProcessingFinished then [PostProcessNext] else [])
                 + (if m1.state.CanTransitionTo(Resumed) then [PostResumeIfStarting] else []);
    Effect(m1, None, posts, [])
  }

  /** nextResponseSerializer */
  function NextSerializer(m: MutableState): Option<nat> {
    var index := |m.responseSerializerCompletions|;
    if index < |m.responseSerializers| then Some(m.responseSerializers[index]) else None
  }

  /** processNextResponseSerializer */
  function ProcessEffect(m: MutableState): Effect {
    match NextSerializer(m)
    case Some(handler) => Effect(m, None, [PostSerialize(handler)], [])
    case None =>
      Effect(m.(responseSerializers := [], responseSerializerCompletions := [],
                state := if m.state.CanTransitionTo(Finished) then Finished else m.state,
                responseSerializerProcessingFinished := true, isFinishing := false),
             None, [], m.responseSerializerCompletions)
  }

  /** finish, with its write of isFinishing as one step. */
  function FinishEffect(m: MutableState): Effect {
    if m.isFinishing then Effect(m, None, [], []) else ProcessEffect(m.(isFinishing := true))
  }

  /** responseSerializerDidComplete */
  function DidCompleteEffect(m: MutableState, completion: nat): Effect {
    ProcessEffect(m.(responseSerializerCompletions := m.responseSerializerCompletions + [completion]))
  }

  /** reset */
  function Reset(m: MutableState): MutableState {
    m.(isFinishing := false, responseSerializerCompletions := [])
  }

  /** Cancelled and finished are never left by cancel, suspend or resume, what
      these do to the newest task obeys the new state when it obeyed the old
      one, and a cancel finds the task or arranges for finish. */
  lemma PublicCallsObeyed(m: MutableState, task: Option<TaskState>, e: Effect)
    requires e in {CancelEffect(m, task), SuspendEffect(m, task), ResumeEffect(m, task)}
    ensures e.task.Some? == task.Some? && (task == Some(Completed) ==> e.task == task)
    ensures task.Some? && Obeys(m.state, task.value) ==> Obeys(e.state.state, e.task.value)
    ensures task.Some? && Reached(m.state, task.value) ==> Reached(e.state.state, e.task.value)
    ensures e.state.state == m.state ==> e.task == task
    ensures m.state == Cancelled || m.state == Finished ==> e.state.state == m.state
    ensures e.state.state == Cancelled && m.state != Cancelled ==>
              if Live(task) then (task == Some(Discarded) || e.task == Some(Canceling)) && e.posts == [] else e.posts == [PostFinish]
    ensures e.state.state != Cancelled || m.state == Cancelled ==> e.posts == []
    ensures e.state == m.(state := e.state.state) && e.called == []
  {
  }

  // ---------------------------------------------------------------------
  // The objects
  // ---------------------------------------------------------------------

  class URLSessionTask {
    const id: TaskId
    var state: TaskState

    constructor (id: TaskId)
      ensures this.id == id && state == Paused
    {
      this.id, state := id, Paused;
    }

    method Resume()
      modifies this
      ensures state == old(state).Resume()
    {
      if state == Paused { state := Running; }
    }

    method Suspend()
      modifies this
      ensures state == old(state).Suspend()
    {
      if state == Running { state := Paused; }
    }

    method Cancel()
      modifies this
      ensures state == old(state).Cancel()
    {
      if state == Paused { state := Discarded; } else if state == Running { state := Canceling; }
    }
  }

  class Request {
    var state: State
    var tasks: seq<URLSessionTask>
    var responseSerializers: seq<nat>
    var responseSerializerCompletions: seq<nat>
    var responseSerializerProcessingFinished: bool
    var isFinishing: bool

    ghost function Value(): MutableState
      reads this
    {
      MutableState(state, seq(|tasks|, i requires 0 <= i < |tasks| reads this => tasks[i].id),
                   responseSerializers, responseSerializerCompletions, responseSerializerProcessingFinished, isFinishing)
    }

    /** The state of the newest task. */
    ghost function Newest(): Option<TaskState>
      reads this, tasks
    {
      if tasks == [] then None else Some(tasks[|tasks| - 1].state)
    }

    constructor ()
      ensures Value() == NEW_STATE
    {
      state, tasks, responseSerializers, responseSerializerCompletions := Initialized, [], [], [];
      responseSerializerProcessingFinished, isFinishing := false, false;
    }

    method DidCreateTask(task: URLSessionTask)
      modifies this
      ensures Value() == old(Value()).(tasks := old(Value()).tasks + [task.id]) && tasks == old(tasks) + [task]
    {
      tasks := tasks + [task];
    }

    method Cancel() returns (posts: seq<Post>)
      modifies this, tasks
      ensures Effect(Value(), Newest(), posts, []) == CancelEffect(old(Value()), old(Newest()))
      ensures tasks == old(tasks) && forall t | t in tasks && t != tasks[|tasks| - 1] :: unchanged(t)
    {
      if !state.CanTransitionTo(Cancelled) { return []; }
      state := Cancelled;
      if tasks == [] || tasks[|tasks| - 1].state == Completed { return [PostFinish]; }
      var task := tasks[|tasks| - 1];
      // Resume to ensure metrics are gathered.
      task.Resume();
      task.Cancel();
      return [];
    }

    method Suspend() returns (posts: seq<Post>)
      modifies this, tasks
      ensures Effect(Value(), Newest(), posts, []) == SuspendEffect(old(Value()), old(Newest()))
      ensures tasks == old(tasks) && forall t | t in tasks && t != tasks[|tasks| - 1] :: unchanged(t)
    {
      posts := [];
      if !state.CanTransitionTo(Suspended) { return; }
      state := Suspended;
      if tasks == [] || tasks[|tasks| - 1].state == Completed { return; }
      tasks[|tasks| - 1].Suspend();
    }

    method Resume() returns (posts: seq<Post>)
      modifies this, tasks
      ensures Effect(Value(), Newest(), posts, []) == ResumeEffect(old(Value()), old(Newest()))
      ensures tasks == old(tasks) && forall t | t in tasks && t != tasks[|tasks| - 1] :: unchanged(t)
    {
      posts := [];
      if !state.CanTransitionTo(Resumed) { return; }
      state := Resumed;
      if tasks == [] || tasks[|tasks| - 1].state == Completed { return; }
      tasks[|tasks| - 1].Resume();
    }

    method AppendResponseSerializer(handler: nat) returns (posts: seq<Post>)
      modifies this
      ensures Effect(Value(), None, posts, []) == AppendEffect(old(Value()), handler)
      ensures tasks == old(tasks)
    {
      posts := [];
      responseSerializers := responseSerializers + [handler];
      if state == Finished { state := Resumed; }
      if responseSerializerProcessingFinished { posts := posts + [PostProcessNext]; }
      if state.CanTransitionTo(Resumed) { posts := posts + [PostResumeIfStarting]; }
    }

    method NextResponseSerializer() returns (responseSerializer: Option<nat>)
      ensures responseSerializer == NextSerializer(Value())
    {
      var responseSerializerIndex := |responseSerializerCompletions|;
      if responseSerializerIndex < |responseSerializers| {
        return Some(responseSerializers[responseSerializerIndex]);
      }
      return None;
    }

    method ProcessNextResponseSerializer() returns (posts: seq<Post>, called: seq<nat>)
      modifies this
      ensures Effect(Value(), None, posts, called) == ProcessEffect(old(Value()))
      ensures tasks == old(tasks)
    {
      var next := NextResponseSerializer();
      if next.Some? { return [PostSerialize(next.value)], []; }
      called := responseSerializerCompletions;
      responseSerializers := [];
      responseSerializerCompletions := [];
      if state.CanTransitionTo(Finished) { state := Finished; }
      responseSerializerProcessingFinished := true;
      isFinishing := false;
      return [], called;
    }

    method Finish() returns (posts: seq<Post>, called: seq<nat>)
      modifies this
      ensures Effect(Value(), None, posts, called) == FinishEffect(old(Value()))
      ensures tasks == old(tasks)
    {
      if isFinishing { return [], []; }
      isFinishing := true;
      posts, called := ProcessNextResponseSerializer();
    }

    method ResponseSerializerDidComplete(completion: nat) returns (posts: seq<Post>, called: seq<nat>)
      modifies this
      ensures Effect(Value(), None, posts, called) == DidCompleteEffect(old(Value()), completion)
      ensures tasks == old(tasks)
    {
      responseSerializerCompletions := responseSerializerCompletions + [completion];
      posts, called := ProcessNextResponseSerializer();
    }

    method ResetForRetry()
      modifies this
      ensures Value() == Reset(old(Value())) && tasks == old(tasks)
    {
      isFinishing := false;
      responseSerializerCompletions := [];
    }
  }
}
