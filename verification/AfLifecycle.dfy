/** Requests, tasks and session as one transition system: public calls from any
    thread, queued steps in any order, and the events of URLSession. */
module AfLifecycle {
  import opened Wrappers
  import opened AfTaskMap
  import opened AfRequest

  // ---------------------------------------------------------------------
  // State
  // ---------------------------------------------------------------------

  /** The way of a request from perform to its task, and from a failure to the
      next attempt. */
  datatype Phase =
    | Performing // perform, on the request queue
    | SettingUp  // performSetupOperations
    | Creating   // didCreateURLRequest
    | Making     // the same, behind its isCancelled guard
    | Failing    // didFailToCreateURLRequest, didFailToAdaptURLRequest
    | Deciding   // a retrier has been asked
    | Retrying   // retryRequest

  /** Work that waits on some queue on behalf of a request. */
  datatype Work =
    | Chain(phase: Phase)
    | AppendTask(task: TaskId)
    | UpdateStates(task: TaskId)
    | CallFinish
    | Serialize(handler: nat)
    | Serialized(handler: nat)
    | StartIfAsked // resume, if the session starts requests immediately

  /** What has happened to the handlers of a request. `dropped`: a retry was
      given up because the request was cancelled, with nothing else to come. */
  datatype Log = Log(attached: seq<nat>, began: bool, ran: seq<nat>, called: seq<nat>, dropped: bool)

  datatype Req = Req(m: MutableState, queue: multiset<Work>, log: Log)

  /** A URLSessionTask, which of its two events have been delivered, whether
      updateStatesForTask has run for it, and how often its completion closure
      has been called. */
  datatype Task = Task(owner: RequestId, state: TaskState, completed: bool, gathered: bool, updated: bool, closures: nat)

  datatype Sys = Sys(
    reqs: map<RequestId, Req>,
    tasks: map<TaskId, Task>,
    table: Table,
    waiting: map<TaskId, RequestId>,
    crashed: bool)

  const START: Sys := Sys(map[], map[], EMPTY, map[], false)

  const NEW_REQUEST: Req := Req(NEW_STATE, multiset{Chain(Performing)}, Log([], false, [], [], false))

  // ---------------------------------------------------------------------
  // Steps of one request
  // ---------------------------------------------------------------------

  function Posted(posts: seq<Post>): multiset<Work> {
    if posts == [] then multiset{}
    else (match posts[0]
          case PostFinish => multiset{CallFinish}
          case PostSerialize(h) => multiset{Serialize(h)}
          case PostResumeIfStarting => multiset{StartIfAsked}
          case PostProcessNext => multiset{}) + Posted(posts[1..])
  }

  /** The request after a locked block. */
  function Settle(q: Req, e: Effect): Req {
    q.(m := e.state, queue := q.queue + Posted(e.posts), log := q.log.(called := q.log.called + e.called))
  }

  function Without(q: Req, w: Work): Req {
    q.(queue := q.queue - multiset{w})
  }

  function Move(q: Req, w: Work, next: Work): Req {
    q.(queue := q.queue - multiset{w} + multiset{next})
  }

  function FinishRequest(q: Req): Req {
    Settle(q.(log := q.log.(began := true)), FinishEffect(q.m))
  }

  /** retryOrFinish: with an error, the retrier is asked. */
  function RetryOrFinish(q: Req, hasError: bool): Req {
    if hasError then q.(queue := q.queue + multiset{Chain(Deciding)}) else FinishRequest(q)
  }

  /** What the environment decides in a step. */
  datatype Choice = Choice(createFails: bool, adaptFails: bool, hasError: bool, retry: bool, newTask: TaskId)

  predicate IsCancelled(q: Req) {
    q.m.state == Cancelled
  }

  function RunLocal(q: Req, w: Work, c: Choice): Req {
    match w
    case Chain(Performing) => if IsCancelled(q) then Without(q, w) else Move(q, w, Chain(SettingUp))
    case Chain(SettingUp) =>
      if c.createFails then Move(q, w, Chain(Failing))
      else if IsCancelled(q) then Without(q, w)
      else Move(q, w, Chain(if c.adaptFails then Failing else Creating))
    case Chain(Creating) => if IsCancelled(q) then Without(q, w) else Move(q, w, Chain(Making))
    case Chain(Failing) => RetryOrFinish(Without(q, w), c.hasError)
    case Chain(Deciding) => if c.retry then Move(q, w, Chain(Retrying)) else FinishRequest(Without(q, w))
    case Chain(Retrying) => if IsCancelled(q) then DropRetry(q) else Move(q.(m := Reset(q.m)), w, Chain(Performing))
    case CallFinish => FinishRequest(Without(q, w))
    case Serialize(h) => Move(q.(log := q.log.(ran := q.log.ran + [h])), w, Serialized(h))
    case Serialized(h) => Settle(Without(q, w), DidCompleteEffect(q.m, h))
    case _ => q
  }

  /** retryRequest returns early for a cancelled request. */
  function DropRetry(q: Req): Req {
    Without(q, Chain(Retrying)).(log := q.log.(dropped := !q.log.began && q.queue[CallFinish] == 0))
  }

  // ---------------------------------------------------------------------
  // Steps of the system
  // ---------------------------------------------------------------------

  datatype Action =
    | Create(r: RequestId)
    | Attach(r: RequestId, handler: nat)
    | CancelCall(r: RequestId)
    | SuspendCall(r: RequestId)
    | ResumeCall(r: RequestId)
    | StartIf(r: RequestId, immediately: bool)
    | Run(r: RequestId, w: Work, choice: Choice)
    | TaskEnds(t: TaskId)
    | DidComplete(t: TaskId, hasError: bool)
    | DidGather(t: TaskId, hasError: bool)

  /** Handlers are attached before finish, a new task is new, and URLSession
      delivers each of the two events once, completion after the end. */
  predicate Enabled(s: Sys, a: Action) {
    match a
    case Create(r) => r !in s.reqs
    case Attach(r, _) => r in s.reqs && !s.reqs[r].log.began
    case CancelCall(r) => r in s.reqs
    case SuspendCall(r) => r in s.reqs
    case ResumeCall(r) => r in s.reqs
    case StartIf(r, _) => r in s.reqs && StartIfAsked in s.reqs[r].queue
    case Run(r, w, c) => r in s.reqs && w in s.reqs[r].queue && w != StartIfAsked && (w == Chain(Making) ==> c.newTask !in s.tasks)
    case TaskEnds(t) => t in s.tasks
    case DidComplete(t, _) => t in s.tasks && s.tasks[t].state == Completed && !s.tasks[t].completed
    case DidGather(t, _) => t in s.tasks && !s.tasks[t].gathered
  }

  /** The newest task of a request. */
  function Newest(s: Sys, m: MutableState): Option<TaskState> {
    if m.tasks != [] && m.tasks[|m.tasks| - 1] in s.tasks then Some(s.tasks[m.tasks[|m.tasks| - 1]].state) else None
  }

  predicate IsCall(a: Action) {
    a.CancelCall? || a.SuspendCall? || a.ResumeCall?
  }

  function CallEffect(s: Sys, a: Action): Effect
    requires IsCall(a) && a.r in s.reqs
  {
    var m := s.reqs[a.r].m;
    if a.CancelCall? then CancelEffect(m, Newest(s, m))
    else if a.SuspendCall? then SuspendEffect(m, Newest(s, m))
    else ResumeEffect(m, Newest(s, m))
  }

  /** A public call: a locked block that may drive the newest task. */
  function PublicCall(s: Sys, r: RequestId, e: Effect): Sys
    requires r in s.reqs
  {
    var m := s.reqs[r].m;
    var s1 := s.(reqs := s.reqs[r := Settle(s.reqs[r], e)]);
    if Newest(s, m).Some? && e.task.Some? then
      var t := m.tasks[|m.tasks| - 1];
      s1.(tasks := s.tasks[t := s.tasks[t].(state := e.task.value)])
    else s1
  }

  /** The block that appendResponseSerializer posts has been taken. */
  function Dequeued(s: Sys, r: RequestId): Sys
    requires r in s.reqs
  {
    s.(reqs := s.reqs[r := Without(s.reqs[r], StartIfAsked)])
  }

  function StartRequest(s: Sys, r: RequestId, immediately: bool): Sys
    requires r in s.reqs
  {
    var s1 := Dequeued(s, r);
    if immediately then PublicCall(s1, r, CallEffect(s1, ResumeCall(r))) else s1
  }

  function Attached(q: Req, handler: nat): Req {
    var q1 := Settle(q, AppendEffect(q.m, handler));
    q1.(log := q1.log.(attached := q1.log.attached + [handler]))
  }

  /** Session.didCreateURLRequest behind its guard, up to the assignment to the
      task map. */
  function MakeTask(s: Sys, r: RequestId, t: TaskId): Sys
    requires r in s.reqs
  {
    s.(reqs := s.reqs[r := Move(s.reqs[r], Chain(Making), AppendTask(t))],
       tasks := s.tasks[t := Task(r, Paused, false, false, false, 0)],
       table := s.table.Assign(r, t))
  }

  /** Request.didCreateTask */
  function DidCreateTask(s: Sys, r: RequestId, t: TaskId): Sys
    requires r in s.reqs && t in s.tasks
  {
    var q := s.reqs[r];
    s.(reqs := s.reqs[r := Move(q.(m := q.m.(tasks := q.m.tasks + [t])), AppendTask(t), UpdateStates(t))],
       tasks := s.tasks[t := s.tasks[t].(updated := false)])
  }

  /** Session.updateStatesForTask */
  function UpdateStatesForTask(s: Sys, r: RequestId, t: TaskId): Sys
    requires r in s.reqs && t in s.tasks
  {
    s.(reqs := s.reqs[r := Without(s.reqs[r], UpdateStates(t))],
       tasks := s.tasks[t := s.tasks[t].(state := UpdateTask(s.reqs[r].m.state, s.tasks[t].state), updated := true)])
  }

  /** The completion closure of a task: Request.didCompleteTask. */
  function CallClosure(s: Sys, t: TaskId, r: RequestId, hasError: bool): Sys
    requires t in s.tasks && r in s.reqs
  {
    s.(tasks := s.tasks[t := s.tasks[t].(closures := s.tasks[t].closures + 1)],
       reqs := s.reqs[r := RetryOrFinish(s.reqs[r], hasError)])
  }

  /** urlSession(_:task:didCompleteWithError:) with Session.didCompleteTask */
  function CompletionArrives(s: Sys, t: TaskId, hasError: bool): Sys
    requires t in s.tasks
  {
    var s1 := s.(tasks := s.tasks[t := s.tasks[t].(completed := true)]);
    match s.table.AfterCompletion(t)
    case None => s1.(crashed := true)
    case Some((table, disassociated)) =>
      if t !in s.table.tasksToRequests || s.table.tasksToRequests[t] !in s.reqs then s1.(table := table)
      else
        var r := s.table.tasksToRequests[t];
        if disassociated then CallClosure(s1.(table := table), t, r, hasError)
        else s1.(table := table, waiting := s.waiting[t := r])
  }

  /** urlSession(_:task:didFinishCollecting:) with Session.didGatherMetricsForTask */
  function MetricsArrive(s: Sys, t: TaskId, hasError: bool): Sys
    requires t in s.tasks
  {
    var s1 := s.(tasks := s.tasks[t := s.tasks[t].(gathered := true)]);
    match s.table.AfterMetrics(t)
    case None => s1.(crashed := true)
    case Some((table, disassociated)) =>
      if disassociated && t in s.waiting && s.waiting[t] in s.reqs
      then CallClosure(s1.(table := table, waiting := s.waiting - {t}), t, s.waiting[t], hasError)
      else s1.(table := table)
  }

  function Apply(s: Sys, a: Action): Sys
    requires Enabled(s, a)
  {
    match a
    case Create(r) => s.(reqs := s.reqs[r := NEW_REQUEST])
    case Attach(r, h) => s.(reqs := s.reqs[r := Attached(s.reqs[r], h)])
    case CancelCall(r) => PublicCall(s, r, CallEffect(s, a))
    case SuspendCall(r) => PublicCall(s, r, CallEffect(s, a))
    case ResumeCall(r) => PublicCall(s, r, CallEffect(s, a))
    case StartIf(r, immediately) => StartRequest(s, r, immediately)
    case Run(r, w, c) =>
      if w == Chain(Making) then MakeTask(s, r, c.newTask)
      else if w.AppendTask? && w.task in s.tasks then DidCreateTask(s, r, w.task)
      else if w.UpdateStates? && w.task in s.tasks then UpdateStatesForTask(s, r, w.task)
      else s.(reqs := s.reqs[r := RunLocal(s.reqs[r], w, c)])
    case TaskEnds(t) => s.(tasks := s.tasks[t := s.tasks[t].(state := Completed)])
    case DidComplete(t, hasError) => CompletionArrives(s, t, hasError)
    case DidGather(t, hasError) => MetricsArrive(s, t, hasError)
  }
}
