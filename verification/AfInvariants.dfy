/** What every step keeps about the whole system, and what follows for every
    run. */
module AfInvariants {
  import opened Wrappers
  import opened AfTaskMap
  import opened AfRequest
  import opened AfLifecycle
  import opened AfOneRequest

  // ---------------------------------------------------------------------
  // Invariants of the system
  // ---------------------------------------------------------------------

  /** A task is in the task map until both events have come, its completion
      closure waits just while metrics are missing, and is called once in the
      end. */
  ghost predicate TaskOk(s: Sys, t: TaskId)
    requires t in s.tasks
  {
    var k := s.tasks[t];
    && k.owner in s.reqs
    && (k.completed ==> k.state == Completed)
    && (t in s.table.tasksToRequests <==> !(k.completed && k.gathered))
    && (t in s.table.tasksToRequests ==> s.table.tasksToRequests[t] == k.owner)
    && (t in s.table.tasksToRequests ==> t in s.table.taskEvents)
    && (t in s.table.tasksToRequests ==> s.table.taskEvents[t] == Events(k.completed, k.gathered))
    && (t in s.waiting <==> k.completed && !k.gathered)
    && (t in s.waiting ==> s.waiting[t] == k.owner)
    && k.closures == if k.completed && k.gathered then 1 else 0
  }

  ghost predicate TablesOk(s: Sys) {
    && !s.crashed && s.table.Consistent()
    && (forall t | t in s.table.tasksToRequests :: t in s.tasks)
    && (forall t | t in s.waiting :: t in s.tasks)
    && (forall t | t in s.tasks :: TaskOk(s, t))
  }

  ghost predicate Owns(s: Sys, r: RequestId, t: TaskId) {
    t in s.tasks && s.tasks[t].owner == r
  }

  /** Whatever the request knows of tasks is its own, and once
      updateStatesForTask has run for its newest task, that task does what the
      state of the request asks for. */
  ghost predicate TasksOk(s: Sys, r: RequestId)
    requires r in s.reqs
  {
    var q := s.reqs[r];
    && (forall t | t in q.m.tasks :: Owns(s, r, t))
    && (forall t | q.queue[AppendTask(t)] > 0 :: Owns(s, r, t))
    && (forall t | q.queue[UpdateStates(t)] > 0 :: Owns(s, r, t))
    && AllReached(s, r)
    && NewestObeys(s, r)
  }

  ghost predicate AllReached(s: Sys, r: RequestId)
    requires r in s.reqs
  {
    forall t | Owns(s, r, t) :: Reached(s.reqs[r].m.state, s.tasks[t].state)
  }

  ghost predicate NewestObeys(s: Sys, r: RequestId)
    requires r in s.reqs
  {
    var q := s.reqs[r];
    q.m.tasks != [] && q.m.tasks[|q.m.tasks| - 1] in s.tasks && s.tasks[q.m.tasks[|q.m.tasks| - 1]].updated ==>
      Obeys(q.m.state, s.tasks[q.m.tasks[|q.m.tasks| - 1]].state)
  }

  predicate Mapped(s: Sys, r: RequestId) {
    r in s.table.requestsToTasks
  }

  ghost predicate Inv(s: Sys) {
    && TablesOk(s)
    && (forall r | r in s.reqs :: RequestOk(s.reqs[r], Mapped(s, r)))
    && (forall r | r in s.reqs :: TasksOk(s, r))
  }

  lemma HasTables(s: Sys)
    requires Inv(s)
    ensures TablesOk(s)
  {
  }

  lemma TablesStay(s: Sys, s': Sys)
    requires TablesOk(s) && s' == s.(reqs := s'.reqs) && s.reqs.Keys <= s'.reqs.Keys
    ensures TablesOk(s')
  {
    forall t | t in s'.tasks ensures TaskOk(s', t) { assert TaskOk(s, t); }
  }

  /** The state of a request is kept, or comes to its regular end. */
  predicate StateKept(q: Req, q': Req) {
    q'.m.state == q.m.state || (q'.m.state == Finished && !IsCancelled(q))
  }

  /** `q'` knows of no more tasks than `q`. */
  ghost predicate SameTasks(q: Req, q': Req) {
    && q'.m.tasks == q.m.tasks
    && (forall t :: q'.queue[AppendTask(t)] <= q.queue[AppendTask(t)])
    && (forall t :: q'.queue[UpdateStates(t)] <= q.queue[UpdateStates(t)])
  }

  lemma TasksStay(s: Sys, s': Sys, r: RequestId)
    requires r in s.reqs && TasksOk(s, r) && r in s'.reqs && s'.tasks == s.tasks
    requires SameTasks(s.reqs[r], s'.reqs[r]) && StateKept(s.reqs[r], s'.reqs[r])
    ensures TasksOk(s', r)
  {
  }

  /** A step that changes one request but no task. */
  lemma OneRequest(s: Sys, r: RequestId, q: Req)
    requires Inv(s) && r in s.reqs && RequestOk(q, Mapped(s, r))
    requires TasksOk(s.(reqs := s.reqs[r := q]), r)
    ensures Inv(s.(reqs := s.reqs[r := q]))
  {
    hide RequestOk, TasksOk, TablesOk;
    var s' := s.(reqs := s.reqs[r := q]);
    TablesStay(s, s');
    forall p | p in s'.reqs ensures TasksOk(s', p) {
      if p != r { TasksStay(s, s', p); }
    }
    forall p | p in s'.reqs ensures RequestOk(s'.reqs[p], Mapped(s', p)) {
      if p != r { assert RequestOk(s.reqs[p], Mapped(s, p)); }
    }
  }

  lemma LocalTasks(q: Req, w: Work, c: Choice)
    ensures SameTasks(q, RunLocal(q, w, c))
    ensures StateKept(q, RunLocal(q, w, c))
  {
    hide FinishRequest;
    if w.Serialized? {
      SerializedTasks(q, w.handler);
    } else if w.Chain? {
      ChainTasks(q, w.phase, c);
    } else if w.CallFinish? {
      FinishTasks(Without(q, w));
    }
  }

  lemma ChainTasks(q: Req, phase: Phase, c: Choice)
    ensures SameTasks(q, RunLocal(q, Chain(phase), c))
    ensures StateKept(q, RunLocal(q, Chain(phase), c))
  {
    hide FinishRequest, SameTasks;
    var done := FinishRequest(Without(q, Chain(phase)));
    match phase
    case Performing => MoveTasks(q, q, phase, SettingUp);
    case SettingUp => MoveTasks(q, q, phase, Failing); MoveTasks(q, q, phase, Creating);
    case Creating => MoveTasks(q, q, phase, Making);
    case Making => MoveTasks(q, q, phase, Making);
    case Failing => FinishTasks(Without(q, Chain(phase))); MoveTasks(q, done, phase, Deciding);
    case Deciding => FinishTasks(Without(q, Chain(phase))); MoveTasks(q, done, phase, Retrying);
    case Retrying => MoveTasks(q, q, phase, Performing);
  }

  lemma MoveTasks(q: Req, q': Req, phase: Phase, next: Phase)
    ensures SameTasks(q, Without(q, Chain(phase))) && SameTasks(q, Move(q, Chain(phase), Chain(next)))
    ensures SameTasks(q, Move(q.(m := Reset(q.m)), Chain(phase), Chain(next)))
    ensures SameTasks(Without(q, Chain(phase)), q') ==> SameTasks(q, q')
    ensures SameTasks(q, q) && SameTasks(q, DropRetry(q))
  {
  }

  lemma SerializedTasks(q: Req, h: nat)
    ensures var q' := Settle(Without(q, Serialized(h)), DidCompleteEffect(q.m, h));
            SameTasks(q, q') && StateKept(q, q')
  {
    hide Settle, DidCompleteEffect;
    SerializedIs(q, h);
  }

  lemma FinishTasks(q: Req)
    ensures SameTasks(q, FinishRequest(q))
    ensures StateKept(q, FinishRequest(q))
  {
    FinishIs(q);
  }

  lemma InvLocal(s: Sys, r: RequestId, w: Work, c: Choice)
    requires Inv(s) && r in s.reqs && w in s.reqs[r].queue
    requires w != Chain(Making) && !w.AppendTask? && !w.UpdateStates? && w != StartIfAsked
    ensures Inv(s.(reqs := s.reqs[r := RunLocal(s.reqs[r], w, c)]))
  {
    hide RequestOk, SameTasks;
    RunLocalOk(s.reqs[r], w, c, Mapped(s, r));
    LocalTasks(s.reqs[r], w, c);
    TasksStay(s, s.(reqs := s.reqs[r := RunLocal(s.reqs[r], w, c)]), r);
    OneRequest(s, r, RunLocal(s.reqs[r], w, c));
  }

  lemma InvCreate(s: Sys, r: RequestId)
    requires Inv(s) && r !in s.reqs
    ensures Inv(s.(reqs := s.reqs[r := NEW_REQUEST]))
  {
    hide RequestOk, TasksOk, TablesOk;
    var s' := s.(reqs := s.reqs[r := NEW_REQUEST]);
    assert !Mapped(s, r) by { if Mapped(s, r) { MappedOwns(s, r); } }
    TablesStay(s, s');
    forall p | p in s'.reqs ensures TasksOk(s', p) {
      if p == r { NoneOwned(s, s', r); NewTasks(s', r); } else { TasksStay(s, s', p); }
    }
    forall p | p in s'.reqs ensures RequestOk(s'.reqs[p], Mapped(s', p)) {
      if p == r { NewOk(); } else { assert RequestOk(s.reqs[p], Mapped(s, p)); }
    }
  }

  lemma NoneOwned(s: Sys, s': Sys, r: RequestId)
    requires TablesOk(s) && r !in s.reqs && s'.tasks == s.tasks
    ensures forall t :: !Owns(s', r, t)
  {
    forall t | t in s.tasks ensures s.tasks[t].owner != r { assert TaskOk(s, t); }
  }

  lemma NewTasks(s: Sys, r: RequestId)
    requires r in s.reqs && s.reqs[r] == NEW_REQUEST && forall t :: !Owns(s, r, t)
    ensures TasksOk(s, r)
  {
  }

  lemma NewOk()
    ensures RequestOk(NEW_REQUEST, false)
  {
  }

  /** Only requests that exist have a task in the map, and it is their own. */
  lemma MappedOwns(s: Sys, r: RequestId)
    requires TablesOk(s) && Mapped(s, r)
    ensures r in s.reqs && Owns(s, r, s.table.requestsToTasks[r])
  {
    assert s.table.Paired(r, s.table.requestsToTasks[r]);
    assert TaskOk(s, s.table.requestsToTasks[r]);
  }

  lemma InvAttach(s: Sys, r: RequestId, h: nat)
    requires Inv(s) && r in s.reqs && !s.reqs[r].log.began
    ensures Inv(s.(reqs := s.reqs[r := Attached(s.reqs[r], h)]))
  {
    var q := s.reqs[r];
    AttachHandlers(q, h);
    assert RequestOk(q, Mapped(s, r));
    AttemptsStay(q, Attached(q, h), Mapped(s, r));
    TasksStay(s, s.(reqs := s.reqs[r := Attached(q, h)]), r);
    OneRequest(s, r, Attached(q, h));
  }

  /** A step that changes one request and one of its tasks. */
  lemma OneTask(s: Sys, r: RequestId, q: Req, t: TaskId, k: Task)
    requires Inv(s) && r in s.reqs && Owns(s, r, t) && RequestOk(q, Mapped(s, r))
    requires k == s.tasks[t].(state := k.state, updated := k.updated) && (k.completed ==> k.state == Completed)
    requires TasksOk(s.(reqs := s.reqs[r := q], tasks := s.tasks[t := k]), r)
    ensures Inv(s.(reqs := s.reqs[r := q], tasks := s.tasks[t := k]))
  {
    hide RequestOk, TasksOk, TablesOk;
    var s' := s.(reqs := s.reqs[r := q], tasks := s.tasks[t := k]);
    OneTaskTables(s, s', t, k);
    forall p | p in s'.reqs ensures TasksOk(s', p) {
      if p != r { OtherTasksStay(s, s', p, t, k); }
    }
    forall p | p in s'.reqs ensures RequestOk(s'.reqs[p], Mapped(s', p)) {
      if p != r { assert RequestOk(s.reqs[p], Mapped(s, p)); }
    }
  }

  lemma OneTaskTables(s: Sys, s': Sys, t: TaskId, k: Task)
    requires TablesOk(s) && t in s.tasks && s.reqs.Keys <= s'.reqs.Keys
    requires s' == s.(reqs := s'.reqs, tasks := s.tasks[t := k])
    requires k == s.tasks[t].(state := k.state, updated := k.updated) && (k.completed ==> k.state == Completed)
    ensures TablesOk(s')
  {
    forall u | u in s'.tasks ensures TaskOk(s', u) { assert TaskOk(s, u); }
  }

  lemma OtherTasksStay(s: Sys, s': Sys, p: RequestId, t: TaskId, k: Task)
    requires p in s.reqs && TasksOk(s, p) && p in s'.reqs && s'.reqs[p] == s.reqs[p]
    requires t in s.tasks && s.tasks[t].owner != p && k.owner == s.tasks[t].owner && s'.tasks == s.tasks[t := k]
    ensures TasksOk(s', p)
  {
    forall u | Owns(s, p, u) ensures Owns(s', p, u) {}
    if s.reqs[p].m.tasks != [] { NewestOwned(s, p); }
  }

  lemma NewestOwned(s: Sys, r: RequestId)
    requires r in s.reqs && TasksOk(s, r) && s.reqs[r].m.tasks != []
    ensures Owns(s, r, s.reqs[r].m.tasks[|s.reqs[r].m.tasks| - 1])
  {
    assert s.reqs[r].m.tasks[|s.reqs[r].m.tasks| - 1] in s.reqs[r].m.tasks;
  }

  /** A request without a task in the map has only tasks that are over. */
  lemma UnmappedNotLive(s: Sys, r: RequestId)
    requires TablesOk(s) && r in s.reqs && TasksOk(s, r) && !Mapped(s, r)
    ensures !Live(Newest(s, s.reqs[r].m))
  {
    hide TasksOk;
    var m := s.reqs[r].m;
    if m.tasks != [] {
      NewestOwned(s, r);
      UnmappedOver(s, r, m.tasks[|m.tasks| - 1]);
    }
  }

  lemma UnmappedOver(s: Sys, r: RequestId, t: TaskId)
    requires TablesOk(s) && Owns(s, r, t) && !Mapped(s, r)
    ensures s.tasks[t].state == Completed
  {
    assert TaskOk(s, t);
    assert t in s.table.tasksToRequests ==> s.table.Paired(r, t);
  }

  /** cancel, suspend and resume keep a request in order. */
  lemma PublicRequest(q: Req, task: Option<TaskState>, e: Effect, mapped: bool)
    requires RequestOk(q, mapped) && (!mapped ==> !Live(task))
    requires e in {CancelEffect(q.m, task), SuspendEffect(q.m, task), ResumeEffect(q.m, task)}
    ensures RequestOk(Settle(q, e), mapped)
  {
    hide HandlersOk;
    PublicCallsObeyed(q.m, task, e);
    PostedOne(PostFinish);
    assert q.log.called + [] == q.log.called;
    forall h ensures Pending(Settle(q, e), h) == Pending(q, h) {}
    PublicHandlers(q, task, e);
  }

  lemma PublicHandlers(q: Req, task: Option<TaskState>, e: Effect)
    requires HandlersOk(q)
    requires e in {CancelEffect(q.m, task), SuspendEffect(q.m, task), ResumeEffect(q.m, task)}
    ensures HandlersOk(Settle(q, e))
  {
    PublicCallsObeyed(q.m, task, e);
    PostedOne(PostFinish);
    assert q.log.called + [] == q.log.called;
    forall h ensures Pending(Settle(q, e), h) == Pending(q, h) {}
    HandlersStay(q, Settle(q, e));
  }

  lemma InvPublic(s: Sys, r: RequestId, e: Effect)
    requires Inv(s) && r in s.reqs
    requires var m, task := s.reqs[r].m, Newest(s, s.reqs[r].m);
             e in {CancelEffect(m, task), SuspendEffect(m, task), ResumeEffect(m, task)}
    ensures Inv(PublicCall(s, r, e))
  {
    hide RequestOk, TablesOk, TasksOk;
    var q, task := s.reqs[r], Newest(s, s.reqs[r].m);
    assert RequestOk(q, Mapped(s, r)) && TasksOk(s, r);
    if !Mapped(s, r) { UnmappedNotLive(s, r); }
    PublicRequest(q, task, e, Mapped(s, r));
    PublicTasks(s, r, e);
    PublicIs(s, r, e);
    if q.m.tasks == [] {
      OneRequest(s, r, Settle(q, e));
    } else {
      var t := q.m.tasks[|q.m.tasks| - 1];
      OneTask(s, r, Settle(q, e), t, s.tasks[t].(state := e.task.value));
    }
  }

  /** What a public call does to the system. */
  lemma PublicIs(s: Sys, r: RequestId, e: Effect)
    requires TablesOk(s) && r in s.reqs && TasksOk(s, r)
    requires var m, task := s.reqs[r].m, Newest(s, s.reqs[r].m);
             e in {CancelEffect(m, task), SuspendEffect(m, task), ResumeEffect(m, task)}
    ensures var tasks := s.reqs[r].m.tasks;
            if tasks == [] then PublicCall(s, r, e) == s.(reqs := s.reqs[r := Settle(s.reqs[r], e)])
            else var t := tasks[|tasks| - 1];
                 && Owns(s, r, t) && e.task.Some? && (s.tasks[t].completed ==> e.task.value == Completed)
                 && (s.tasks[t].updated ==> Obeys(e.state.state, e.task.value)) && Reached(e.state.state, e.task.value)
                 && PublicCall(s, r, e) == s.(reqs := s.reqs[r := Settle(s.reqs[r], e)],
                                              tasks := s.tasks[t := s.tasks[t].(state := e.task.value)])
  {
    var m := s.reqs[r].m;
    PublicCallsObeyed(m, Newest(s, m), e);
    if m.tasks != [] {
      NewestOwned(s, r);
      assert TaskOk(s, m.tasks[|m.tasks| - 1]);
    }
  }

  /** Whatever a task has come to is still possible after a call. */
  lemma StillReached(m: MutableState, task: Option<TaskState>, e: Effect, k: TaskState)
    requires e in {CancelEffect(m, task), SuspendEffect(m, task), ResumeEffect(m, task)}
    requires Reached(m.state, k)
    ensures Reached(e.state.state, k)
  {
  }

  lemma PublicReached(s: Sys, r: RequestId, e: Effect)
    requires TablesOk(s) && r in s.reqs && TasksOk(s, r)
    requires var m, task := s.reqs[r].m, Newest(s, s.reqs[r].m);
             e in {CancelEffect(m, task), SuspendEffect(m, task), ResumeEffect(m, task)}
    ensures r in PublicCall(s, r, e).reqs && AllReached(PublicCall(s, r, e), r)
  {
    hide TablesOk, NewestObeys, Reached, CancelEffect, SuspendEffect, ResumeEffect, PublicCall, Settle;
    var q, s' := s.reqs[r], PublicCall(s, r, e);
    PublicIs(s, r, e);
    assert s'.reqs[r].m == e.state by { SettledState(q, e); }
    forall u | Owns(s', r, u) ensures Reached(e.state.state, s'.tasks[u].state) {
      assert Owns(s, r, u);
      StillReached(q.m, Newest(s, q.m), e, s.tasks[u].state);
    }
  }

  lemma SettledState(q: Req, e: Effect)
    ensures Settle(q, e).m == e.state
  {
  }

  /** What the request knows of tasks is still its own, as a call only posts
      finish. */
  lemma PublicOwned(s: Sys, r: RequestId, e: Effect, s': Sys)
    requires r in s.reqs && TasksOk(s, r) && r in s'.reqs && s'.reqs[r] == Settle(s.reqs[r], e)
    requires e.state.tasks == s.reqs[r].m.tasks && e.posts in {[], [PostFinish]}
    requires forall u | Owns(s, r, u) :: Owns(s', r, u)
    requires AllReached(s', r) && NewestObeys(s', r)
    ensures TasksOk(s', r)
  {
    hide AllReached, NewestObeys;
    PostedOne(PostFinish);
  }

  lemma PublicNewest(s: Sys, r: RequestId, e: Effect)
    requires TablesOk(s) && r in s.reqs && TasksOk(s, r)
    requires var m, task := s.reqs[r].m, Newest(s, s.reqs[r].m);
             e in {CancelEffect(m, task), SuspendEffect(m, task), ResumeEffect(m, task)}
    ensures var s' := PublicCall(s, r, e);
            && r in s'.reqs && s'.reqs[r] == Settle(s.reqs[r], e)
            && (forall u | Owns(s, r, u) :: Owns(s', r, u)) && NewestObeys(s', r)
  {
    hide TablesOk, AllReached, Reached, Obeys, CancelEffect, SuspendEffect, ResumeEffect, PublicCall, Settle;
    PublicIs(s, r, e);
    PublicCallsObeyed(s.reqs[r].m, Newest(s, s.reqs[r].m), e);
    SettledState(s.reqs[r], e);
  }

  /** They drive only the newest task, which obeys. */
  lemma PublicTasks(s: Sys, r: RequestId, e: Effect)
    requires TablesOk(s) && r in s.reqs && TasksOk(s, r)
    requires var m, task := s.reqs[r].m, Newest(s, s.reqs[r].m);
             e in {CancelEffect(m, task), SuspendEffect(m, task), ResumeEffect(m, task)}
    ensures r in PublicCall(s, r, e).reqs && TasksOk(PublicCall(s, r, e), r)
  {
    hide TablesOk, TasksOk, AllReached, NewestObeys, CancelEffect, SuspendEffect, ResumeEffect, PublicCall, Settle;
    PublicNewest(s, r, e);
    PublicReached(s, r, e);
    PublicCallsObeyed(s.reqs[r].m, Newest(s, s.reqs[r].m), e);
    PublicOwned(s, r, e, PublicCall(s, r, e));
  }

  // ---------------------------------------------------------------------
  // Tasks come and go
  // ---------------------------------------------------------------------

  /** A task is made for a request without one. */
  lemma InvMake(s: Sys, r: RequestId, t: TaskId)
    requires Inv(s) && r in s.reqs && Chain(Making) in s.reqs[r].queue && t !in s.tasks
    ensures Inv(MakeTask(s, r, t))
  {
    hide RequestOk, TasksOk, TablesOk;
    var s' := MakeTask(s, r, t);
    assert RequestOk(s.reqs[r], Mapped(s, r));
    MakeRequest(s.reqs[r], t, Mapped(s, r));
    MakeTables(s, r, t);
    forall p | p in s'.reqs ensures TasksOk(s', p) { MakeTasks(s, r, t, p); }
    forall p | p in s'.reqs ensures RequestOk(s'.reqs[p], Mapped(s', p)) {
      if p != r { assert RequestOk(s.reqs[p], Mapped(s, p)); }
    }
  }

  lemma MakeRequest(q: Req, t: TaskId, mapped: bool)
    requires RequestOk(q, mapped) && q.queue[Chain(Making)] > 0
    ensures !mapped && RequestOk(Move(q, Chain(Making), AppendTask(t)), true)
  {
    hide HandlersOk;
    WithoutHandlers(q, Making);
    WithHandlers(Without(q, Chain(Making)), AppendTask(t));
  }

  lemma MakeTables(s: Sys, r: RequestId, t: TaskId)
    requires TablesOk(s) && r in s.reqs && !Mapped(s, r) && t !in s.tasks
    ensures TablesOk(MakeTask(s, r, t))
  {
    var s' := MakeTask(s, r, t);
    AssignKeeps(s.table, r, t);
    forall u | u in s'.tasks ensures TaskOk(s', u) {
      if u != t { assert TaskOk(s, u); }
    }
  }

  lemma MakeTasks(s: Sys, r: RequestId, t: TaskId, p: RequestId)
    requires r in s.reqs && p in s.reqs && TasksOk(s, p) && t !in s.tasks
    ensures TasksOk(MakeTask(s, r, t), p)
  {
    hide TasksOk;
    MoreTasks(s, MakeTask(s, r, t), p);
  }

  lemma MoreTasks(s: Sys, s': Sys, p: RequestId)
    requires p in s.reqs && TasksOk(s, p) && p in s'.reqs
    requires s'.reqs[p].m == s.reqs[p].m
    requires forall u | Owns(s, p, u) :: Owns(s', p, u) && s'.tasks[u] == s.tasks[u]
    requires forall u | Owns(s', p, u) :: Owns(s, p, u) || s'.tasks[u].state == Paused
    requires forall u | s'.reqs[p].queue[AppendTask(u)] > 0 :: s.reqs[p].queue[AppendTask(u)] > 0 || Owns(s', p, u)
    requires forall u | s'.reqs[p].queue[UpdateStates(u)] > 0 :: s.reqs[p].queue[UpdateStates(u)] > 0
    ensures TasksOk(s', p)
  {
    if s.reqs[p].m.tasks != [] { NewestOwned(s, p); }
  }

  lemma OwnsTask(s: Sys, r: RequestId, t: TaskId)
    requires r in s.reqs && TasksOk(s, r) && (AppendTask(t) in s.reqs[r].queue || UpdateStates(t) in s.reqs[r].queue)
    ensures Owns(s, r, t)
  {
    assert s.reqs[r].queue[AppendTask(t)] > 0 || s.reqs[r].queue[UpdateStates(t)] > 0;
  }

  lemma AppendTasks(s: Sys, r: RequestId, t: TaskId)
    requires r in s.reqs && TasksOk(s, r) && Owns(s, r, t)
    ensures TasksOk(DidCreateTask(s, r, t), r)
  {
    forall u | Owns(s, r, u) ensures Owns(DidCreateTask(s, r, t), r, u) {}
  }

  lemma InvAppend(s: Sys, r: RequestId, t: TaskId)
    requires Inv(s) && r in s.reqs && AppendTask(t) in s.reqs[r].queue
    ensures t in s.tasks && Inv(DidCreateTask(s, r, t))
  {
    hide RequestOk, TablesOk, TasksOk;
    assert TasksOk(s, r) && RequestOk(s.reqs[r], Mapped(s, r));
    OwnsTask(s, r, t);
    var q := DidCreateTask(s, r, t).reqs[r];
    TaskWorkOk(s.reqs[r], q, Mapped(s, r));
    AppendTasks(s, r, t);
    NotYetOver(s, t);
    OneTask(s, r, q, t, s.tasks[t].(updated := false));
  }

  /** Only work on tasks, and the list of tasks, differ. */
  lemma TaskWorkOk(q: Req, q': Req, mapped: bool)
    requires RequestOk(q, mapped) && q'.log == q.log && q'.m == q.m.(tasks := q'.m.tasks)
    requires forall w: Work | !w.AppendTask? && !w.UpdateStates? :: q'.queue[w] == q.queue[w]
    ensures RequestOk(q', mapped)
  {
    forall h ensures Pending(q', h) == Pending(q, h) {}
    HandlersStay(q, q');
    AttemptsStay(q, q', mapped);
  }

  lemma NotYetOver(s: Sys, t: TaskId)
    requires TablesOk(s) && t in s.tasks
    ensures s.tasks[t].completed ==> s.tasks[t].state == Completed
  {
    assert TaskOk(s, t);
  }

  /** The state that updateStatesForTask gives a task obeys that of its request. */
  lemma UpdateObeys(state: State, task: TaskState)
    requires Reached(state, task)
    ensures Obeys(state, UpdateTask(state, task)) && Reached(state, UpdateTask(state, task))
    ensures UpdateTask(state, Completed) == Completed
  {
  }

  lemma UpdateTasks(s: Sys, r: RequestId, t: TaskId)
    requires r in s.reqs && TasksOk(s, r) && Owns(s, r, t)
    ensures TasksOk(UpdateStatesForTask(s, r, t), r)
  {
    UpdateObeys(s.reqs[r].m.state, s.tasks[t].state);
    forall u | Owns(s, r, u) ensures Owns(UpdateStatesForTask(s, r, t), r, u) {}
  }

  lemma InvUpdate(s: Sys, r: RequestId, t: TaskId)
    requires Inv(s) && r in s.reqs && UpdateStates(t) in s.reqs[r].queue
    ensures t in s.tasks && Inv(UpdateStatesForTask(s, r, t))
  {
    hide RequestOk, TablesOk, TasksOk;
    assert TasksOk(s, r) && RequestOk(s.reqs[r], Mapped(s, r));
    OwnsTask(s, r, t);
    var s' := UpdateStatesForTask(s, r, t);
    TaskWorkOk(s.reqs[r], s'.reqs[r], Mapped(s, r));
    NotYetOver(s, t);
    UpdateTasks(s, r, t);
    OneTask(s, r, s'.reqs[r], t, s'.tasks[t]);
  }

  lemma EndTasks(s: Sys, s': Sys, r: RequestId, t: TaskId)
    requires r in s.reqs && TasksOk(s, r) && Owns(s, r, t)
    requires s'.reqs == s.reqs && s'.tasks == s.tasks[t := s.tasks[t].(state := Completed)]
    ensures TasksOk(s', r)
  {
    forall u | Owns(s, r, u) ensures Owns(s', r, u) {}
  }

  lemma InvTaskEnds(s: Sys, t: TaskId)
    requires Inv(s) && t in s.tasks
    ensures Inv(s.(tasks := s.tasks[t := s.tasks[t].(state := Completed)]))
  {
    hide RequestOk, TasksOk;
    var k := s.tasks[t].(state := Completed);
    var r := k.owner;
    assert TaskOk(s, t);
    assert TasksOk(s, r) && RequestOk(s.reqs[r], Mapped(s, r));
    assert s.reqs[r := s.reqs[r]] == s.reqs;
    EndTasks(s, s.(tasks := s.tasks[t := k]), r, t);
    OneTask(s, r, s.reqs[r], t, k);
  }

  // ---------------------------------------------------------------------
  // The two events of a task
  // ---------------------------------------------------------------------

  /** The request when its task leaves the map and the completion closure runs. */
  lemma ClosureRequest(q: Req, hasError: bool)
    requires RequestOk(q, true)
    ensures RequestOk(RetryOrFinish(q, hasError), false)
  {
    hide HandlersOk;
    RetryOrFinishAttempts(q, hasError);
    if hasError { WithHandlers(q, Chain(Deciding)); } else { FinishHandlers(q); }
  }

  /** After an event: the table and the waiting completions agree with the
      events of the task `t`, and when it was the second one, the completion
      closure has been called. */
  ghost predicate AfterEvent(s: Sys, s': Sys, t: TaskId, k: Task, hasError: bool)
    requires t in s.tasks && s.tasks[t].owner in s.reqs
  {
    var r := s.tasks[t].owner;
    && k.(completed := s.tasks[t].completed, gathered := s.tasks[t].gathered) == s.tasks[t]
    && if k.completed && k.gathered then
         && s.table.Remove(t) == Some(s'.table) && s'.waiting == s.waiting - {t}
         && s'.reqs == s.reqs[r := RetryOrFinish(s.reqs[r], hasError)]
         && s'.tasks == s.tasks[t := k.(closures := k.closures + 1)]
         && s'.crashed == s.crashed
       else
         && s'.table == s.table.(taskEvents := s.table.taskEvents[t := Events(k.completed, k.gathered)])
         && s'.waiting == (if k.completed then s.waiting[t := r] else s.waiting)
         && s'.reqs == s.reqs && s'.tasks == s.tasks[t := k] && s'.crashed == s.crashed
  }

  lemma CompletionIs(s: Sys, t: TaskId, hasError: bool)
    requires TablesOk(s) && t in s.tasks && !s.tasks[t].completed
    ensures s.tasks[t].owner in s.reqs
    ensures AfterEvent(s, CompletionArrives(s, t, hasError), t, s.tasks[t].(completed := true), hasError)
  {
    assert TaskOk(s, t);
    assert s.waiting - {t} == s.waiting;
    var k := s.tasks[t].(completed := true);
    assert s.tasks[t := k][t := k.(closures := k.closures + 1)] == s.tasks[t := k.(closures := k.closures + 1)];
  }

  lemma MetricsIs(s: Sys, t: TaskId, hasError: bool)
    requires TablesOk(s) && t in s.tasks && !s.tasks[t].gathered
    ensures s.tasks[t].owner in s.reqs
    ensures AfterEvent(s, MetricsArrive(s, t, hasError), t, s.tasks[t].(gathered := true), hasError)
  {
    assert TaskOk(s, t);
    var k := s.tasks[t].(gathered := true);
    assert s.tasks[t := k][t := k.(closures := k.closures + 1)] == s.tasks[t := k.(closures := k.closures + 1)];
  }

  lemma EventTables(s: Sys, s': Sys, t: TaskId, k: Task, hasError: bool)
    requires TablesOk(s) && t in s.tasks && s.tasks[t].owner in s.reqs && AfterEvent(s, s', t, k, hasError)
    requires t in s.table.tasksToRequests && (k.completed ==> k.state == Completed)
    requires k.completed != s.tasks[t].completed || k.gathered != s.tasks[t].gathered
    requires s.tasks[t].completed ==> k.completed
    requires s.tasks[t].gathered ==> k.gathered
    ensures TablesOk(s')
    ensures forall p :: Mapped(s', p) <==> Mapped(s, p) && !(k.completed && k.gathered && p == k.owner)
  {
    assert TaskOk(s, t);
    if k.completed && k.gathered {
      RemoveKeeps(s.table, k.owner, t);
    } else {
      EventsKeep(s.table, t, Events(k.completed, k.gathered));
    }
    forall u | u in s'.tasks ensures TaskOk(s', u) {
      if u != t { assert TaskOk(s, u); }
    }
  }

  lemma EventTasks(s: Sys, s': Sys, t: TaskId, k: Task, hasError: bool, p: RequestId)
    requires t in s.tasks && s.tasks[t].owner in s.reqs && AfterEvent(s, s', t, k, hasError)
    requires p in s.reqs && TasksOk(s, p)
    ensures p in s'.reqs && TasksOk(s', p)
  {
    var r := s.tasks[t].owner;
    var q := RetryOrFinish(s.reqs[r], hasError);
    FinishTasks(s.reqs[r]);
    assert SameTasks(s.reqs[p], s'.reqs[p]) && StateKept(s.reqs[p], s'.reqs[p]);
    EventTasksStay(s, s', t, p);
  }

  lemma EventTasksStay(s: Sys, s': Sys, t: TaskId, p: RequestId)
    requires p in s.reqs && TasksOk(s, p) && p in s'.reqs && t in s.tasks
    requires SameTasks(s.reqs[p], s'.reqs[p]) && StateKept(s.reqs[p], s'.reqs[p])
    requires t in s'.tasks && s'.tasks == s.tasks[t := s'.tasks[t]]
    requires s'.tasks[t].owner == s.tasks[t].owner && s'.tasks[t].state == s.tasks[t].state
    requires s'.tasks[t].updated == s.tasks[t].updated
    ensures TasksOk(s', p)
  {
    forall u | Owns(s, p, u) ensures Owns(s', p, u) {}
    if s.reqs[p].m.tasks != [] { NewestOwned(s, p); }
  }

  lemma InvEvent(s: Sys, s': Sys, t: TaskId, k: Task, hasError: bool)
    requires Inv(s) && t in s.tasks && s.tasks[t].owner in s.reqs && AfterEvent(s, s', t, k, hasError)
    requires t in s.table.tasksToRequests && (k.completed ==> k.state == Completed)
    requires k.completed != s.tasks[t].completed || k.gathered != s.tasks[t].gathered
    requires s.tasks[t].completed ==> k.completed
    requires s.tasks[t].gathered ==> k.gathered
    ensures Inv(s')
  {
    hide RequestOk, TasksOk, TablesOk;
    var r := s.tasks[t].owner;
    EventTables(s, s', t, k, hasError);
    assert RequestOk(s.reqs[r], Mapped(s, r));
    assert Mapped(s, r) by { InMapIsMapped(s, t); }
    ClosureRequest(s.reqs[r], hasError);
    forall p | p in s'.reqs ensures TasksOk(s', p) { EventTasks(s, s', t, k, hasError, p); }
    forall p | p in s'.reqs ensures RequestOk(s'.reqs[p], Mapped(s', p)) {
      if p != r { assert RequestOk(s.reqs[p], Mapped(s, p)); }
    }
  }

  lemma InMapIsMapped(s: Sys, t: TaskId)
    requires TablesOk(s) && t in s.table.tasksToRequests
    ensures t in s.tasks && Mapped(s, s.tasks[t].owner)
  {
    assert TaskOk(s, t) && s.table.Paired(s.table.tasksToRequests[t], t);
  }

  // ---------------------------------------------------------------------
  // Every step
  // ---------------------------------------------------------------------

  lemma InvStart()
    ensures Inv(START)
  {
  }

  lemma InvDequeued(s: Sys, r: RequestId)
    requires Inv(s) && r in s.reqs
    ensures Inv(Dequeued(s, r))
  {
    hide RequestOk;
    var q, q' := s.reqs[r], Without(s.reqs[r], StartIfAsked);
    assert RequestOk(q, Mapped(s, r));
    StartOk(q, Mapped(s, r));
    TasksStay(s, Dequeued(s, r), r);
    OneRequest(s, r, q');
  }

  lemma StartOk(q: Req, mapped: bool)
    requires RequestOk(q, mapped)
    ensures RequestOk(Without(q, StartIfAsked), mapped)
  {
    hide HandlersOk, AttemptsOk;
    var q' := Without(q, StartIfAsked);
    forall h ensures Pending(q', h) == Pending(q, h) {}
    HandlersStay(q, q');
    AttemptsStay(q, q', mapped);
  }

  lemma InvStartIf(s: Sys, r: RequestId, immediately: bool)
    requires Inv(s) && r in s.reqs
    ensures Inv(StartRequest(s, r, immediately))
  {
    hide Inv, Dequeued, PublicCall, ResumeEffect;
    InvDequeued(s, r);
    if immediately {
      assert r in Dequeued(s, r).reqs by { DequeuedHas(s, r); }
      InvPublic(Dequeued(s, r), r, CallEffect(Dequeued(s, r), ResumeCall(r)));
    }
  }

  /** Only the block is gone. */
  lemma DequeuedHas(s: Sys, r: RequestId)
    requires r in s.reqs
    ensures Dequeued(s, r).reqs.Keys == s.reqs.Keys
    ensures forall p | p in s.reqs ::
              var q, q' := s.reqs[p], Dequeued(s, r).reqs[p];
              && q'.m == q.m && q'.log == q.log && (p != r ==> q' == q)
              && forall w: Work | w != StartIfAsked :: q'.queue[w] == q.queue[w]
  {
  }

  /** The block does nothing, or calls resume. */
  lemma StartIs(s: Sys, a: Action)
    requires a.StartIf? && Enabled(s, a)
    ensures Enabled(Dequeued(s, a.r), ResumeCall(a.r))
    ensures Apply(s, a) == if a.immediately then Apply(Dequeued(s, a.r), ResumeCall(a.r)) else Dequeued(s, a.r)
  {
    hide PublicCall, CallEffect;
  }

  lemma InvRun(s: Sys, r: RequestId, w: Work, c: Choice)
    requires Inv(s) && Enabled(s, Run(r, w, c))
    ensures Inv(Apply(s, Run(r, w, c)))
  {
    hide Inv, RunLocal, MakeTask, DidCreateTask, UpdateStatesForTask;
    if w == Chain(Making) {
      InvMake(s, r, c.newTask);
    } else if w.AppendTask? {
      InvAppend(s, r, w.task);
    } else if w.UpdateStates? {
      InvUpdate(s, r, w.task);
    } else {
      InvLocal(s, r, w, c);
    }
  }

  lemma InvEvents(s: Sys, a: Action)
    requires Inv(s) && Enabled(s, a) && (a.DidComplete? || a.DidGather?)
    ensures Inv(Apply(s, a))
  {
    hide AfterEvent, TasksOk, RequestOk, CompletionArrives, MetricsArrive;
    assert TaskOk(s, a.t);
    if a.DidComplete? {
      CompletionIs(s, a.t, a.hasError);
      InvEvent(s, Apply(s, a), a.t, s.tasks[a.t].(completed := true), a.hasError);
    } else {
      MetricsIs(s, a.t, a.hasError);
      InvEvent(s, Apply(s, a), a.t, s.tasks[a.t].(gathered := true), a.hasError);
    }
  }

  /** Every enabled step keeps all of it. */
  lemma InvStep(s: Sys, a: Action)
    requires Inv(s) && Enabled(s, a)
    ensures Inv(Apply(s, a))
  {
    hide Inv;
    match a
    case Create(r) => InvCreate(s, r);
    case Attach(r, h) => InvAttach(s, r, h);
    case CancelCall(r) => InvPublic(s, r, CallEffect(s, a));
    case SuspendCall(r) => InvPublic(s, r, CallEffect(s, a));
    case ResumeCall(r) => InvPublic(s, r, CallEffect(s, a));
    case StartIf(r, immediately) => InvStartIf(s, r, immediately);
    case Run(r, w, c) => InvRun(s, r, w, c);
    case TaskEnds(t) => InvTaskEnds(s, t);
    case DidComplete(t, _) => InvEvents(s, a);
    case DidGather(t, _) => InvEvents(s, a);
  }
}
