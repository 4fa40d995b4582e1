/** What holds over whole runs of the system. */
module AfRuns {
  import opened Wrappers
  import opened AfTaskMap
  import opened AfRequest
  import opened AfLifecycle
  import opened AfOneRequest
  import opened AfInvariants

  /** A run from the start: any interleaving of enabled steps. */
  ghost predicate IsRun(ss: seq<Sys>, acts: seq<Action>) {
    && |ss| == |acts| + 1 && ss[0] == START
    && forall i | 0 <= i < |acts| :: StepOf(ss[i], acts[i], ss[i + 1])
  }

  ghost predicate StepOf(s: Sys, a: Action, s': Sys) {
    Enabled(s, a) && s' == Apply(s, a)
  }

  lemma {:induction false} InvAt(ss: seq<Sys>, acts: seq<Action>, i: nat)
    requires IsRun(ss, acts) && i < |ss|
    ensures Inv(ss[i])
  {
    hide Inv;
    if i == 0 {
      InvStart();
    } else {
      InvAt(ss, acts, i - 1);
      assert StepOf(ss[i - 1], acts[i - 1], ss[i]);
      InvStep(ss[i - 1], acts[i - 1]);
    }
  }

  // ---------------------------------------------------------------------
  // Task bookkeeping
  // ---------------------------------------------------------------------

  /** In every run the two maps are inverse to each other, events are kept for
      exactly the mapped tasks, these are the tasks that still wait for one of
      their two events, and no consistency check ever fails. */
  lemma TaskBookkeeping(ss: seq<Sys>, acts: seq<Action>, i: nat)
    requires IsRun(ss, acts) && i < |ss|
    ensures var s := ss[i];
            && !s.crashed
            && (forall t | t in s.table.tasksToRequests ::
                  var r := s.table.tasksToRequests[t]; r in s.table.requestsToTasks && s.table.requestsToTasks[r] == t)
            && (forall r | r in s.table.requestsToTasks ::
                  var t := s.table.requestsToTasks[r]; t in s.table.tasksToRequests && s.table.tasksToRequests[t] == r)
            && s.table.taskEvents.Keys == s.table.tasksToRequests.Keys
            && (forall t :: t in s.table.tasksToRequests <==> t in s.tasks && !(s.tasks[t].completed && s.tasks[t].gathered))
            && (forall t :: t in s.waiting <==> t in s.tasks && s.tasks[t].completed && !s.tasks[t].gathered)
  {
    InvAt(ss, acts, i);
    var s := ss[i];
    forall t | t in s.table.tasksToRequests
      ensures var r := s.table.tasksToRequests[t]; r in s.table.requestsToTasks && s.table.requestsToTasks[r] == t
    {
      assert s.table.Paired(s.table.tasksToRequests[t], t);
    }
    forall r | r in s.table.requestsToTasks
      ensures var t := s.table.requestsToTasks[r]; t in s.table.tasksToRequests && s.table.tasksToRequests[t] == r
    {
      assert s.table.Paired(r, s.table.requestsToTasks[r]);
    }
    forall t | t in s.tasks
      ensures t in s.table.tasksToRequests <==> !(s.tasks[t].completed && s.tasks[t].gathered)
      ensures t in s.waiting <==> s.tasks[t].completed && !s.tasks[t].gathered
    {
      assert TaskOk(s, t);
    }
  }

  /** The step delivers the second of the two events of a task. */
  predicate SecondEvent(s: Sys, a: Action, t: TaskId)
    requires t in s.tasks
  {
    (a.DidComplete? && a.t == t && s.tasks[t].gathered) || (a.DidGather? && a.t == t && s.tasks[t].completed)
  }

  lemma FlagsOfStep(s: Sys, a: Action, t: TaskId)
    requires TablesOk(s) && Enabled(s, a) && t in s.tasks
    ensures t in Apply(s, a).tasks
    ensures var k, k' := s.tasks[t], Apply(s, a).tasks[t];
            && k'.completed == (k.completed || (a.DidComplete? && a.t == t))
            && k'.gathered == (k.gathered || (a.DidGather? && a.t == t))
  {
    hide RunLocal, Settle, TablesOk, CancelEffect, SuspendEffect, ResumeEffect, Attached, CompletionArrives, MetricsArrive;
    if a.DidComplete? {
      CompletionFlags(s, a.t, a.hasError, t);
    } else if a.DidGather? {
      MetricsFlags(s, a.t, a.hasError, t);
    }
  }

  lemma CompletionFlags(s: Sys, u: TaskId, hasError: bool, t: TaskId)
    requires TablesOk(s) && u in s.tasks && !s.tasks[u].completed && t in s.tasks
    ensures var s' := CompletionArrives(s, u, hasError);
            && t in s'.tasks && s'.tasks[t].gathered == s.tasks[t].gathered
            && s'.tasks[t].completed == (s.tasks[t].completed || u == t)
  {
    CompletionIs(s, u, hasError);
  }

  lemma MetricsFlags(s: Sys, u: TaskId, hasError: bool, t: TaskId)
    requires TablesOk(s) && u in s.tasks && !s.tasks[u].gathered && t in s.tasks
    ensures var s' := MetricsArrive(s, u, hasError);
            && t in s'.tasks && s'.tasks[t].completed == s.tasks[t].completed
            && s'.tasks[t].gathered == (s.tasks[t].gathered || u == t)
  {
    MetricsIs(s, u, hasError);
  }

  /** The completion closure of a task is called exactly once in a run, and that
      is when the second of its two events arrives, in whichever order. */
  lemma ClosureAtSecondEvent(ss: seq<Sys>, acts: seq<Action>, i: nat, t: TaskId)
    requires IsRun(ss, acts) && i < |acts| && t in ss[i].tasks
    ensures t in ss[i + 1].tasks
    ensures ss[i + 1].tasks[t].closures == ss[i].tasks[t].closures + (if SecondEvent(ss[i], acts[i], t) then 1 else 0)
    ensures ss[i].tasks[t].closures == if ss[i].tasks[t].completed && ss[i].tasks[t].gathered then 1 else 0
  {
    hide Apply, Inv, SecondEvent, TablesOk;
    InvAt(ss, acts, i);
    assert StepOf(ss[i], acts[i], ss[i + 1]);
    ClosureStep(ss[i], acts[i], t);
  }

  lemma ClosureStep(s: Sys, a: Action, t: TaskId)
    requires Inv(s) && Enabled(s, a) && t in s.tasks
    ensures t in Apply(s, a).tasks
    ensures Apply(s, a).tasks[t].closures == s.tasks[t].closures + (if SecondEvent(s, a, t) then 1 else 0)
    ensures s.tasks[t].closures == if s.tasks[t].completed && s.tasks[t].gathered then 1 else 0
  {
    hide Apply, TasksOk, RequestOk;
    InvStep(s, a);
    FlagsOfStep(s, a, t);
    assert TaskOk(s, t) && TaskOk(Apply(s, a), t);
  }

  // ---------------------------------------------------------------------
  // Response handlers
  // ---------------------------------------------------------------------

  ghost predicate Prefix(a: seq<nat>, b: seq<nat>) {
    |a| <= |b| && a == b[..|a|]
  }

  /** At any point of any run the serializers that have run are the first ones
      attached, in order, and at most one is on its way; no completion has been
      called, or all of them once and in order. */
  lemma HandlersInOrder(ss: seq<Sys>, acts: seq<Action>, i: nat, r: RequestId)
    requires IsRun(ss, acts) && i < |ss| && r in ss[i].reqs
    ensures var q := ss[i].reqs[r];
            && Prefix(q.log.ran, q.log.attached)
            && (q.log.called == [] || q.log.called == q.log.attached)
            && (forall g, h | Pending(q, g) > 0 && Pending(q, h) > 0 :: g == h && Pending(q, g) == 1)
  {
    InvAt(ss, acts, i);
    assert RequestOk(ss[i].reqs[r], Mapped(ss[i], r));
  }

  /** Once finish has begun and is over, both lists are empty, every handler has
      run and been called, and the request is finished or cancelled. */
  lemma HandlersServed(ss: seq<Sys>, acts: seq<Action>, i: nat, r: RequestId)
    requires IsRun(ss, acts) && i < |ss| && r in ss[i].reqs
    requires ss[i].reqs[r].log.began && !ss[i].reqs[r].m.isFinishing
    ensures var q := ss[i].reqs[r];
            && q.m.responseSerializers == [] && q.m.responseSerializerCompletions == []
            && q.log.ran == q.log.attached && q.log.called == q.log.attached
            && (q.m.state == Finished || q.m.state == Cancelled)
  {
    InvAt(ss, acts, i);
    assert RequestOk(ss[i].reqs[r], Mapped(ss[i], r));
  }

  /** What a step may do to the log of a request. */
  ghost predicate LogGrows(l: Log, l': Log) {
    && Prefix(l.attached, l'.attached) && (l.began ==> l'.began && l'.attached == l.attached)
    && Prefix(l.ran, l'.ran) && Prefix(l.called, l'.called)
  }

  lemma SettleGrows(q: Req, e: Effect)
    ensures LogGrows(q.log, Settle(q, e).log)
  {
  }

  lemma FinishGrows(q: Req)
    ensures LogGrows(q.log, FinishRequest(q).log)
  {
  }

  lemma LocalGrows(q: Req, w: Work, c: Choice)
    ensures LogGrows(q.log, RunLocal(q, w, c).log)
  {
    hide RunLocal, LogGrows;
    LogSame(q.log);
    match w
    case Chain(phase) => ChainGrows(q, phase, c);
    case CallFinish => FinishCallGrows(q, c);
    case Serialize(h) => SerializeGrows(q, h, c);
    case Serialized(h) => SerializedGrows(q, h, c);
    case _ => OtherLocal(q, w, c);
  }

  lemma OtherLocal(q: Req, w: Work, c: Choice)
    requires w.AppendTask? || w.UpdateStates? || w.StartIfAsked?
    ensures RunLocal(q, w, c) == q
  {
  }

  lemma ChainGrows(q: Req, phase: Phase, c: Choice)
    ensures LogGrows(q.log, RunLocal(q, Chain(phase), c).log)
  {
    hide LogGrows, RunLocal;
    LogSame(q.log);
    DroppedGrows(q);
    FinishGrows(Without(q, Chain(phase)));
    ChainLog(q, phase, c);
  }

  /** What a step on the way of a request can do to its log. */
  lemma ChainLog(q: Req, phase: Phase, c: Choice)
    ensures RunLocal(q, Chain(phase), c).log in
              {q.log, DropRetry(q).log, FinishRequest(Without(q, Chain(phase))).log}
  {
    hide FinishRequest, DropRetry;
  }

  lemma DroppedGrows(q: Req)
    ensures LogGrows(q.log, DropRetry(q).log)
  {
  }

  lemma FinishCallGrows(q: Req, c: Choice)
    ensures LogGrows(q.log, RunLocal(q, CallFinish, c).log)
  {
    hide FinishRequest;
    FinishGrows(Without(q, CallFinish));
  }

  lemma SerializeGrows(q: Req, h: nat, c: Choice)
    ensures LogGrows(q.log, RunLocal(q, Serialize(h), c).log)
  {
  }

  lemma SerializedGrows(q: Req, h: nat, c: Choice)
    ensures LogGrows(q.log, RunLocal(q, Serialized(h), c).log)
  {
    hide Settle, LogGrows;
    SettleGrows(Without(q, Serialized(h)), DidCompleteEffect(q.m, h));
  }

  lemma StepGrows(s: Sys, a: Action, r: RequestId)
    requires TablesOk(s) && Enabled(s, a) && r in s.reqs
    ensures r in Apply(s, a).reqs && LogGrows(s.reqs[r].log, Apply(s, a).reqs[r].log)
  {
    hide LogGrows, TablesOk, RunLocal, PublicCall, Attached, CompletionArrives, MetricsArrive;
    LogSame(s.reqs[r].log);
    if a.Attach? {
      AttachGrows(s.reqs[a.r], a.handler);
    } else if IsCall(a) {
      PublicGrows(s, a, r);
    } else if a.Run? {
      LocalGrows(s.reqs[a.r], a.w, a.choice);
    } else if a.DidComplete? || a.DidGather? {
      EventGrows(s, a, r);
    } else if a.StartIf? {
      StartGrows(s, a, r);
    }
  }

  lemma LogSame(l: Log)
    ensures LogGrows(l, l)
  {
  }

  lemma PublicGrows(s: Sys, a: Action, r: RequestId)
    requires Enabled(s, a) && r in s.reqs && (IsCall(a))
    ensures r in Apply(s, a).reqs && LogGrows(s.reqs[r].log, Apply(s, a).reqs[r].log)
  {
    hide LogGrows, Settle, CallEffect;
    LogSame(s.reqs[r].log);
    SettleGrows(s.reqs[a.r], CallEffect(s, a));
  }

  lemma StartGrows(s: Sys, a: Action, r: RequestId)
    requires Enabled(s, a) && r in s.reqs && a.StartIf?
    ensures r in Apply(s, a).reqs && LogGrows(s.reqs[r].log, Apply(s, a).reqs[r].log)
  {
    hide LogGrows, Apply, Dequeued;
    StartIs(s, a);
    DequeuedHas(s, a.r);
    LogSame(s.reqs[r].log);
    if a.immediately { PublicGrows(Dequeued(s, a.r), ResumeCall(a.r), r); }
  }

  lemma EventGrows(s: Sys, a: Action, r: RequestId)
    requires TablesOk(s) && Enabled(s, a) && r in s.reqs && (a.DidComplete? || a.DidGather?)
    ensures r in Apply(s, a).reqs && LogGrows(s.reqs[r].log, Apply(s, a).reqs[r].log)
  {
    hide LogGrows, FinishRequest, TablesOk, CompletionArrives, MetricsArrive;
    LogSame(s.reqs[r].log);
    if a.DidComplete? { CompletionIs(s, a.t, a.hasError); } else { MetricsIs(s, a.t, a.hasError); }
    FinishGrows(s.reqs[s.tasks[a.t].owner]);
    LogSame(s.reqs[s.tasks[a.t].owner].log);
  }

  lemma AttachGrows(q: Req, h: nat)
    requires !q.log.began
    ensures LogGrows(q.log, Attached(q, h).log)
  {
  }

  /** No completion is ever called again: once the handlers are served, they are
      served for the rest of the run. */
  lemma {:induction false} ServedForever(ss: seq<Sys>, acts: seq<Action>, i: nat, j: nat, r: RequestId)
    requires IsRun(ss, acts) && i <= j < |ss| && r in ss[i].reqs
    requires ss[i].reqs[r].log.began && !ss[i].reqs[r].m.isFinishing
    ensures r in ss[j].reqs && ss[j].reqs[r].log.began && !ss[j].reqs[r].m.isFinishing
    ensures ss[j].reqs[r].log.called == ss[i].reqs[r].log.called == ss[i].reqs[r].log.attached
    ensures ss[j].reqs[r].log.ran == ss[i].reqs[r].log.ran
    decreases j
  {
    hide Apply, Inv, LogGrows, Enabled;
    HandlersServed(ss, acts, i, r);
    if i < j {
      ServedForever(ss, acts, i, j - 1, r);
      HandlersServed(ss, acts, j - 1, r);
      assert StepOf(ss[j - 1], acts[j - 1], ss[j]);
      InvAt(ss, acts, j - 1);
      ServedStep(ss[j - 1], acts[j - 1], r);
    }
  }

  lemma ServedStep(s: Sys, a: Action, r: RequestId)
    requires Inv(s) && Enabled(s, a) && r in s.reqs && s.reqs[r].log.began && !s.reqs[r].m.isFinishing
    ensures r in Apply(s, a).reqs
    ensures var q, q' := s.reqs[r], Apply(s, a).reqs[r];
            q'.log.began && !q'.m.isFinishing && q'.log.called == q.log.called && q'.log.ran == q.log.ran
  {
    hide Apply, TasksOk, TablesOk;
    InvStep(s, a);
    StepGrows(s, a, r);
    ServedStays(s.reqs[r], Apply(s, a).reqs[r]);
  }

  lemma ServedStays(q: Req, q': Req)
    requires HandlersOk(q) && HandlersOk(q') && LogGrows(q.log, q'.log) && q.log.began && !q.m.isFinishing
    ensures q'.log.began && !q'.m.isFinishing && q'.log.called == q.log.called && q'.log.ran == q.log.ran
  {
  }

  // ---------------------------------------------------------------------
  // Cancel, suspend, resume
  // ---------------------------------------------------------------------

  /** No call is lost: once updateStatesForTask has run for the newest task, that
      task is cancelled or completed if the request is cancelled, is not running
      if it is suspended, and is not left suspended if it is resumed. */
  lemma NewestTaskObeys(ss: seq<Sys>, acts: seq<Action>, i: nat, r: RequestId)
    requires IsRun(ss, acts) && i < |ss| && r in ss[i].reqs && ss[i].reqs[r].m.tasks != []
    ensures var tasks := ss[i].reqs[r].m.tasks; tasks[|tasks| - 1] in ss[i].tasks
    ensures var m := ss[i].reqs[r].m;
            var k := ss[i].tasks[m.tasks[|m.tasks| - 1]];
            k.updated ==>
              && (m.state == Initialized ==> k.state == Paused || k.state == Completed)
              && (m.state == Resumed ==> k.state == Running || k.state == Completed)
              && (m.state == Suspended ==> k.state == Paused || k.state == Completed)
              && (m.state == Cancelled ==> k.state == Canceling || k.state == Completed)
  {
    hide Apply, RequestOk, TablesOk;
    InvAt(ss, acts, i);
    assert TasksOk(ss[i], r);
    NewestOwned(ss[i], r);
  }

  lemma LocalCancelled(q: Req, w: Work, c: Choice)
    requires IsCancelled(q)
    ensures IsCancelled(RunLocal(q, w, c))
  {
    hide FinishRequest;
    FinishCancelled(Without(q, w));
    if w.Serialized? {
      SerializedIs(q, w.handler);
    }
  }

  lemma FinishCancelled(q: Req)
    ensures IsCancelled(FinishRequest(q)) <==> IsCancelled(q)
  {
    FinishIs(q);
  }

  lemma StepCancelled(s: Sys, a: Action, r: RequestId)
    requires TablesOk(s) && Enabled(s, a) && r in s.reqs && IsCancelled(s.reqs[r])
    ensures r in Apply(s, a).reqs && IsCancelled(Apply(s, a).reqs[r])
  {
    hide TablesOk, RunLocal, CompletionArrives, MetricsArrive, PublicCall, Attached;
    if a.Run? {
      if a.r == r { LocalCancelled(s.reqs[r], a.w, a.choice); }
    } else if a.DidComplete? || a.DidGather? {
      EventCancelled(s, a, r);
    } else if a.StartIf? {
      StartCancelled(s, a, r);
    } else if !a.Create? && !a.TaskEnds? {
      CallCancelled(s, a, r);
    }
  }

  lemma StartCancelled(s: Sys, a: Action, r: RequestId)
    requires Enabled(s, a) && r in s.reqs && IsCancelled(s.reqs[r]) && a.StartIf?
    ensures r in Apply(s, a).reqs && IsCancelled(Apply(s, a).reqs[r])
  {
    hide Apply, Dequeued;
    StartIs(s, a);
    DequeuedHas(s, a.r);
    if a.immediately { CallCancelled(Dequeued(s, a.r), ResumeCall(a.r), r); }
  }

  lemma CallCancelled(s: Sys, a: Action, r: RequestId)
    requires Enabled(s, a) && r in s.reqs && IsCancelled(s.reqs[r]) && (a.Attach? || IsCall(a))
    ensures r in Apply(s, a).reqs && IsCancelled(Apply(s, a).reqs[r])
  {
    hide CancelEffect, SuspendEffect, ResumeEffect, Newest;
    if IsCall(a) { PublicCallsObeyed(s.reqs[a.r].m, Newest(s, s.reqs[a.r].m), CallEffect(s, a)); }
  }

  lemma EventCancelled(s: Sys, a: Action, r: RequestId)
    requires TablesOk(s) && Enabled(s, a) && r in s.reqs && IsCancelled(s.reqs[r]) && (a.DidComplete? || a.DidGather?)
    ensures r in Apply(s, a).reqs && IsCancelled(Apply(s, a).reqs[r])
  {
    hide TablesOk, CompletionArrives, MetricsArrive, FinishRequest;
    if a.DidComplete? { CompletionIs(s, a.t, a.hasError); } else { MetricsIs(s, a.t, a.hasError); }
    FinishCancelled(s.reqs[s.tasks[a.t].owner]);
  }

  /** Cancelled is absorbing. */
  lemma {:induction false} CancelledForever(ss: seq<Sys>, acts: seq<Action>, i: nat, j: nat, r: RequestId)
    requires IsRun(ss, acts) && i <= j < |ss| && r in ss[i].reqs && ss[i].reqs[r].m.state == Cancelled
    ensures r in ss[j].reqs && ss[j].reqs[r].m.state == Cancelled
    decreases j
  {
    hide Apply, Inv, Enabled;
    if i < j {
      CancelledForever(ss, acts, i, j - 1, r);
      InvAt(ss, acts, j - 1);
      assert StepOf(ss[j - 1], acts[j - 1], ss[j]);
      CancelledStep(ss[j - 1], acts[j - 1], r);
    }
  }

  lemma CancelledStep(s: Sys, a: Action, r: RequestId)
    requires Inv(s) && Enabled(s, a) && r in s.reqs && s.reqs[r].m.state == Cancelled
    ensures r in Apply(s, a).reqs && Apply(s, a).reqs[r].m.state == Cancelled
  {
    hide Apply;
    StepCancelled(s, a, r);
  }

  // ---------------------------------------------------------------------
  // Every request finishes, but for one case
  // ---------------------------------------------------------------------

  /** No attempt is under way, no task is mapped, no finish is queued, and yet
      the request has not begun to finish: nothing in the system will ever call
      its handlers. */
  predicate Stranded(s: Sys, r: RequestId)
    requires r in s.reqs
  {
    !s.reqs[r].log.began && Chains(s.reqs[r]) == 0 && !Mapped(s, r) && s.reqs[r].queue[CallFinish] == 0
  }

  /** A request that waits to finish always has a step, a task or a finish call
      that will bring it there, unless its retry was dropped: exactly then it is
      stranded. */
  lemma StrandedMeansDropped(ss: seq<Sys>, acts: seq<Action>, i: nat, r: RequestId)
    requires IsRun(ss, acts) && i < |ss| && r in ss[i].reqs
    ensures Stranded(ss[i], r) <==> ss[i].reqs[r].log.dropped
    ensures Stranded(ss[i], r) ==> ss[i].reqs[r].m.state == Cancelled && ss[i].reqs[r].log.called == []
  {
    hide Apply, TablesOk, TasksOk;
    InvAt(ss, acts, i);
    assert RequestOk(ss[i].reqs[r], Mapped(ss[i], r));
  }

  /** retryRequest meets a cancelled request whose handlers wait, and for which
      no finish is queued: cancel had left the finish to the task, and the task
      has left it to the retrier. */
  predicate DropsRetry(s: Sys, a: Action, r: RequestId)
    requires r in s.reqs
  {
    a.Run? && a.r == r && a.w == Chain(Retrying) && s.reqs[r].m.state == Cancelled
    && !s.reqs[r].log.began && s.reqs[r].queue[CallFinish] == 0
  }

  lemma StrandsExactly(ss: seq<Sys>, acts: seq<Action>, i: nat, r: RequestId)
    requires IsRun(ss, acts) && i < |acts| && r in ss[i].reqs
    ensures r in ss[i + 1].reqs
    ensures Stranded(ss[i + 1], r) <==> Stranded(ss[i], r) || DropsRetry(ss[i], acts[i], r)
  {
    hide Apply, Inv, Stranded, DropsRetry, Enabled;
    InvAt(ss, acts, i);
    assert StepOf(ss[i], acts[i], ss[i + 1]);
    DropStep(ss[i], acts[i], r);
    StrandedMeansDropped(ss, acts, i, r);
    StrandedMeansDropped(ss, acts, i + 1, r);
  }

  lemma DropStep(s: Sys, a: Action, r: RequestId)
    requires Inv(s) && Enabled(s, a) && r in s.reqs
    ensures r in Apply(s, a).reqs
    ensures Apply(s, a).reqs[r].log.dropped <==> s.reqs[r].log.dropped || DropsRetry(s, a, r)
  {
    hide TasksOk, TablesOk, RequestOk, CompletionArrives, MetricsArrive;
    hide RunLocal, MakeTask, DidCreateTask, UpdateStatesForTask;
    if a.Run? {
      RunDropped(s, a, r);
    } else if a.DidComplete? || a.DidGather? {
      EventDropped(s, a, r);
    } else {
      SettleDropped(s, a, r);
    }
  }

  lemma RunDropped(s: Sys, a: Action, r: RequestId)
    requires Inv(s) && Enabled(s, a) && r in s.reqs && a.Run?
    ensures r in Apply(s, a).reqs
    ensures Apply(s, a).reqs[r].log.dropped <==> s.reqs[r].log.dropped || DropsRetry(s, a, r)
  {
    hide TasksOk, TablesOk, RequestOk, RunLocal;
    assert RequestOk(s.reqs[a.r], Mapped(s, a.r));
    DropLocal(s.reqs[a.r], a.w, a.choice, Mapped(s, a.r));
  }

  lemma EventDropped(s: Sys, a: Action, r: RequestId)
    requires TablesOk(s) && Enabled(s, a) && r in s.reqs && (a.DidComplete? || a.DidGather?)
    ensures r in Apply(s, a).reqs && Apply(s, a).reqs[r].log.dropped == s.reqs[r].log.dropped
  {
    hide TablesOk, CompletionArrives, MetricsArrive, FinishRequest;
    if a.DidComplete? { CompletionIs(s, a.t, a.hasError); } else { MetricsIs(s, a.t, a.hasError); }
    FinishDropped(s.reqs[s.tasks[a.t].owner]);
  }

  lemma FinishDropped(q: Req)
    ensures FinishRequest(q).log.dropped == q.log.dropped
  {
  }

  lemma SettleDropped(s: Sys, a: Action, r: RequestId)
    requires Enabled(s, a) && r in s.reqs && !a.Run? && !a.DidComplete? && !a.DidGather?
    ensures r in Apply(s, a).reqs && Apply(s, a).reqs[r].log.dropped == s.reqs[r].log.dropped
    decreases a.StartIf?
  {
    hide CallEffect, Settle, Dequeued, StartRequest;
    if a.StartIf? {
      StartIs(s, a);
      DequeuedHas(s, a.r);
      if a.immediately { SettleDropped(Dequeued(s, a.r), ResumeCall(a.r), r); }
    } else if IsCall(a) {
      SettleLog(s.reqs[a.r], CallEffect(s, a));
    } else if a.Attach? {
      SettleLog(s.reqs[a.r], AppendEffect(s.reqs[a.r].m, a.handler));
    }
  }

  lemma SettleLog(q: Req, e: Effect)
    ensures Settle(q, e).log.dropped == q.log.dropped
  {
  }

  lemma DropLocal(q: Req, w: Work, c: Choice, mapped: bool)
    requires RequestOk(q, mapped) && w in q.queue
    ensures var drops := w == Chain(Retrying) && q.m.state == Cancelled && !q.log.began && q.queue[CallFinish] == 0;
            RunLocal(q, w, c).log.dropped == (q.log.dropped || drops)
  {
    hide HandlersOk;
    if w == Chain(Retrying) {
      hide FinishRequest;
    } else {
      hide AttemptsOk;
      KeepsDropped(q, w, c);
    }
  }

  lemma KeepsDropped(q: Req, w: Work, c: Choice)
    requires w != Chain(Retrying)
    ensures RunLocal(q, w, c).log.dropped == q.log.dropped
  {
    hide FinishRequest;
    FinishDropped(Without(q, w));
  }

  /** And a stranded request stays so: its handlers are never called. */
  lemma {:induction false} StrandedForever(ss: seq<Sys>, acts: seq<Action>, i: nat, j: nat, r: RequestId)
    requires IsRun(ss, acts) && i <= j < |ss| && r in ss[i].reqs && Stranded(ss[i], r)
    ensures r in ss[j].reqs && Stranded(ss[j], r) && ss[j].reqs[r].log.called == []
    decreases j
  {
    hide Apply, Inv, Stranded, DropsRetry;
    StrandedMeansDropped(ss, acts, i, r);
    if i < j {
      StrandedForever(ss, acts, i, j - 1, r);
      StrandsExactly(ss, acts, j - 1, r);
      StrandedMeansDropped(ss, acts, j, r);
    }
  }

  /** A run so far, with one more step. */
  lemma Extend(ss: seq<Sys>, acts: seq<Action>, a: Action) returns (ss': seq<Sys>, acts': seq<Action>)
    requires IsRun(ss, acts) && Enabled(ss[|ss| - 1], a)
    ensures IsRun(ss', acts') && ss'[|ss'| - 1] == Apply(ss[|ss| - 1], a) && acts' == acts + [a]
  {
    hide Apply, Enabled;
    ss', acts' := ss + [Apply(ss[|ss| - 1], a)], acts + [a];
    forall i | 0 <= i < |acts'| ensures StepOf(ss'[i], acts'[i], ss'[i + 1]) {
      if i < |acts| { assert StepOf(ss[i], acts[i], ss[i + 1]); }
    }
  }

  /** Request 0, with its one handler, has this state and this work to do. */
  ghost predicate Stage(s: Sys, m: MutableState, queue: multiset<Work>, dropped: bool) {
    && 0 in s.reqs && s.reqs[0].m == m && s.reqs[0].queue == queue && s.reqs[0].log == Log([7], false, [], [], dropped)
  }

  /** Its task 0, and whether that is still mapped. */
  ghost predicate TaskStage(s: Sys, state: TaskState, completed: bool, gathered: bool) {
    && 0 in s.tasks && s.tasks[0].state == state && s.tasks[0].completed == completed && s.tasks[0].gathered == gathered
    && if completed && gathered then 0 !in s.table.requestsToTasks
       else && 0 in s.table.tasksToRequests && s.table.tasksToRequests[0] == 0
            && 0 in s.table.taskEvents && s.table.taskEvents[0] == Events(completed, gathered)
  }

  function Waiting(state: State, tasks: seq<TaskId>): MutableState {
    MutableState(state, tasks, [7], [], false, false)
  }

  const NO_CHOICE: Choice := Choice(false, false, false, false, 0)
  const RETRY: Choice := Choice(false, false, false, true, 0)

  lemma FirstSteps(s: Sys)
    requires s == START
    ensures var s1 := Apply(s, Create(0));
            && Enabled(s1, Attach(0, 7))
            && Stage(Apply(s1, Attach(0, 7)), Waiting(Initialized, []), multiset{Chain(Performing), StartIfAsked}, false)
            && Apply(s1, Attach(0, 7)).tasks == map[]
  {
    PostedOne(PostResumeIfStarting);
    assert [] + [7] == [7];
    assert [] + [PostResumeIfStarting] == [PostResumeIfStarting];
  }

  lemma NotStarted(s: Sys)
    requires Stage(s, Waiting(Initialized, []), multiset{Chain(Performing), StartIfAsked}, false) && s.tasks == map[]
    ensures Enabled(s, StartIf(0, false))
    ensures var s' := Apply(s, StartIf(0, false));
            Stage(s', Waiting(Initialized, []), multiset{Chain(Performing)}, false) && s'.tasks == map[]
  {
  }

  lemma ChainStep(s: Sys, a: Phase, b: Phase)
    requires Stage(s, Waiting(Initialized, []), multiset{Chain(a)}, false) && s.tasks == map[]
    requires (a, b) in {(Performing, SettingUp), (SettingUp, Creating), (Creating, Making)}
    ensures Enabled(s, Run(0, Chain(a), NO_CHOICE))
    ensures var s' := Apply(s, Run(0, Chain(a), NO_CHOICE));
            Stage(s', Waiting(Initialized, []), multiset{Chain(b)}, false) && s'.tasks == map[]
  {
  }

  lemma TaskSteps(s: Sys)
    requires Stage(s, Waiting(Initialized, []), multiset{Chain(Making)}, false) && s.tasks == map[]
    ensures Enabled(s, Run(0, Chain(Making), NO_CHOICE))
    ensures var s1 := Apply(s, Run(0, Chain(Making), NO_CHOICE));
            && Enabled(s1, Run(0, AppendTask(0), NO_CHOICE))
            && var s2 := Apply(s1, Run(0, AppendTask(0), NO_CHOICE));
               Stage(s2, Waiting(Initialized, [0]), multiset{UpdateStates(0)}, false) && TaskStage(s2, Paused, false, false)
  {
    assert [] + [0] == [0];
  }

  lemma UpdateStep(s: Sys)
    requires Stage(s, Waiting(Initialized, [0]), multiset{UpdateStates(0)}, false) && TaskStage(s, Paused, false, false)
    ensures Enabled(s, Run(0, UpdateStates(0), NO_CHOICE))
    ensures var s' := Apply(s, Run(0, UpdateStates(0), NO_CHOICE));
            Stage(s', Waiting(Initialized, [0]), multiset{}, false) && TaskStage(s', Paused, false, false)
  {
  }

  lemma CancelStep(s: Sys)
    requires Stage(s, Waiting(Initialized, [0]), multiset{}, false) && TaskStage(s, Paused, false, false)
    ensures Enabled(s, CancelCall(0))
    ensures var s' := Apply(s, CancelCall(0));
            Stage(s', Waiting(Cancelled, [0]), multiset{}, false) && TaskStage(s', Canceling, false, false)
  {
    assert CallEffect(s, CancelCall(0)) == Effect(Waiting(Cancelled, [0]), Some(Canceling), [], []);
  }

  lemma EndSteps(s: Sys)
    requires Stage(s, Waiting(Cancelled, [0]), multiset{}, false) && TaskStage(s, Canceling, false, false)
    ensures Enabled(s, TaskEnds(0))
    ensures var s1 := Apply(s, TaskEnds(0));
            && Enabled(s1, DidGather(0, false))
            && var s2 := Apply(s1, DidGather(0, false));
               Stage(s2, Waiting(Cancelled, [0]), multiset{}, false) && TaskStage(s2, Completed, false, true)
  {
  }

  lemma RetrySteps(s: Sys)
    requires Stage(s, Waiting(Cancelled, [0]), multiset{}, false) && TaskStage(s, Completed, false, true)
    ensures Enabled(s, DidComplete(0, true))
    ensures var s1 := Apply(s, DidComplete(0, true));
            && Enabled(s1, Run(0, Chain(Deciding), RETRY))
            && Stage(s1, Waiting(Cancelled, [0]), multiset{Chain(Deciding)}, false) && !Mapped(s1, 0)
  {
  }

  lemma LastSteps(s: Sys)
    requires Stage(s, Waiting(Cancelled, [0]), multiset{Chain(Deciding)}, false) && !Mapped(s, 0)
    ensures Enabled(s, Run(0, Chain(Deciding), RETRY))
    ensures var s1 := Apply(s, Run(0, Chain(Deciding), RETRY));
            && Enabled(s1, Run(0, Chain(Retrying), NO_CHOICE))
            && var s2 := Apply(s1, Run(0, Chain(Retrying), NO_CHOICE));
               0 in s2.reqs && Stranded(s2, 0) && s2.reqs[0].log.attached == [7]
  {
  }

  /** It does happen. A request is cancelled while its task is live; the task
      completes, the retrier is asked and answers with a retry; and the handler
      is never called. */
  lemma RetryOfCancelledStrands() returns (ss: seq<Sys>, acts: seq<Action>)
    ensures IsRun(ss, acts) && 0 in ss[|ss| - 1].reqs && Stranded(ss[|ss| - 1], 0)
    ensures ss[|ss| - 1].reqs[0].log.attached == [7]
  {
    hide Apply, Enabled, Stage, TaskStage, Stranded;
    assert Enabled(START, Create(0)) by { StartEnabled(); }
    ss, acts := [START], [];
    FirstSteps(START);
    ss, acts := Extend(ss, acts, Create(0));
    ss, acts := Extend(ss, acts, Attach(0, 7));
    NotStarted(ss[|ss| - 1]);
    ss, acts := Extend(ss, acts, StartIf(0, false));
    ChainStep(ss[|ss| - 1], Performing, SettingUp);
    ss, acts := Extend(ss, acts, Run(0, Chain(Performing), NO_CHOICE));
    ChainStep(ss[|ss| - 1], SettingUp, Creating);
    ss, acts := Extend(ss, acts, Run(0, Chain(SettingUp), NO_CHOICE));
    ChainStep(ss[|ss| - 1], Creating, Making);
    ss, acts := Extend(ss, acts, Run(0, Chain(Creating), NO_CHOICE));
    TaskSteps(ss[|ss| - 1]);
    ss, acts := Extend(ss, acts, Run(0, Chain(Making), NO_CHOICE));
    ss, acts := Extend(ss, acts, Run(0, AppendTask(0), NO_CHOICE));
    UpdateStep(ss[|ss| - 1]);
    ss, acts := Extend(ss, acts, Run(0, UpdateStates(0), NO_CHOICE));
    CancelStep(ss[|ss| - 1]);
    ss, acts := Extend(ss, acts, CancelCall(0));
    EndSteps(ss[|ss| - 1]);
    ss, acts := Extend(ss, acts, TaskEnds(0));
    ss, acts := Extend(ss, acts, DidGather(0, false));
    RetrySteps(ss[|ss| - 1]);
    ss, acts := Extend(ss, acts, DidComplete(0, true));
    LastSteps(ss[|ss| - 1]);
    ss, acts := Extend(ss, acts, Run(0, Chain(Deciding), RETRY));
    ss, acts := Extend(ss, acts, Run(0, Chain(Retrying), NO_CHOICE));
  }

  lemma StartEnabled()
    ensures Enabled(START, Create(0))
  {
  }
}
