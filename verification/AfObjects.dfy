/** The objects of AfRequest, AfTaskMap and AfSession follow the transition
    system of AfLifecycle: each of their methods is one of its steps, or
    several in a row. */
module AfObjects {
  import opened Wrappers
  import opened AfTaskMap
  import opened AfRequest
  import opened AfSession
  import opened AfLifecycle
  import opened AfOneRequest
  import opened AfInvariants
  import opened AfRuns

  // ---------------------------------------------------------------------
  // Objects and states
  // ---------------------------------------------------------------------

  /** The objects of a program: its session, its requests, and their tasks. */
  datatype Objects = Objects(
    session: Session,
    requests: map<RequestId, Request>,
    tasks: map<TaskId, URLSessionTask>)
  {
    /** Requests are different objects, and so are tasks. */
    ghost predicate Apart() {
      && (forall p, r | p in requests && r in requests && p != r :: requests[p] != requests[r])
      && (forall t | t in tasks :: tasks[t].id == t)
    }

    ghost predicate Known(ks: seq<URLSessionTask>) {
      forall k | k in ks :: k.id in tasks && tasks[k.id] == k
    }

    /** The fields of a request are those of `q`. */
    ghost predicate ShowsRequest(r: RequestId, q: Req)
      requires r in requests
      reads requests[r]
    {
      requests[r].Value() == q.m && Known(requests[r].tasks)
    }

    ghost predicate ShowsRequests(reqs: map<RequestId, Req>)
      reads requests.Values
    {
      requests.Keys == reqs.Keys && forall r | r in requests :: ShowsRequest(r, reqs[r])
    }

    ghost predicate ShowsTasks(ts: map<TaskId, Task>)
      reads tasks.Values
    {
      tasks.Keys == ts.Keys && forall t | t in tasks :: tasks[t].state == ts[t].state
    }

    ghost predicate ShowsSession(table: Table, waiting: map<TaskId, RequestId>)
      reads session, session.requestTaskMap
    {
      session.requestTaskMap.Value() == table && session.waitingCompletions == waiting
    }

    /** The fields of the objects are those of the system state `s`. */
    ghost predicate Shows(s: Sys)
      reads session, session.requestTaskMap, requests.Values, tasks.Values
    {
      Apart() && ShowsRequests(s.reqs) && ShowsTasks(s.tasks) && ShowsSession(s.table, s.waiting)
    }
  }

  lemma RequestShown(o: Objects, s: Sys, r: RequestId)
    requires o.Shows(s) && r in s.reqs
    ensures r in o.requests && o.requests[r].Value() == s.reqs[r].m && o.Known(o.requests[r].tasks)
    ensures o.requests[r].Newest() == Newest(s, s.reqs[r].m) && o.requests[r].state == s.reqs[r].m.state
  {
    assert o.ShowsRequest(r, s.reqs[r]);
    var ks := o.requests[r].tasks;
    if ks != [] {
      assert ks[|ks| - 1] in ks;
      assert s.reqs[r].m.tasks[|ks| - 1] == ks[|ks| - 1].id;
    }
  }

  // ---------------------------------------------------------------------
  // Public calls
  // ---------------------------------------------------------------------

  /** What a public call does to the system, seen from the request. */
  lemma CallApplied(s: Sys, a: Action)
    requires IsCall(a) && Enabled(s, a)
    ensures var q, q', e := s.reqs[a.r], Settle(s.reqs[a.r], CallEffect(s, a)), CallEffect(s, a);
            && q'.m == e.state && q'.queue == q.queue + Posted(e.posts)
            && Apply(s, a).reqs == s.reqs[a.r := q'] && Apply(s, a).table == s.table && Apply(s, a).waiting == s.waiting
            && Apply(s, a).tasks == if Newest(s, q.m).Some? && e.task.Some?
                                    then var t := q.m.tasks[|q.m.tasks| - 1];
                                         s.tasks[t := s.tasks[t].(state := e.task.value)]
                                    else s.tasks
  {
    hide CallEffect;
  }

  predicate IsLast(k: URLSessionTask, ks: seq<URLSessionTask>) {
    ks != [] && k == ks[|ks| - 1]
  }

  /** The tasks after a call that may drive the newest one. */
  lemma TasksDriven(o: Objects, request: Request, ts: map<TaskId, Task>, task: Option<TaskState>)
    requires o.Apart() && o.Known(request.tasks) && o.tasks.Keys == ts.Keys && task == request.Newest()
    requires forall t | t in o.tasks && !IsLast(o.tasks[t], request.tasks) :: o.tasks[t].state == ts[t].state
    ensures o.ShowsTasks(if request.tasks == [] then ts
                         else var t := request.tasks[|request.tasks| - 1].id; ts[t := ts[t].(state := task.value)])
  {
    if request.tasks != [] { assert request.tasks[|request.tasks| - 1] in request.tasks; }
  }

  lemma CallTasksShown(o: Objects, s: Sys, a: Action)
    requires IsCall(a) && Enabled(s, a) && o.Apart() && a.r in o.requests && o.tasks.Keys == s.tasks.Keys
    requires o.Known(o.requests[a.r].tasks) && o.requests[a.r].Value().tasks == s.reqs[a.r].m.tasks
    requires forall t | t in o.tasks && !IsLast(o.tasks[t], o.requests[a.r].tasks) :: o.tasks[t].state == s.tasks[t].state
    requires CallEffect(s, a).task == o.requests[a.r].Newest()
    ensures o.ShowsTasks(Apply(s, a).tasks)
  {
    hide CallEffect, Apply, Posted, Settle, Objects.ShowsTasks;
    var ks, q := o.requests[a.r].tasks, s.reqs[a.r];
    CallApplied(s, a);
    TasksDriven(o, o.requests[a.r], s.tasks, CallEffect(s, a).task);
    if ks != [] {
      assert ks[|ks| - 1] in ks;
      assert q.m.tasks[|ks| - 1] == ks[|ks| - 1].id;
    }
  }

  lemma CallShown(o: Objects, s: Sys, a: Action, posts: seq<Post>)
    requires IsCall(a) && Enabled(s, a) && o.Apart() && o.requests.Keys == s.reqs.Keys && o.tasks.Keys == s.tasks.Keys
    requires forall p | p in o.requests && p != a.r :: o.ShowsRequest(p, s.reqs[p])
    requires o.Known(o.requests[a.r].tasks)
    requires forall t | t in o.tasks && !IsLast(o.tasks[t], o.requests[a.r].tasks) :: o.tasks[t].state == s.tasks[t].state
    requires o.ShowsSession(s.table, s.waiting)
    requires CallEffect(s, a) == Effect(o.requests[a.r].Value(), o.requests[a.r].Newest(), posts, [])
    ensures o.Shows(Apply(s, a))
    ensures Apply(s, a).reqs[a.r].queue == s.reqs[a.r].queue + Posted(posts)
  {
    hide Apply, Posted, Settle, Objects.ShowsTasks, Objects.ShowsSession, Request.Newest, Newest;
    hide CancelEffect, SuspendEffect, ResumeEffect;
    CallApplied(s, a);
    PublicCallsObeyed(s.reqs[a.r].m, Newest(s, s.reqs[a.r].m), CallEffect(s, a));
    CallTasksShown(o, s, a);
  }

  /** cancel, suspend and resume are the steps of these names. */
  method Call(o: Objects, a: Action, ghost s: Sys) returns (posts: seq<Post>)
    requires o.Shows(s) && IsCall(a) && Enabled(s, a)
    modifies o.requests[a.r], o.requests[a.r].tasks
    ensures o.Shows(Apply(s, a))
    ensures Apply(s, a).reqs[a.r].queue == s.reqs[a.r].queue + Posted(posts)
  {
    hide Apply, CancelEffect, SuspendEffect, ResumeEffect, Posted, Newest;
    hide Objects.ShowsRequest, Objects.ShowsSession, Objects.Known, Request.Value, Request.Newest;
    var request := o.requests[a.r];
    RequestShown(o, s, a.r);
    if a.CancelCall? {
      posts := request.Cancel();
    } else if a.SuspendCall? {
      posts := request.Suspend();
    } else {
      posts := request.Resume();
    }
    forall t | t in o.tasks && !IsLast(o.tasks[t], request.tasks) ensures o.tasks[t].state == s.tasks[t].state {
      assert o.tasks[t] in request.tasks || o.tasks[t] !in old(request.tasks);
    }
    CallShown(o, s, a, posts);
  }

  /** The block that appendResponseSerializer posts. */
  method StartIfStarting(o: Objects, a: Action, ghost s: Sys) returns (posts: seq<Post>)
    requires o.Shows(s) && a.StartIf? && Enabled(s, a)
    modifies o.requests[a.r], o.requests[a.r].tasks
    ensures o.Shows(Apply(s, a))
    ensures Apply(s, a).reqs[a.r].queue + multiset{StartIfAsked} == s.reqs[a.r].queue + Posted(posts)
  {
    hide Apply, Dequeued, Objects.ShowsSession, Objects.ShowsTasks, Posted;
    posts := [];
    StartIs(s, a);
    DequeuedShown(o, s, a.r);
    if a.immediately {
      posts := Call(o, ResumeCall(a.r), Dequeued(s, a.r));
    } else {
      PostedOne(PostFinish);
    }
  }

  lemma DequeuedShown(o: Objects, s: Sys, r: RequestId)
    requires o.Shows(s) && r in s.reqs && StartIfAsked in s.reqs[r].queue
    ensures o.Shows(Dequeued(s, r)) && r in Dequeued(s, r).reqs
    ensures Dequeued(s, r).reqs[r].queue + multiset{StartIfAsked} == s.reqs[r].queue
  {
    assert o.ShowsRequest(r, s.reqs[r]);
    assert o.ShowsRequest(r, Without(s.reqs[r], StartIfAsked));
  }

  // ---------------------------------------------------------------------
  // Steps of one request
  // ---------------------------------------------------------------------

  /** Only request `r` has changed. */
  lemma OneShown(o: Objects, s: Sys, s': Sys, r: RequestId)
    requires o.Apart() && o.requests.Keys == s.reqs.Keys && r in o.requests && r in s'.reqs
    requires forall p | p in o.requests && p != r :: o.ShowsRequest(p, s.reqs[p])
    requires o.ShowsTasks(s.tasks) && o.ShowsSession(s.table, s.waiting)
    requires s'.reqs == s.reqs[r := s'.reqs[r]] && s'.tasks == s.tasks && s'.table == s.table && s'.waiting == s.waiting
    requires o.requests[r].Value() == s'.reqs[r].m && o.Known(o.requests[r].tasks)
    ensures o.Shows(s')
  {
    hide Objects.ShowsTasks, Objects.ShowsSession, Objects.Known, Request.Value;
  }

  /** appendResponseSerializer is the step Attach. */
  method Append(o: Objects, a: Action, ghost s: Sys) returns (posts: seq<Post>)
    requires o.Shows(s) && a.Attach? && Enabled(s, a)
    modifies o.requests[a.r]
    ensures o.Shows(Apply(s, a))
    ensures Apply(s, a).reqs[a.r].queue == s.reqs[a.r].queue + Posted(posts)
  {
    hide Posted, AppendEffect;
    hide Objects.ShowsRequest, Objects.ShowsSession, Objects.ShowsTasks, Objects.Known, Request.Value, Request.Newest;
    RequestShown(o, s, a.r);
    posts := o.requests[a.r].AppendResponseSerializer(a.handler);
    OneShown(o, s, Apply(s, a), a.r);
  }

  /** The locked block of a queued step. */
  function LocalEffect(m: MutableState, w: Work, c: Choice): Effect {
    match w
    case CallFinish => FinishEffect(m)
    case Serialized(h) => DidCompleteEffect(m, h)
    case Chain(Failing) => if c.hasError then Effect(m, None, [], []) else FinishEffect(m)
    case Chain(Deciding) => if c.retry then Effect(m, None, [], []) else FinishEffect(m)
    case Chain(Retrying) => Effect(if m.state == Cancelled then m else Reset(m), None, [], [])
    case _ => Effect(m, None, [], [])
  }

  /** Work that locked blocks post. */
  predicate IsPosted(w: Work) {
    w.CallFinish? || w.Serialize? || w.StartIfAsked?
  }

  /** From `q` to `q'`, without the step `w`, a locked block has had the effect
      `e`: its state, the completions called, and just the blocks posted. */
  ghost predicate Took(q: Req, q': Req, w: Option<Work>, e: Effect) {
    && q'.m == e.state && q'.log.called == q.log.called + e.called
    && forall p: Work | IsPosted(p) ::
         q'.queue[p] + (if w == Some(p) then 1 else 0) == q.queue[p] + Posted(e.posts)[p]
  }

  lemma FinishTook(q: Req, w: Work)
    requires w in q.queue
    ensures Took(q, FinishRequest(Without(q, w)), Some(w), FinishEffect(q.m))
  {
    hide FinishEffect, Posted;
  }

  lemma SerializedTook(q: Req, h: nat)
    requires Serialized(h) in q.queue
    ensures Took(q, Settle(Without(q, Serialized(h)), DidCompleteEffect(q.m, h)), Some(Serialized(h)), DidCompleteEffect(q.m, h))
  {
    hide DidCompleteEffect, Posted;
  }

  /** Nothing to be seen has happened but that `w` is gone. */
  ghost predicate Quiet(q: Req, q': Req, w: Work) {
    && q'.log.called == q.log.called
    && forall p: Work | IsPosted(p) :: q'.queue[p] + (if p == w then 1 else 0) == q.queue[p]
  }

  lemma QuietTook(q: Req, q': Req, w: Work)
    requires Quiet(q, q', w)
    ensures Took(q, q', Some(w), Effect(q'.m, None, [], []))
  {
    assert q.log.called + [] == q.log.called;
  }

  lemma QuietMove(q: Req, w: Work, next: Work)
    requires w in q.queue && !IsPosted(next)
    ensures Quiet(q, Move(q, w, next), w)
    ensures Quiet(q, Without(q, w), w)
    ensures w == Chain(Retrying) ==> Quiet(q, DropRetry(q), w)
  {
  }

  lemma QuietSame(q: Req, q1: Req, q': Req, w: Work)
    requires Quiet(q1, q', w) && q1.queue == q.queue && q1.log.called == q.log.called
    ensures Quiet(q, q', w)
  {
  }

  lemma QuietSerialize(q: Req, h: nat, c: Choice)
    requires Serialize(h) in q.queue
    ensures Quiet(q, RunLocal(q, Serialize(h), c), Serialize(h)) && RunLocal(q, Serialize(h), c).m == q.m
  {
    hide Quiet;
    var q1 := q.(log := q.log.(ran := q.log.ran + [h]));
    QuietMove(q1, Serialize(h), Serialized(h));
    QuietSame(q, q1, Move(q1, Serialize(h), Serialized(h)), Serialize(h));
  }

  lemma QuietRetry(q: Req)
    requires Chain(Retrying) in q.queue
    ensures Quiet(q, DropRetry(q), Chain(Retrying)) && DropRetry(q).m == q.m
    ensures var q' := Move(q.(m := Reset(q.m)), Chain(Retrying), Chain(Performing));
            Quiet(q, q', Chain(Retrying)) && q'.m == Reset(q.m)
  {
    hide Quiet;
    var q1 := q.(m := Reset(q.m));
    QuietMove(q, Chain(Retrying), Chain(Performing));
    QuietMove(q1, Chain(Retrying), Chain(Performing));
    QuietSame(q, q1, Move(q1, Chain(Retrying), Chain(Performing)), Chain(Retrying));
  }

  lemma QuietGoing(q: Req, w: Work, next: Option<Phase>)
    requires w in q.queue
    ensures Quiet(q, Going(q, w, next), w) && Going(q, w, next).m == q.m
  {
    hide Quiet;
    QuietMove(q, w, if next.Some? then Chain(next.value) else Chain(Failing));
  }

  lemma QuietLocal(q: Req, w: Work, c: Choice)
    requires w in q.queue && w != Chain(Making) && !w.AppendTask? && !w.UpdateStates? && w != StartIfAsked
    requires !Finishes(w, c) && !w.Serialize? && !w.Serialized?
    ensures Quiet(q, RunLocal(q, w, c), w) && RunLocal(q, w, c).m == LocalEffect(q.m, w, c).state
  {
    hide RunLocal, DropRetry, Quiet, Going, NextPhase, Move, Reset;
    if w == Chain(Retrying) {
      RetryingIs(q, c);
      QuietRetry(q);
    } else {
      GoingIs(q, w.phase, c);
      QuietGoing(q, w, NextPhase(q, w.phase, c));
    }
  }

  lemma TookState(q: Req, q': Req, w: Option<Work>, e: Effect)
    ensures Took(q, q', w, e) ==> q'.m == e.state
  {
  }

  lemma LocalApplied(q: Req, w: Work, c: Choice)
    requires w in q.queue && w != Chain(Making) && !w.AppendTask? && !w.UpdateStates? && w != StartIfAsked
    ensures Took(q, RunLocal(q, w, c), Some(w), LocalEffect(q.m, w, c))
    ensures RunLocal(q, w, c).m == LocalEffect(q.m, w, c).state
  {
    hide FinishEffect, DidCompleteEffect, FinishRequest, Took, Quiet;
    TookState(q, RunLocal(q, w, c), Some(w), LocalEffect(q.m, w, c));
    if w.Serialized? {
      SerializedTook(q, w.handler);
    } else if Finishes(w, c) {
      FinishTook(q, w);
      FinishingIs(q, w, c);
    } else {
      hide RunLocal;
      if w.Serialize? { QuietSerialize(q, w.handler, c); } else { QuietLocal(q, w, c); }
      QuietTook(q, RunLocal(q, w, c), w);
    }
  }

  lemma RunApplied(s: Sys, a: Action)
    requires a.Run? && Enabled(s, a) && a.w != Chain(Making) && !a.w.AppendTask? && !a.w.UpdateStates?
    ensures Apply(s, a) == s.(reqs := s.reqs[a.r := RunLocal(s.reqs[a.r], a.w, a.choice)])
  {
    hide RunLocal;
  }

  /** The object's part in a queued step. */
  method RunBlock(request: Request, w: Work, c: Choice) returns (posts: seq<Post>, called: seq<nat>)
    modifies request
    ensures Effect(request.Value(), None, posts, called) == LocalEffect(old(request.Value()), w, c)
    ensures request.tasks == old(request.tasks)
  {
    hide FinishEffect, DidCompleteEffect;
    posts, called := [], [];
    match w {
      case CallFinish => posts, called := request.Finish();
      case Serialized(h) => posts, called := request.ResponseSerializerDidComplete(h);
      case Chain(Failing) => if !c.hasError { posts, called := request.Finish(); }
      case Chain(Deciding) => if !c.retry { posts, called := request.Finish(); }
      case Chain(Retrying) => if request.state != Cancelled { request.ResetForRetry(); }
      case _ =>
    }
  }

  /** The queued steps but for those that touch tasks: the object takes the step,
      calls just the completions, and posts just the blocks, that the transition
      calls and posts. */
  method RunQueued(o: Objects, a: Action, ghost s: Sys) returns (posts: seq<Post>, called: seq<nat>)
    requires o.Shows(s) && a.Run? && Enabled(s, a) && a.w != Chain(Making) && !a.w.AppendTask? && !a.w.UpdateStates?
    modifies o.requests[a.r]
    ensures o.Shows(Apply(s, a))
    ensures Took(s.reqs[a.r], Apply(s, a).reqs[a.r], Some(a.w), Effect(o.requests[a.r].Value(), None, posts, called))
  {
    hide RunLocal, Apply, LocalEffect, Took, Newest;
    hide Objects.ShowsRequest, Objects.ShowsSession, Objects.ShowsTasks, Objects.Known, Request.Newest, Request.Value;
    RequestShown(o, s, a.r);
    RunApplied(s, a);
    LocalApplied(s.reqs[a.r], a.w, a.choice);
    posts, called := RunBlock(o.requests[a.r], a.w, a.choice);
    OneShown(o, s, Apply(s, a), a.r);
  }

  // ---------------------------------------------------------------------
  // Tasks
  // ---------------------------------------------------------------------

  /** A step that leaves the state of request `r` alone. */
  lemma SameRequests(o: Objects, reqs: map<RequestId, Req>, r: RequestId, q: Req)
    requires o.ShowsRequests(reqs) && r in reqs && q.m == reqs[r].m
    ensures o.ShowsRequests(reqs[r := q])
  {
    assert o.ShowsRequest(r, reqs[r]);
  }

  /** A new object. */
  lemma MoreTasks(o: Objects, reqs: map<RequestId, Req>, t: TaskId, k: URLSessionTask)
    requires o.ShowsRequests(reqs) && t !in o.tasks
    ensures o.(tasks := o.tasks[t := k]).ShowsRequests(reqs)
  {
    var o' := o.(tasks := o.tasks[t := k]);
    forall r | r in o'.requests ensures o'.ShowsRequest(r, reqs[r]) { assert o.ShowsRequest(r, reqs[r]); }
  }

  /** Request.init */
  method Add(o: Objects, a: Action, ghost s: Sys) returns (o': Objects)
    requires o.Shows(s) && a.Create? && Enabled(s, a)
    ensures o'.Shows(Apply(s, a))
    ensures o' == o.(requests := o'.requests) && fresh(o'.requests.Values - o.requests.Values)
  {
    hide Objects.ShowsRequests, Request.Value;
    RequestsKeys(o, s.reqs);
    var request := new Request();
    AddShown(o, s.reqs, a.r, request);
    o' := o.(requests := o.requests[a.r := request]);
  }

  lemma RequestsKeys(o: Objects, reqs: map<RequestId, Req>)
    requires o.ShowsRequests(reqs)
    ensures o.requests.Keys == reqs.Keys
  {
  }

  lemma AddShown(o: Objects, reqs: map<RequestId, Req>, r: RequestId, request: Request)
    requires o.ShowsRequests(reqs) && r !in o.requests && request.Value() == NEW_STATE
    ensures o.(requests := o.requests[r := request]).ShowsRequests(reqs[r := NEW_REQUEST])
  {
    var o' := o.(requests := o.requests[r := request]);
    assert request.tasks == [] by { assert |request.Value().tasks| == 0; }
    forall p | p in o'.requests ensures o'.ShowsRequest(p, reqs[r := NEW_REQUEST][p]) {
      if p != r { assert o.ShowsRequest(p, reqs[p]); }
    }
  }

  lemma TasksKeys(o: Objects, s: Sys)
    requires o.ShowsTasks(s.tasks)
    ensures o.tasks.Keys == s.tasks.Keys
  {
  }

  lemma StartedTasks(o: Objects, s: Sys, s': Sys, k: URLSessionTask)
    requires o.ShowsTasks(s.tasks) && k.id !in o.tasks
    requires k.id in s'.tasks && s'.tasks == s.tasks[k.id := s'.tasks[k.id]] && k.state == s'.tasks[k.id].state
    ensures o.(tasks := o.tasks[k.id := k]).ShowsTasks(s'.tasks)
  {
  }

  lemma MakeApplied(s: Sys, a: Action)
    requires a.Run? && a.w == Chain(Making) && Enabled(s, a)
    ensures var s', t := Apply(s, a), a.choice.newTask;
            && s'.reqs == s.reqs[a.r := Move(s.reqs[a.r], a.w, AppendTask(t))]
            && s'.tasks == s.tasks[t := Task(a.r, Paused, false, false, false, 0)]
            && s'.table == s.table.Assign(a.r, t) && s'.waiting == s.waiting
  {
  }

  /** didCreateURLRequest up to the assignment to the task map. */
  method Make(o: Objects, a: Action, ghost s: Sys) returns (o': Objects)
    requires o.Shows(s) && a.Run? && a.w == Chain(Making) && Enabled(s, a)
    modifies o.session.requestTaskMap
    ensures o'.Shows(Apply(s, a))
    ensures o' == o.(tasks := o'.tasks) && fresh(o'.tasks.Values - o.tasks.Values)
  {
    hide Apply, Objects.ShowsRequests, Objects.ShowsTasks;
    TasksKeys(o, s);
    var task := new URLSessionTask(a.choice.newTask);
    var _ := o.session.requestTaskMap.SetTask(a.r, Some(task.id));
    o' := o.(tasks := o.tasks[task.id := task]);
    MakeApplied(s, a);
    SameRequests(o, s.reqs, a.r, Move(s.reqs[a.r], a.w, AppendTask(task.id)));
    MoreTasks(o, Apply(s, a).reqs, task.id, task);
    StartedTasks(o, s, Apply(s, a), task);
  }

  lemma EnterApplied(s: Sys, a: Action)
    requires a.Run? && a.w.AppendTask? && Enabled(s, a) && a.w.task in s.tasks
    ensures var s', q, t := Apply(s, a), s.reqs[a.r], a.w.task;
            && s'.reqs == s.reqs[a.r := Move(q.(m := q.m.(tasks := q.m.tasks + [t])), a.w, UpdateStates(t))]
            && s'.tasks == s.tasks[t := s.tasks[t].(updated := false)]
            && s'.table == s.table && s'.waiting == s.waiting
  {
  }

  /** didCreateTask */
  method Enter(o: Objects, a: Action, ghost s: Sys)
    requires o.Shows(s) && a.Run? && a.w.AppendTask? && Enabled(s, a) && a.w.task in s.tasks
    modifies o.requests[a.r]
    ensures o.Shows(Apply(s, a))
  {
    hide Apply, Objects.ShowsRequest, Objects.ShowsSession, Newest, Request.Newest, Request.Value, Objects.Known;
    var task := o.tasks[a.w.task];
    RequestShown(o, s, a.r);
    o.requests[a.r].DidCreateTask(task);
    EnterApplied(s, a);
    KnownMore(o, old(o.requests[a.r].tasks), task);
    EnterShown(o, s, a);
  }

  lemma KnownMore(o: Objects, ks: seq<URLSessionTask>, k: URLSessionTask)
    requires o.Known(ks) && k.id in o.tasks && o.tasks[k.id] == k
    ensures o.Known(ks + [k])
  {
  }

  lemma EnterShown(o: Objects, s: Sys, a: Action)
    requires a.Run? && a.w.AppendTask? && Enabled(s, a) && a.w.task in s.tasks
    requires o.Apart() && o.requests.Keys == s.reqs.Keys && o.ShowsTasks(s.tasks) && o.ShowsSession(s.table, s.waiting)
    requires forall p | p in o.requests && p != a.r :: o.ShowsRequest(p, s.reqs[p])
    requires o.Known(o.requests[a.r].tasks)
    requires o.requests[a.r].Value() == s.reqs[a.r].m.(tasks := s.reqs[a.r].m.tasks + [a.w.task])
    ensures o.Shows(Apply(s, a))
  {
    hide Apply, Request.Value, Objects.Known, Objects.ShowsSession, Objects.Apart;
    EnterApplied(s, a);
  }

  lemma UpdateApplied(s: Sys, a: Action)
    requires a.Run? && a.w.UpdateStates? && Enabled(s, a) && a.w.task in s.tasks
    ensures var s', q, t := Apply(s, a), s.reqs[a.r], a.w.task;
            && s'.reqs == s.reqs[a.r := Without(q, a.w)]
            && s'.tasks == s.tasks[t := s.tasks[t].(state := UpdateTask(q.m.state, s.tasks[t].state), updated := true)]
            && s'.table == s.table && s'.waiting == s.waiting
  {
    hide UpdateTask;
  }

  /** updateStatesForTask */
  method Update(o: Objects, a: Action, ghost s: Sys)
    requires o.Shows(s) && a.Run? && a.w.UpdateStates? && Enabled(s, a) && a.w.task in s.tasks
    modifies o.tasks[a.w.task]
    ensures o.Shows(Apply(s, a))
  {
    hide Apply, UpdateTask, Obeys, Objects.ShowsSession, Objects.ShowsRequests;
    RequestShown(o, s, a.r);
    o.session.UpdateStatesForTask(o.tasks[a.w.task], o.requests[a.r]);
    UpdateApplied(s, a);
    SameRequests(o, s.reqs, a.r, Without(s.reqs[a.r], a.w));
  }

  /** URLSession ends a task. */
  method End(o: Objects, a: Action, ghost s: Sys)
    requires o.Shows(s) && a.TaskEnds? && Enabled(s, a)
    modifies o.tasks[a.t]
    ensures o.Shows(Apply(s, a))
  {
    hide Objects.ShowsSession, Objects.ShowsRequests;
    o.tasks[a.t].state := Completed;
  }

  /** didCreateURLRequest: its guard, and then the task map, the request and the
      new task. */
  function Created(s: Sys, r: RequestId, t: TaskId): Sys
    requires r in s.reqs
  {
    if IsCancelled(s.reqs[r]) then s.(reqs := s.reqs[r := Without(s.reqs[r], Chain(Creating))])
    else UpdateStatesForTask(DidCreateTask(MakeTask(Guarded(s, r), r, t), r, t), r, t)
  }

  function Guarded(s: Sys, r: RequestId): Sys
    requires r in s.reqs
  {
    s.(reqs := s.reqs[r := Move(s.reqs[r], Chain(Creating), Chain(Making))])
  }

  lemma GuardStep(s: Sys, r: RequestId, c: Choice)
    requires Enabled(s, Run(r, Chain(Creating), c))
    ensures Apply(s, Run(r, Chain(Creating), c)) ==
            if IsCancelled(s.reqs[r]) then s.(reqs := s.reqs[r := Without(s.reqs[r], Chain(Creating))]) else Guarded(s, r)
    ensures Chain(Making) in Guarded(s, r).reqs[r].queue
  {
  }

  lemma MakeStep(s: Sys, r: RequestId, c: Choice)
    requires r in s.reqs && Chain(Making) in s.reqs[r].queue && c.newTask !in s.tasks
    ensures Enabled(s, Run(r, Chain(Making), c)) && Apply(s, Run(r, Chain(Making), c)) == MakeTask(s, r, c.newTask)
    ensures AppendTask(c.newTask) in MakeTask(s, r, c.newTask).reqs[r].queue
  {
  }

  lemma EnterStep(s: Sys, r: RequestId, t: TaskId, c: Choice)
    requires r in s.reqs && AppendTask(t) in s.reqs[r].queue && t in s.tasks
    ensures Enabled(s, Run(r, AppendTask(t), c)) && Apply(s, Run(r, AppendTask(t), c)) == DidCreateTask(s, r, t)
    ensures UpdateStates(t) in DidCreateTask(s, r, t).reqs[r].queue
  {
  }

  lemma UpdateStep(s: Sys, r: RequestId, t: TaskId, c: Choice)
    requires r in s.reqs && UpdateStates(t) in s.reqs[r].queue && t in s.tasks
    ensures Enabled(s, Run(r, UpdateStates(t), c)) && Apply(s, Run(r, UpdateStates(t), c)) == UpdateStatesForTask(s, r, t)
  {
  }

  /** These are one step of the system, or four in a row. */
  lemma CreatedSteps(s: Sys, r: RequestId, c: Choice)
    requires Enabled(s, Run(r, Chain(Creating), c)) && c.newTask !in s.tasks
    ensures var t, s1 := c.newTask, Apply(s, Run(r, Chain(Creating), c));
            if IsCancelled(s.reqs[r]) then s1 == Created(s, r, t)
            else
              Enabled(s1, Run(r, Chain(Making), c)) &&
              var s2 := Apply(s1, Run(r, Chain(Making), c));
              Enabled(s2, Run(r, AppendTask(t), c)) &&
              var s3 := Apply(s2, Run(r, AppendTask(t), c));
              Enabled(s3, Run(r, UpdateStates(t), c)) && Apply(s3, Run(r, UpdateStates(t), c)) == Created(s, r, t)
  {
    assert r in s.reqs;
    GuardStep(s, r, c);
    if !IsCancelled(s.reqs[r]) {
      hide Apply, Enabled, Move, UpdateTask;
      var t := c.newTask;
      MakeStep(Guarded(s, r), r, c);
      EnterStep(MakeTask(Guarded(s, r), r, t), r, t, c);
      UpdateStep(DidCreateTask(MakeTask(Guarded(s, r), r, t), r, t), r, t, c);
    }
  }

  lemma CreatedIs(s: Sys, r: RequestId, t: TaskId)
    requires r in s.reqs && t !in s.tasks
    ensures var s', m := Created(s, r, t), s.reqs[r].m;
            && r in s'.reqs && s'.reqs == s.reqs[r := s'.reqs[r]] && s'.waiting == s.waiting
            && if m.state == Cancelled then s'.reqs[r].m == m && s'.tasks == s.tasks && s'.table == s.table
               else && s'.reqs[r].m == m.(tasks := m.tasks + [t]) && s'.table == s.table.Assign(r, t)
                    && t in s'.tasks && s'.tasks == s.tasks[t := s'.tasks[t]] && s'.tasks[t].state == UpdateTask(m.state, Paused)
  {
    hide UpdateTask, Table.Assign;
  }

  lemma StartShown(o: Objects, reqs: map<RequestId, Req>, r: RequestId, q: Req, ks: seq<URLSessionTask>, k: URLSessionTask)
    requires o.Apart() && o.requests.Keys == reqs.Keys && r in reqs && k.id !in o.tasks
    requires forall p | p in o.requests && p != r :: o.ShowsRequest(p, reqs[p])
    requires o.requests[r].Value() == q.m && o.requests[r].tasks == ks + [k] && o.Known(ks)
    ensures var o' := o.(tasks := o.tasks[k.id := k]); o'.Apart() && o'.ShowsRequests(reqs[r := q])
  {
    var o' := o.(tasks := o.tasks[k.id := k]);
    forall p | p in o'.requests ensures o'.ShowsRequest(p, reqs[r := q][p]) {
      if p != r { assert o.ShowsRequest(p, reqs[p]); }
    }
  }

  /** didCreateURLRequest of the session. */
  method Start(o: Objects, r: RequestId, t: TaskId, ghost s: Sys) returns (o': Objects)
    requires o.Shows(s) && r in s.reqs && t !in s.tasks
    modifies o.session.requestTaskMap, o.requests[r]
    ensures o'.Shows(Created(s, r, t))
  {
    hide Created, UpdateTask, Obeys, Newest;
    hide Objects.ShowsRequest, Objects.ShowsTasks, Request.Value, Request.Newest, Objects.Known;
    ghost var s', ks := Created(s, r, t), o.requests[r].tasks;
    CreatedIs(s, r, t);
    RequestShown(o, s, r);
    TasksKeys(o, s);
    var task := new URLSessionTask(t);
    var created := o.session.DidCreateURLRequest(o.requests[r], r, task);
    if created {
      o' := o.(tasks := o.tasks[t := task]);
      StartShown(o, s.reqs, r, s'.reqs[r], ks, task);
      StartedTasks(o, s, s', task);
    } else {
      o' := o;
      OneShown(o, s, s', r);
    }
  }

  // ---------------------------------------------------------------------
  // Events
  // ---------------------------------------------------------------------

  /** What a completion closure does to its request. */
  function ClosureEffect(m: MutableState, hasError: bool): Effect {
    if hasError then Effect(m, None, [], []) else FinishEffect(m)
  }

  lemma ClosureTook(q: Req, hasError: bool)
    ensures Took(q, RetryOrFinish(q, hasError), None, ClosureEffect(q.m, hasError))
    ensures RetryOrFinish(q, hasError).m == ClosureEffect(q.m, hasError).state
  {
    hide FinishEffect, Posted;
    assert q.log.called + [] == q.log.called;
    PostedOne(PostFinish);
  }

  /** What an event does: `second` is whether it is the second one of its task. */
  ghost predicate Event(s: Sys, s': Sys, t: TaskId, second: bool, hasError: bool)
    requires t in s.tasks && s.tasks[t].owner in s.reqs
  {
    var r := s.tasks[t].owner;
    && s'.reqs == (if second then s.reqs[r := RetryOrFinish(s.reqs[r], hasError)] else s.reqs)
    && t in s'.tasks && s'.tasks == s.tasks[t := s'.tasks[t]] && s'.tasks[t].state == s.tasks[t].state
  }

  lemma MetricsApplied(s: Sys, a: Action)
    requires TablesOk(s) && a.DidGather? && Enabled(s, a)
    ensures a.t in s.tasks && s.tasks[a.t].owner in s.reqs
    ensures var s', second := Apply(s, a), s.tasks[a.t].completed;
            && Event(s, s', a.t, second, a.hasError)
            && s.table.AfterMetrics(a.t) == Some((s'.table, second))
            && s'.waiting == (if second then s.waiting - {a.t} else s.waiting)
            && (second ==> a.t in s.waiting && s.waiting[a.t] == s.tasks[a.t].owner)
  {
    hide RetryOrFinish;
    assert TaskOk(s, a.t);
    MetricsIs(s, a.t, a.hasError);
  }

  lemma CompletionApplied(s: Sys, a: Action)
    requires TablesOk(s) && a.DidComplete? && Enabled(s, a)
    ensures a.t in s.tasks && s.tasks[a.t].owner in s.reqs
    ensures var s', r, second := Apply(s, a), s.tasks[a.t].owner, s.tasks[a.t].gathered;
            && Event(s, s', a.t, second, a.hasError)
            && s.table.AfterCompletion(a.t) == Some((s'.table, second))
            && s'.waiting == (if second then s.waiting else s.waiting[a.t := r])
            && a.t in s.table.tasksToRequests && s.table.tasksToRequests[a.t] == r
  {
    hide RetryOrFinish;
    assert TaskOk(s, a.t);
    CompletionIs(s, a.t, a.hasError);
    assert s.waiting - {a.t} == s.waiting;
  }

  /** The session has taken the event, and the request the completion closure. */
  lemma EventShown(o: Objects, s: Sys, s': Sys, t: TaskId, second: bool, hasError: bool)
    requires t in s.tasks && s.tasks[t].owner in s.reqs && Event(s, s', t, second, hasError)
    requires o.Apart() && o.requests.Keys == s.reqs.Keys && o.ShowsTasks(s.tasks) && o.ShowsSession(s'.table, s'.waiting)
    requires !second ==> o.ShowsRequests(s.reqs)
    requires second ==> forall p | p in o.requests && p != s.tasks[t].owner :: o.ShowsRequest(p, s.reqs[p])
    requires second ==>
               var r := s.tasks[t].owner;
               && o.requests[r].Value() == ClosureEffect(s.reqs[r].m, hasError).state && o.Known(o.requests[r].tasks)
    ensures o.Shows(s')
  {
    hide RetryOrFinish, ClosureEffect, Objects.Known, Request.Value, Objects.ShowsSession;
    var r := s.tasks[t].owner;
    ClosureTook(s.reqs[r], hasError);
    assert o.ShowsTasks(s'.tasks);
  }

  /** Request.didCompleteTask with retryOrFinish. */
  method CallCompletion(request: Request, hasError: bool) returns (posts: seq<Post>, called: seq<nat>)
    modifies request
    ensures Effect(request.Value(), None, posts, called) == ClosureEffect(old(request.Value()), hasError)
    ensures request.tasks == old(request.tasks)
  {
    hide FinishEffect;
    posts, called := [], [];
    if !hasError { posts, called := request.Finish(); }
  }

  /** From `s` to `s'`, an event has called the completion closure of its task
      just when it is the second one, and this called and posted just these. */
  ghost predicate ClosureCalled(s: Sys, s': Sys, a: Action, posts: seq<Post>, called: seq<nat>)
    requires a.DidGather? || a.DidComplete?
  {
    a.t in s.tasks &&
    var r := s.tasks[a.t].owner;
    && r in s.reqs && r in s'.reqs
    && if SecondEvent(s, a, a.t) then Took(s.reqs[r], s'.reqs[r], None, Effect(s'.reqs[r].m, None, posts, called))
       else s'.reqs == s.reqs && posts == [] && called == []
  }

  /** urlSession(_:task:didFinishCollecting:) */
  method DeliverMetrics(o: Objects, a: Action, ghost s: Sys) returns (posts: seq<Post>, called: seq<nat>)
    requires o.Shows(s) && TablesOk(s) && a.DidGather? && Enabled(s, a)
    modifies o.session, o.session.requestTaskMap, o.requests.Values
    ensures o.Shows(Apply(s, a))
    ensures ClosureCalled(s, Apply(s, a), a, posts, called)
  {
    hide Apply, Enabled, ClosureEffect, Took, TablesOk, Newest, RetryOrFinish;
    hide Objects.ShowsRequest, Objects.ShowsTasks, Request.Value, Request.Newest, Objects.Known;
    posts, called := [], [];
    MetricsApplied(s, a);
    RequestShown(o, s, s.tasks[a.t].owner);
    var ok, completion := o.session.DidGatherMetricsForTask(a.t);
    if completion.Some? {
      posts, called := CallCompletion(o.requests[completion.value], a.hasError);
    }
    EventShown(o, s, Apply(s, a), a.t, s.tasks[a.t].completed, a.hasError);
    ClosureTook(s.reqs[s.tasks[a.t].owner], a.hasError);
  }

  /** urlSession(_:task:didCompleteWithError:) */
  method DeliverCompletion(o: Objects, a: Action, ghost s: Sys) returns (posts: seq<Post>, called: seq<nat>)
    requires o.Shows(s) && TablesOk(s) && a.DidComplete? && Enabled(s, a)
    modifies o.session, o.session.requestTaskMap, o.requests.Values
    ensures o.Shows(Apply(s, a))
    ensures ClosureCalled(s, Apply(s, a), a, posts, called)
  {
    hide Apply, Enabled, ClosureEffect, Took, TablesOk, Newest, RetryOrFinish;
    hide Objects.ShowsRequest, Objects.ShowsTasks, Request.Value, Request.Newest, Objects.Known;
    posts, called := [], [];
    CompletionApplied(s, a);
    RequestShown(o, s, s.tasks[a.t].owner);
    var owner := o.session.requestTaskMap.tasksToRequests[a.t];
    var ok, completion := o.session.DidCompleteTask(a.t, owner);
    if completion.Some? {
      posts, called := CallCompletion(o.requests[completion.value], a.hasError);
    }
    EventShown(o, s, Apply(s, a), a.t, s.tasks[a.t].gathered, a.hasError);
    ClosureTook(s.reqs[s.tasks[a.t].owner], a.hasError);
  }

  // ---------------------------------------------------------------------
  // Runs
  // ---------------------------------------------------------------------

  lemma TaskExists(s: Sys, a: Action)
    requires Inv(s) && a.Run? && Enabled(s, a) && (a.w.AppendTask? || a.w.UpdateStates?)
    ensures a.w.task in s.tasks
  {
    hide TablesOk, RequestOk;
    OwnsTask(s, a.r, a.w.task);
  }

  lemma KnownTasks(o: Objects, s: Sys, r: RequestId)
    requires o.Shows(s) && r in s.reqs
    ensures r in o.requests && forall k | k in o.requests[r].tasks :: k in o.tasks.Values
  {
    RequestShown(o, s, r);
    forall k | k in o.requests[r].tasks ensures k in o.tasks.Values { assert o.tasks[k.id] == k; }
  }

  /** Any step of the system, done by the objects. */
  method Perform(o: Objects, a: Action, ghost s: Sys) returns (o': Objects)
    requires o.Shows(s) && Inv(s) && Enabled(s, a)
    modifies o.session, o.session.requestTaskMap, o.requests.Values, o.tasks.Values
    ensures o'.Shows(Apply(s, a)) && o'.session == o.session
    ensures fresh(o'.requests.Values - o.requests.Values) && fresh(o'.tasks.Values - o.tasks.Values)
  {
    hide Inv, Apply, Objects.ShowsRequest, Objects.ShowsSession, Objects.Known;
    o' := o;
    var posts, called;
    match a {
      case Create(_) => o' := Add(o, a, s);
      case Attach(_, _) => posts := Append(o, a, s);
      case CancelCall(r) => KnownTasks(o, s, r); posts := Call(o, a, s);
      case SuspendCall(r) => KnownTasks(o, s, r); posts := Call(o, a, s);
      case ResumeCall(r) => KnownTasks(o, s, r); posts := Call(o, a, s);
      case StartIf(r, _) => KnownTasks(o, s, r); posts := StartIfStarting(o, a, s);
      case TaskEnds(_) => End(o, a, s);
      case DidComplete(_, _) => HasTables(s); posts, called := DeliverCompletion(o, a, s);
      case DidGather(_, _) => HasTables(s); posts, called := DeliverMetrics(o, a, s);
      case Run(_, w, _) =>
        if w == Chain(Making) {
          o' := Make(o, a, s);
        } else if w.AppendTask? {
          TaskExists(s, a);
          Enter(o, a, s);
        } else if w.UpdateStates? {
          TaskExists(s, a);
          Update(o, a, s);
        } else {
          posts, called := RunQueued(o, a, s);
        }
    }
  }

  /** Every run of the system is a run of the objects: new ones that do its steps
      one after the other show the state it leads to. */
  method Execute(acts: seq<Action>, ghost ss: seq<Sys>) returns (o: Objects)
    requires IsRun(ss, acts)
    ensures o.Shows(ss[|acts|])
  {
    hide Inv, Apply, Enabled, Objects.ShowsRequest, Objects.Known;
    var session := new Session();
    o := Objects(session, map[], map[]);
    for i := 0 to |acts|
      invariant o.Shows(ss[i])
      invariant fresh(o.session) && fresh(o.session.requestTaskMap)
      invariant fresh(o.requests.Values) && fresh(o.tasks.Values)
    {
      InvAt(ss, acts, i);
      assert StepOf(ss[i], acts[i], ss[i + 1]);
      o := Perform(o, acts[i], ss[i]);
    }
  }
}
