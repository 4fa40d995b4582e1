/** The states of requests and tasks over whole runs: what moves them, and what
    they come to. */
module AfStates {
  import opened Wrappers
  import opened AfTaskMap
  import opened AfRequest
  import opened AfLifecycle
  import opened AfOneRequest
  import opened AfInvariants
  import opened AfRuns

  // ---------------------------------------------------------------------
  // Tasks
  // ---------------------------------------------------------------------

  /** In every run a task is cancelled only if its request is, runs only if its
      request has been resumed, and is never cancelled without its metrics. */
  lemma TasksFollowCalls(ss: seq<Sys>, acts: seq<Action>, i: nat, t: TaskId)
    requires IsRun(ss, acts) && i < |ss| && t in ss[i].tasks
    ensures ss[i].tasks[t].owner in ss[i].reqs
    ensures var k, state := ss[i].tasks[t].state, ss[i].reqs[ss[i].tasks[t].owner].m.state;
            && k != Discarded
            && (k == Canceling ==> state == Cancelled)
            && (k == Running ==> state != Initialized)
  {
    hide Apply, RequestOk, NewestObeys;
    InvAt(ss, acts, i);
    var r := ss[i].tasks[t].owner;
    assert TaskOk(ss[i], t);
    assert TasksOk(ss[i], r) && Owns(ss[i], r, t);
  }

  /** When a request is finished, all of its tasks are over. */
  lemma FinishedIsOver(ss: seq<Sys>, acts: seq<Action>, i: nat, t: TaskId)
    requires IsRun(ss, acts) && i < |ss| && t in ss[i].tasks
    requires ss[i].tasks[t].owner in ss[i].reqs && ss[i].reqs[ss[i].tasks[t].owner].m.state == Finished
    ensures ss[i].tasks[t].state == Completed
  {
    hide Apply, TasksOk, TablesOk;
    InvAt(ss, acts, i);
    var r := ss[i].tasks[t].owner;
    assert RequestOk(ss[i].reqs[r], Mapped(ss[i], r));
    UnmappedOver(ss[i], r, t);
  }

  // ---------------------------------------------------------------------
  // The state of a request
  // ---------------------------------------------------------------------

  /** Its handlers have been served. */
  predicate IsServed(q: Req) {
    q.log.began && !q.m.isFinishing
  }

  /** The state after a step is decided by the call that the step is, if any,
      and by whether it is the step in which the handlers have been served. */
  function StateAfter(a: Action, r: RequestId, state: State, served: bool): State {
    if a == CancelCall(r) then (if state in {Cancelled, Finished} then state else Cancelled)
    else if a == SuspendCall(r) then (if state in {Initialized, Resumed} then Suspended else state)
    else if a == ResumeCall(r) || a == StartIf(r, true) then (if state in {Initialized, Suspended} then Resumed else state)
    else if served && state != Cancelled then Finished
    else state
  }

  lemma StateAfterStep(s: Sys, a: Action, r: RequestId)
    requires Inv(s) && Enabled(s, a) && r in s.reqs
    ensures r in Apply(s, a).reqs
    ensures var q, q' := s.reqs[r], Apply(s, a).reqs[r];
            q'.m.state == StateAfter(a, r, q.m.state, !IsServed(q) && IsServed(q'))
  {
    hide Apply, TasksOk, TablesOk, HandlersOk, AttemptsOk, StateKept;
    InvStep(s, a);
    assert RequestOk(s.reqs[r], Mapped(s, r));
    if (IsCall(a) || a.StartIf?) && a.r == r {
      CallState(s, a);
    } else {
      OtherState(s, a, r);
      assert RequestOk(Apply(s, a).reqs[r], Mapped(Apply(s, a), r));
      KeptState(s.reqs[r], Apply(s, a).reqs[r]);
    }
  }

  /** A kept state is finished in the step that serves the handlers. */
  lemma KeptState(q: Req, q': Req)
    requires HandlersOk(q) && HandlersOk(q') && StateKept(q, q')
    ensures q'.m.state == if !IsServed(q) && IsServed(q') && q.m.state != Cancelled then Finished else q.m.state
  {
  }

  lemma CallState(s: Sys, a: Action)
    requires Enabled(s, a) && (IsCall(a) || a.StartIf?)
    ensures a.r in Apply(s, a).reqs
    ensures var q, q' := s.reqs[a.r], Apply(s, a).reqs[a.r];
            q'.m.state == StateAfter(a, a.r, q.m.state, false) && IsServed(q') == IsServed(q)
  {
    hide Dequeued, Apply, Newest;
    if a.StartIf? {
      StartIs(s, a);
      DequeuedHas(s, a.r);
      if a.immediately { EffectState(Dequeued(s, a.r), ResumeCall(a.r)); }
    } else {
      EffectState(s, a);
    }
  }

  lemma EffectState(s: Sys, a: Action)
    requires Enabled(s, a) && IsCall(a)
    ensures a.r in Apply(s, a).reqs
    ensures var q, q' := s.reqs[a.r], Apply(s, a).reqs[a.r];
            q'.m.state == StateAfter(a, a.r, q.m.state, false) && IsServed(q') == IsServed(q)
  {
    hide CancelEffect, SuspendEffect, ResumeEffect, Newest, Posted;
    var m, e := s.reqs[a.r].m, CallEffect(s, a);
    PublicCallsObeyed(m, Newest(s, m), e);
    assert e.state.state == StateAfter(a, a.r, m.state, false) by { EffectIs(m, Newest(s, m)); }
  }

  lemma EffectIs(m: MutableState, task: Option<TaskState>)
    ensures CancelEffect(m, task).state.state == if m.state in {Cancelled, Finished} then m.state else Cancelled
    ensures SuspendEffect(m, task).state.state == if m.state in {Initialized, Resumed} then Suspended else m.state
    ensures ResumeEffect(m, task).state.state == if m.state in {Initialized, Suspended} then Resumed else m.state
  {
  }

  lemma OtherState(s: Sys, a: Action, r: RequestId)
    requires Inv(s) && Enabled(s, a) && r in s.reqs && !((IsCall(a) || a.StartIf?) && a.r == r)
    ensures r in Apply(s, a).reqs && StateKept(s.reqs[r], Apply(s, a).reqs[r])
  {
    hide TablesOk, TasksOk, RequestOk, RunLocal, CompletionArrives, MetricsArrive, PublicCall, Dequeued;
    if a.StartIf? {
      DequeuedHas(s, a.r);
      hide Apply;
      StartIs(s, a);
      if a.immediately { OtherCall(Dequeued(s, a.r), ResumeCall(a.r), r); }
    } else if IsCall(a) {
      OtherCall(s, a, r);
    } else if a.DidComplete? || a.DidGather? {
      EventState(s, a, r);
    } else if a.Run? && a.r == r {
      LocalTasks(s.reqs[r], a.w, a.choice);
    } else if a.Attach? {
      assert RequestOk(s.reqs[a.r], Mapped(s, a.r));
      AttachState(s.reqs[a.r], a.handler, Mapped(s, a.r));
    }
  }

  lemma OtherCall(s: Sys, a: Action, r: RequestId)
    requires Enabled(s, a) && IsCall(a) && r in s.reqs && r != a.r
    ensures r in Apply(s, a).reqs && Apply(s, a).reqs[r] == s.reqs[r]
  {
    hide CallEffect, Settle;
  }

  lemma AttachState(q: Req, h: nat, mapped: bool)
    requires RequestOk(q, mapped) && !q.log.began
    ensures Attached(q, h).m.state == q.m.state
  {
  }

  lemma EventState(s: Sys, a: Action, r: RequestId)
    requires TablesOk(s) && Enabled(s, a) && r in s.reqs && (a.DidComplete? || a.DidGather?)
    ensures r in Apply(s, a).reqs && StateKept(s.reqs[r], Apply(s, a).reqs[r])
  {
    hide TablesOk, CompletionArrives, MetricsArrive, FinishRequest;
    if a.DidComplete? { CompletionIs(s, a.t, a.hasError); } else { MetricsIs(s, a.t, a.hasError); }
    FinishTasks(s.reqs[s.tasks[a.t].owner]);
  }

  // ---------------------------------------------------------------------
  // Starting
  // ---------------------------------------------------------------------

  /** Attaching a handler asks for a start, unless the request has been started
      or is at its end. */
  lemma AttachAsks(s: Sys, a: Action)
    requires Inv(s) && Enabled(s, a) && a.Attach?
    ensures Apply(s, a).reqs[a.r].queue[StartIfAsked]
            == s.reqs[a.r].queue[StartIfAsked] + if s.reqs[a.r].m.state in {Initialized, Suspended} then 1 else 0
  {
    hide TasksOk, TablesOk, HandlersOk, AttemptsOk, Attached;
    assert RequestOk(s.reqs[a.r], Mapped(s, a.r));
    AttachHandlers(s.reqs[a.r], a.handler);
  }

  /** The session starts requests immediately. */
  predicate StartsImmediately(acts: seq<Action>) {
    forall a | a in acts && a.StartIf? :: a.immediately
  }

  /** A request that has a handler and has never been started, suspended or
      cancelled is about to be started. */
  ghost predicate AboutToStart(q: Req) {
    q.log.attached != [] && q.m.state == Initialized ==> q.queue[StartIfAsked] > 0
  }

  /** No handler comes or goes, no block that waits to start the request gets
      lost, and no cancelled request gets to the point of making a task. */
  predicate KeepsAsking(q: Req, q': Req) {
    && q'.log.attached == q.log.attached && q'.queue[StartIfAsked] >= q.queue[StartIfAsked]
    && (IsCancelled(q) ==> Makings(q') <= Makings(q))
  }

  /** What can still lead to a new task once the request is cancelled. */
  function Makings(q: Req): nat {
    q.queue[Chain(Making)]
  }

  lemma FinishAsking(q: Req)
    ensures KeepsAsking(q, FinishRequest(q))
  {
    FinishIs(q);
  }

  lemma LocalAsking(q: Req, w: Work, c: Choice)
    requires w != StartIfAsked
    ensures KeepsAsking(q, RunLocal(q, w, c))
  {
    hide FinishRequest, Settle;
    FinishAsking(Without(q, w));
    if w.Serialized? {
      SettleAsking(Without(q, w), DidCompleteEffect(q.m, w.handler));
    } else if w.Chain? {
      ChainAsking(q, w.phase, c);
    }
  }

  lemma SettleAsking(q: Req, e: Effect)
    ensures KeepsAsking(q, Settle(q, e))
  {
    PostedNoChain(e.posts, Making);
  }

  lemma {:induction false} PostedNoChain(posts: seq<Post>, phase: Phase)
    ensures Posted(posts)[Chain(phase)] == 0
  {
    if posts != [] { PostedNoChain(posts[1..], phase); }
  }

  lemma WithoutAsking(q: Req, w: Work)
    requires w != StartIfAsked
    ensures KeepsAsking(q, q) && KeepsAsking(q, Without(q, w)) && KeepsAsking(q, DropRetry(q))
    ensures KeepsAsking(q, Move(q.(m := Reset(q.m)), w, Chain(Performing)))
  {
  }

  lemma GoingAsking(q: Req, phase: Phase, c: Choice)
    requires phase != Making
    ensures KeepsAsking(q, Going(q, Chain(phase), NextPhase(q, phase, c)))
  {
  }

  lemma ThenAsking(q: Req, q1: Req, q2: Req)
    requires KeepsAsking(q, q1) && KeepsAsking(q1, q2) && q1.m == q.m
    ensures KeepsAsking(q, q2)
  {
  }

  lemma ChainAsking(q: Req, phase: Phase, c: Choice)
    ensures KeepsAsking(q, RunLocal(q, Chain(phase), c))
  {
    hide FinishRequest, RunLocal, KeepsAsking, DropRetry, Move, NextPhase, Going;
    var w := Chain(phase);
    WithoutAsking(q, w);
    if Finishes(w, c) {
      FinishingIs(q, w, c);
      FinishAsking(Without(q, w));
      ThenAsking(q, Without(q, w), FinishRequest(Without(q, w)));
    } else if phase == Retrying {
      RetryingIs(q, c);
    } else if phase == Making {
      MakingIs(q, c);
    } else {
      GoingIs(q, phase, c);
      GoingAsking(q, phase, c);
    }
  }

  lemma MakingIs(q: Req, c: Choice)
    ensures RunLocal(q, Chain(Making), c) == q
  {
  }

  lemma StepAsking(s: Sys, a: Action, r: RequestId)
    requires TablesOk(s) && Enabled(s, a) && r in s.reqs && !((a.StartIf? || a.Attach?) && a.r == r)
    ensures r in Apply(s, a).reqs && KeepsAsking(s.reqs[r], Apply(s, a).reqs[r])
  {
    hide TablesOk, RunLocal, CompletionArrives, MetricsArrive, PublicCall, Dequeued, Attached;
    if a.StartIf? {
      hide Apply;
      StartIs(s, a);
      DequeuedHas(s, a.r);
      if a.immediately { OtherCall(Dequeued(s, a.r), ResumeCall(a.r), r); }
    } else if IsCall(a) {
      CallAsking(s, a, r);
    } else if a.DidComplete? || a.DidGather? {
      EventAsking(s, a, r);
    } else if a.Run? && a.r == r {
      RunAsking(s, a);
    }
  }

  lemma CallAsking(s: Sys, a: Action, r: RequestId)
    requires Enabled(s, a) && IsCall(a) && r in s.reqs
    ensures r in Apply(s, a).reqs && KeepsAsking(s.reqs[r], Apply(s, a).reqs[r])
  {
    hide CallEffect, Settle;
    SettleAsking(s.reqs[a.r], CallEffect(s, a));
  }

  lemma RunAsking(s: Sys, a: Action)
    requires Enabled(s, a) && a.Run?
    ensures a.r in Apply(s, a).reqs && KeepsAsking(s.reqs[a.r], Apply(s, a).reqs[a.r])
  {
    hide RunLocal;
    LocalAsking(s.reqs[a.r], a.w, a.choice);
  }

  lemma EventAsking(s: Sys, a: Action, r: RequestId)
    requires TablesOk(s) && Enabled(s, a) && r in s.reqs && (a.DidComplete? || a.DidGather?)
    ensures r in Apply(s, a).reqs && KeepsAsking(s.reqs[r], Apply(s, a).reqs[r])
  {
    hide TablesOk, CompletionArrives, MetricsArrive, FinishRequest;
    if a.DidComplete? { CompletionIs(s, a.t, a.hasError); } else { MetricsIs(s, a.t, a.hasError); }
    FinishAsking(s.reqs[s.tasks[a.t].owner]);
  }

  lemma StartStep(s: Sys, a: Action, r: RequestId)
    requires Inv(s) && Enabled(s, a) && r in s.reqs && AboutToStart(s.reqs[r]) && (a.StartIf? ==> a.immediately)
    ensures r in Apply(s, a).reqs && AboutToStart(Apply(s, a).reqs[r])
  {
    hide Apply, TablesOk, TasksOk, RequestOk, Enabled;
    StateAfterStep(s, a, r);
    if a.Attach? && a.r == r {
      AttachAsks(s, a);
    } else if !(a.StartIf? && a.r == r) {
      StepAsking(s, a, r);
    }
  }

  lemma NewRequest(s: Sys, a: Action, r: RequestId)
    requires TablesOk(s) && Enabled(s, a) && r !in s.reqs && r in Apply(s, a).reqs
    ensures Apply(s, a).reqs[r] == NEW_REQUEST
  {
    hide TablesOk, CompletionArrives, MetricsArrive;
    if a.DidComplete? { CompletionIs(s, a.t, a.hasError); } else if a.DidGather? { MetricsIs(s, a.t, a.hasError); }
  }

  /** With a session that starts requests immediately, no request that has a
      handler is left as it was made with nothing to start it. */
  lemma {:induction false} StartsWhenAsked(ss: seq<Sys>, acts: seq<Action>, i: nat, r: RequestId)
    requires IsRun(ss, acts) && i < |ss| && r in ss[i].reqs && StartsImmediately(acts)
    ensures AboutToStart(ss[i].reqs[r])
    decreases i
  {
    hide Apply, Inv, Enabled, AboutToStart;
    if i > 0 {
      var s, a := ss[i - 1], acts[i - 1];
      InvAt(ss, acts, i - 1);
      assert StepOf(s, a, ss[i]);
      if r in s.reqs {
        StartsWhenAsked(ss, acts, i - 1, r);
        StartStep(s, a, r);
      } else {
        assert TablesOk(s) by { HasTables(s); }
        NewRequest(s, a, r);
        assert AboutToStart(NEW_REQUEST) by { NewAsks(); }
      }
    }
  }

  lemma NewAsks()
    ensures AboutToStart(NEW_REQUEST)
  {
  }

  // ---------------------------------------------------------------------
  // After a cancel
  // ---------------------------------------------------------------------

  lemma CancelledMakes(s: Sys, a: Action, r: RequestId, t: TaskId)
    requires Inv(s) && Enabled(s, a) && r in s.reqs && IsCancelled(s.reqs[r]) && Makings(s.reqs[r]) == 0
    ensures r in Apply(s, a).reqs && IsCancelled(Apply(s, a).reqs[r]) && Makings(Apply(s, a).reqs[r]) == 0
    ensures Owns(Apply(s, a), r, t) <==> Owns(s, r, t)
  {
    hide Apply, Enabled, TablesOk, TasksOk, RequestOk;
    HasTables(s);
    StepCancelled(s, a, r);
    if a.StartIf? && a.r == r {
      StartMakes(s, a);
    } else if a.Attach? && a.r == r {
      AttachMakes(s, a);
    } else {
      StepAsking(s, a, r);
    }
    OwnersStay(s, a, r, t);
  }

  lemma StartMakes(s: Sys, a: Action)
    requires Enabled(s, a) && a.StartIf? && IsCancelled(s.reqs[a.r])
    ensures a.r in Apply(s, a).reqs && Makings(Apply(s, a).reqs[a.r]) <= Makings(s.reqs[a.r])
  {
    hide Apply, Dequeued;
    StartIs(s, a);
    DequeuedHas(s, a.r);
    if a.immediately { CallAsking(Dequeued(s, a.r), ResumeCall(a.r), a.r); }
  }

  lemma AttachMakes(s: Sys, a: Action)
    requires Inv(s) && Enabled(s, a) && a.Attach?
    ensures a.r in Apply(s, a).reqs && Makings(Apply(s, a).reqs[a.r]) == Makings(s.reqs[a.r])
  {
    hide TasksOk, TablesOk, HandlersOk, AttemptsOk, Attached;
    assert RequestOk(s.reqs[a.r], Mapped(s, a.r));
    AttachHandlers(s.reqs[a.r], a.handler);
  }

  /** Tasks are made only by requests that are about to make one. */
  lemma OwnersStay(s: Sys, a: Action, r: RequestId, t: TaskId)
    requires TablesOk(s) && Enabled(s, a) && r in s.reqs && Makings(s.reqs[r]) == 0
    ensures Owns(Apply(s, a), r, t) <==> Owns(s, r, t)
  {
    hide TablesOk, RunLocal, CompletionArrives, MetricsArrive, CallEffect, Settle, Attached;
    if a.DidComplete? { CompletionIs(s, a.t, a.hasError); } else if a.DidGather? { MetricsIs(s, a.t, a.hasError); }
  }

  /** The tasks of a cancelled request stay the same, unless a task was about to
      be made when it was cancelled: the guards of perform, of its set-up, of
      didCreateURLRequest and of retryRequest let none through. */
  lemma {:induction false} CancelledGetsNoTask(ss: seq<Sys>, acts: seq<Action>, i: nat, j: nat, r: RequestId, t: TaskId)
    requires IsRun(ss, acts) && i <= j < |ss| && r in ss[i].reqs
    requires ss[i].reqs[r].m.state == Cancelled && Makings(ss[i].reqs[r]) == 0
    ensures r in ss[j].reqs && ss[j].reqs[r].m.state == Cancelled && Makings(ss[j].reqs[r]) == 0
    ensures Owns(ss[j], r, t) <==> Owns(ss[i], r, t)
    decreases j
  {
    hide Apply, Inv, Enabled;
    if i < j {
      CancelledGetsNoTask(ss, acts, i, j - 1, r, t);
      InvAt(ss, acts, j - 1);
      assert StepOf(ss[j - 1], acts[j - 1], ss[j]);
      CancelledMakes(ss[j - 1], acts[j - 1], r, t);
    }
  }

  // ---------------------------------------------------------------------
  // The way of an attempt
  // ---------------------------------------------------------------------

  /** The event that the step delivers is the second one of a task of the
      request, which ends with an error. */
  predicate EndsInError(s: Sys, a: Action, r: RequestId) {
    && (a.DidComplete? || a.DidGather?) && a.hasError
    && a.t in s.tasks && s.tasks[a.t].owner == r && SecondEvent(s, a, a.t)
  }

  /** Why a request comes to a phase: it is set up once it is performed, a task is
      made for it only if both the request could be created and the adapter has
      not failed, the retrier is asked about every error and about nothing else,
      and it is performed again just when the retrier asks for that; all of this
      unless it has been cancelled, except that failures are still reported. */
  predicate Cause(s: Sys, a: Action, r: RequestId, phase: Phase)
    requires r in s.reqs
  {
    var live := !IsCancelled(s.reqs[r]);
    match phase
    case Performing => live && Does(a, r, Retrying)
    case SettingUp => live && Does(a, r, Performing)
    case Creating => live && Does(a, r, SettingUp) && !a.choice.createFails && !a.choice.adaptFails
    case Making => live && Does(a, r, Creating)
    case Failing => Does(a, r, SettingUp) && (a.choice.createFails || (live && a.choice.adaptFails))
    case Deciding => (Does(a, r, Failing) && a.choice.hasError) || EndsInError(s, a, r)
    case Retrying => Does(a, r, Deciding) && a.choice.retry
  }

  predicate Does(a: Action, r: RequestId, phase: Phase) {
    a.Run? && a.r == r && a.w == Chain(phase)
  }

  /** From `q` to `q'` the phase has been left or entered. */
  predicate Passes(q: Req, q': Req, phase: Phase, leaves: bool, enters: bool) {
    q'.queue[Chain(phase)] + (if leaves then 1 else 0) == q.queue[Chain(phase)] + (if enters then 1 else 0)
  }

  lemma SamePasses(q: Req, q': Req, phase: Phase)
    requires q'.queue == q.queue
    ensures Passes(q, q', phase, false, false)
  {
  }

  lemma SettlePasses(q: Req, e: Effect, phase: Phase)
    ensures Passes(q, Settle(q, e), phase, false, false)
  {
    PostedNoChain(e.posts, phase);
  }

  lemma FinishPasses(q: Req, phase: Phase)
    ensures Passes(q, FinishRequest(q), phase, false, false)
  {
    FinishIs(q);
  }

  lemma WithoutPasses(q: Req, w: Work, phase: Phase)
    requires q.queue[w] > 0
    ensures Passes(q, Without(q, w), phase, w == Chain(phase), false)
    ensures w == Chain(Retrying) ==> Passes(q, DropRetry(q), phase, phase == Retrying, false)
  {
  }

  lemma MovePasses(q: Req, w: Work, next: Work, phase: Phase)
    requires q.queue[w] > 0
    ensures Passes(q, Move(q, w, next), phase, w == Chain(phase), next == Chain(phase))
  {
  }

  lemma ThenPasses(q: Req, q1: Req, q2: Req, phase: Phase, leaves: bool, enters: bool)
    requires Passes(q, q1, phase, leaves, enters) && Passes(q1, q2, phase, false, false)
    ensures Passes(q, q2, phase, leaves, enters)
  {
  }

  /** Every step of the system brings a request to a phase exactly for its cause,
      and away from it exactly by doing it. */
  lemma PhasesPass(s: Sys, a: Action, r: RequestId, phase: Phase)
    requires Inv(s) && Enabled(s, a) && r in s.reqs
    ensures r in Apply(s, a).reqs
    ensures Passes(s.reqs[r], Apply(s, a).reqs[r], phase, Does(a, r, phase), Cause(s, a, r, phase))
  {
    hide TablesOk, TasksOk, RequestOk, Apply, Passes, Enabled;
    HasTables(s);
    if a.StartIf? {
      StartPasses(s, a, r, phase);
    } else if IsCall(a) {
      CallPasses(s, a, r, phase);
    } else if a.DidComplete? || a.DidGather? {
      EventPasses(s, a, r, phase);
    } else if a.Run? && a.r == r {
      RunPasses(s, a, phase);
    } else if a.Attach? && a.r == r {
      AttachPasses(s, a, phase);
    } else {
      OthersStay(s, a, r);
      SamePasses(s.reqs[r], Apply(s, a).reqs[r], phase);
    }
  }

  lemma AttachPasses(s: Sys, a: Action, phase: Phase)
    requires Inv(s) && Enabled(s, a) && a.Attach?
    ensures a.r in Apply(s, a).reqs && Passes(s.reqs[a.r], Apply(s, a).reqs[a.r], phase, false, false)
  {
    hide TasksOk, TablesOk, HandlersOk, AttemptsOk, Attached;
    assert RequestOk(s.reqs[a.r], Mapped(s, a.r));
    AttachHandlers(s.reqs[a.r], a.handler);
  }

  lemma OthersStay(s: Sys, a: Action, r: RequestId)
    requires Enabled(s, a) && r in s.reqs && ((a.Run? && a.r != r) || (a.Attach? && a.r != r) || a.Create? || a.TaskEnds?)
    ensures r in Apply(s, a).reqs && Apply(s, a).reqs[r] == s.reqs[r]
  {
    hide RunLocal, Attached;
  }

  lemma CallPasses(s: Sys, a: Action, r: RequestId, phase: Phase)
    requires Enabled(s, a) && IsCall(a) && r in s.reqs
    ensures r in Apply(s, a).reqs && Passes(s.reqs[r], Apply(s, a).reqs[r], phase, false, false)
  {
    hide CallEffect, Settle, Passes;
    SettlePasses(s.reqs[a.r], CallEffect(s, a), phase);
    SamePasses(s.reqs[r], s.reqs[r], phase);
  }

  lemma StartPasses(s: Sys, a: Action, r: RequestId, phase: Phase)
    requires Enabled(s, a) && a.StartIf? && r in s.reqs
    ensures r in Apply(s, a).reqs && Passes(s.reqs[r], Apply(s, a).reqs[r], phase, false, false)
  {
    hide Apply, Dequeued, Passes, Enabled;
    StartIs(s, a);
    DequeuedPasses(s, a, r, phase);
    if a.immediately {
      CallPasses(Dequeued(s, a.r), ResumeCall(a.r), r, phase);
      ThenPasses(s.reqs[r], Dequeued(s, a.r).reqs[r], Apply(s, a).reqs[r], phase, false, false);
    }
  }

  lemma DequeuedPasses(s: Sys, a: Action, r: RequestId, phase: Phase)
    requires Enabled(s, a) && a.StartIf? && r in s.reqs
    ensures a.r in s.reqs && r in Dequeued(s, a.r).reqs && Passes(s.reqs[r], Dequeued(s, a.r).reqs[r], phase, false, false)
  {
    hide Dequeued;
    DequeuedHas(s, a.r);
  }

  lemma EventPasses(s: Sys, a: Action, r: RequestId, phase: Phase)
    requires TablesOk(s) && Enabled(s, a) && r in s.reqs && (a.DidComplete? || a.DidGather?)
    ensures r in Apply(s, a).reqs
    ensures Passes(s.reqs[r], Apply(s, a).reqs[r], phase, false, phase == Deciding && EndsInError(s, a, r))
  {
    hide TablesOk, CompletionArrives, MetricsArrive, RetryOrFinish, Passes;
    if a.DidComplete? { CompletionIs(s, a.t, a.hasError); } else { MetricsIs(s, a.t, a.hasError); }
    ClosurePasses(s.reqs[s.tasks[a.t].owner], a.hasError, phase);
    SamePasses(s.reqs[r], s.reqs[r], phase);
  }

  lemma ClosurePasses(q: Req, hasError: bool, phase: Phase)
    ensures Passes(q, RetryOrFinish(q, hasError), phase, false, hasError && phase == Deciding)
  {
    hide FinishRequest;
    FinishPasses(q, phase);
  }

  lemma RunPasses(s: Sys, a: Action, phase: Phase)
    requires Enabled(s, a) && a.Run?
    ensures a.r in s.reqs && a.r in Apply(s, a).reqs
    ensures Passes(s.reqs[a.r], Apply(s, a).reqs[a.r], phase, Does(a, a.r, phase), Cause(s, a, a.r, phase))
  {
    hide RunLocal, Passes, Move, Without, IsCancelled;
    var q, w := s.reqs[a.r], a.w;
    if w == Chain(Making) {
      MovePasses(q, w, AppendTask(a.choice.newTask), phase);
    } else if w.Chain? {
      ChainPasses(q, w.phase, a.choice, phase);
      CauseIs(s, a, phase);
    } else {
      WorkPasses(q, w, a.choice, phase);
      TaskPasses(q, w, phase);
    }
  }

  lemma TaskPasses(q: Req, w: Work, phase: Phase)
    requires q.queue[w] > 0
    ensures w.UpdateStates? ==> Passes(q, Without(q, w), phase, false, false)
    ensures w.AppendTask? ==>
              Passes(q, Move(q.(m := q.m.(tasks := q.m.tasks + [w.task])), w, UpdateStates(w.task)), phase, false, false)
  {
  }

  lemma CauseIs(s: Sys, a: Action, phase: Phase)
    requires Enabled(s, a) && a.Run? && a.w.Chain? && a.w != Chain(Making)
    ensures Cause(s, a, a.r, phase) == Leads(s.reqs[a.r], a.w.phase, a.choice, phase)
  {
  }

  /** The step at one phase leads to another one. */
  predicate Leads(q: Req, at: Phase, c: Choice, phase: Phase) {
    if Finishes(Chain(at), c) then false
    else if at == Retrying then phase == Performing && !IsCancelled(q)
    else at != Making && NextPhase(q, at, c) == Some(phase)
  }

  lemma WorkPasses(q: Req, w: Work, c: Choice, phase: Phase)
    requires q.queue[w] > 0 && !w.Chain?
    ensures Passes(q, RunLocal(q, w, c), phase, false, false)
  {
    hide FinishRequest, DidCompleteEffect, Settle, Passes, Move, Without;
    SamePasses(q, q, phase);
    WithoutPasses(q, w, phase);
    match w
    case CallFinish =>
      FinishPasses(Without(q, w), phase);
      ThenPasses(q, Without(q, w), FinishRequest(Without(q, w)), phase, false, false);
    case Serialized(h) =>
      SettlePasses(Without(q, w), DidCompleteEffect(q.m, h), phase);
      ThenPasses(q, Without(q, w), Settle(Without(q, w), DidCompleteEffect(q.m, h)), phase, false, false);
    case Serialize(h) =>
      var q1 := q.(log := q.log.(ran := q.log.ran + [h]));
      SamePasses(q, q1, phase);
      MovePasses(q1, w, Serialized(h), phase);
      PassesFrom(q, q1, Move(q1, w, Serialized(h)), phase, false, false);
    case _ =>
  }

  lemma PassesFrom(q: Req, q1: Req, q2: Req, phase: Phase, leaves: bool, enters: bool)
    requires q1.queue == q.queue && Passes(q1, q2, phase, leaves, enters)
    ensures Passes(q, q2, phase, leaves, enters)
  {
  }

  lemma ChainPasses(q: Req, at: Phase, c: Choice, phase: Phase)
    requires q.queue[Chain(at)] > 0 && at != Making
    ensures Passes(q, RunLocal(q, Chain(at), c), phase, phase == at, Leads(q, at, c, phase))
  {
    hide FinishRequest, RunLocal, Passes, Move, Without, DropRetry, NextPhase;
    var w := Chain(at);
    WithoutPasses(q, w, phase);
    if Finishes(w, c) {
      FinishingIs(q, w, c);
      FinishPasses(Without(q, w), phase);
      ThenPasses(q, Without(q, w), FinishRequest(Without(q, w)), phase, phase == at, false);
    } else if at == Retrying {
      RetryingIs(q, c);
      var q1 := q.(m := Reset(q.m));
      MovePasses(q1, w, Chain(Performing), phase);
      PassesFrom(q, q1, Move(q1, w, Chain(Performing)), phase, phase == at, phase == Performing);
    } else {
      var next := NextPhase(q, at, c);
      GoingIs(q, at, c);
      if next.Some? { MovePasses(q, w, Chain(next.value), phase); }
    }
  }
}
