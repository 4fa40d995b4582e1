/** How the serving of the handlers of a request comes to its end, whatever
    happens to that request and to others in between. */
module AfServing {
  import opened Wrappers
  import opened AfTaskMap
  import opened AfRequest
  import opened AfLifecycle
  import opened AfOneRequest
  import opened AfInvariants
  import opened AfRuns

  // ---------------------------------------------------------------------
  // The serializer steps
  // ---------------------------------------------------------------------

  /** How many serializer steps are left. */
  function StepsLeft(q: Req): nat {
    var n, k := |q.m.responseSerializers|, |q.m.responseSerializerCompletions|;
    if q.m.isFinishing && k < n then 2 * (n - k) - (if q.queue[Serialized(q.m.responseSerializers[k])] > 0 then 1 else 0)
    else 0
  }

  lemma NoStepsLeft(q: Req)
    requires HandlersOk(q) && q.log.began
    ensures StepsLeft(q) == 0 <==> !q.m.isFinishing
  {
  }

  /** A serializer runs, ... */
  lemma SerializeStep(q: Req, h: nat, c: Choice)
    requires HandlersOk(q) && q.queue[Serialize(h)] > 0
    ensures q.m.isFinishing && StepsLeft(RunLocal(q, Serialize(h), c)) == StepsLeft(q) - 1
  {
    assert Pending(q, h) > 0;
    assert Serving(q);
  }

  /** ... and is noted. */
  lemma SerializedStep(q: Req, h: nat, c: Choice)
    requires HandlersOk(q) && q.queue[Serialized(h)] > 0
    ensures q.m.isFinishing && StepsLeft(RunLocal(q, Serialized(h), c)) == StepsLeft(q) - 1
  {
    hide Settle, DidCompleteEffect;
    var q1 := Noted(q, h);
    SerializedIs(q, h);
    assert Pending(q, h) > 0;
    assert Serving(q);
    if |q1.m.responseSerializerCompletions| < |q1.m.responseSerializers| {
      var g := q.m.responseSerializers[|q1.m.responseSerializerCompletions|];
      assert Pending(q, g) == if g == h then 1 else 0;
    }
  }

  /** While handlers are being served there is a serializer step to take. */
  lemma SerializersProgress(s: Sys, r: RequestId, c: Choice)
    requires Inv(s) && r in s.reqs && s.reqs[r].m.isFinishing
    ensures exists w: Work :: (w.Serialize? || w.Serialized?) && Enabled(s, Run(r, w, c))
  {
    hide TablesOk, TasksOk;
    var q := s.reqs[r];
    assert RequestOk(q, Mapped(s, r));
    var h := q.log.attached[|q.m.responseSerializerCompletions|];
    assert Pending(q, h) == 1;
    assert Enabled(s, Run(r, Serialize(h), c)) || Enabled(s, Run(r, Serialized(h), c));
  }

  // ---------------------------------------------------------------------
  // All other steps
  // ---------------------------------------------------------------------

  /** Nothing that StepsLeft counts differs. */
  ghost predicate SameServing(q: Req, q': Req) {
    && q'.m.responseSerializers == q.m.responseSerializers
    && q'.m.responseSerializerCompletions == q.m.responseSerializerCompletions
    && q'.m.isFinishing == q.m.isFinishing
    && forall h :: q'.queue[Serialized(h)] == q.queue[Serialized(h)]
  }

  lemma SameStepsLeft(q: Req, q': Req)
    requires SameServing(q, q')
    ensures StepsLeft(q') == StepsLeft(q)
  {
  }

  /** Another finish call changes nothing. */
  lemma FinishServing(q: Req)
    requires q.m.isFinishing
    ensures SameServing(q, FinishRequest(q))
  {
    FinishIs(q);
  }

  lemma BeganFirst(q: Req, mapped: bool)
    requires RequestOk(q, mapped) && q.m.isFinishing
    ensures q.log.began && (q.queue[Chain(Retrying)] > 0 ==> IsCancelled(q))
  {
  }

  lemma LocalServing(q: Req, w: Work, c: Choice, mapped: bool)
    requires RequestOk(q, mapped) && q.m.isFinishing && w in q.queue
    requires !w.Serialize? && !w.Serialized? && w != Chain(Making) && !w.AppendTask? && !w.UpdateStates?
    requires w != StartIfAsked
    ensures SameServing(q, RunLocal(q, w, c))
  {
    hide RunLocal, RequestOk, FinishRequest, SameServing, IsCancelled, DropRetry, Move, NextPhase;
    BeganFirst(q, mapped);
    WithoutServing(q, w);
    if Finishes(w, c) {
      FinishingIs(q, w, c);
      FinishServing(Without(q, w));
      ThenServing(q, Without(q, w), FinishRequest(Without(q, w)));
    } else if w == Chain(Retrying) {
      RetryingIs(q, c);
    } else {
      var next := NextPhase(q, w.phase, c);
      GoingIs(q, w.phase, c);
      if next.Some? { MoveServing(q, w, Chain(next.value)); }
    }
  }

  lemma WithoutServing(q: Req, w: Work)
    requires !w.Serialized?
    ensures SameServing(q, Without(q, w)) && SameServing(q, DropRetry(q))
  {
  }

  lemma MoveServing(q: Req, w: Work, next: Work)
    requires !w.Serialized? && !next.Serialized?
    ensures SameServing(q, Move(q, w, next))
  {
  }

  lemma ThenServing(q: Req, q1: Req, q2: Req)
    requires SameServing(q, q1) && SameServing(q1, q2)
    ensures SameServing(q, q2)
  {
  }

  lemma PublicServing(s: Sys, a: Action, r: RequestId)
    requires Enabled(s, a) && r in s.reqs && IsCall(a)
    ensures r in Apply(s, a).reqs && SameServing(s.reqs[r], Apply(s, a).reqs[r])
  {
    hide CallEffect, Settle, Newest, SameServing;
    SettleServing(s, a);
    SelfServing(s.reqs[r]);
  }

  lemma StartServing(s: Sys, a: Action, r: RequestId)
    requires Enabled(s, a) && r in s.reqs && a.StartIf?
    ensures r in Apply(s, a).reqs && SameServing(s.reqs[r], Apply(s, a).reqs[r])
  {
    hide Apply, Dequeued;
    StartIs(s, a);
    DequeuedHas(s, a.r);
    if a.immediately {
      PublicServing(Dequeued(s, a.r), ResumeCall(a.r), r);
      ThenServing(s.reqs[r], Dequeued(s, a.r).reqs[r], Apply(s, a).reqs[r]);
    }
  }

  lemma SelfServing(q: Req)
    ensures SameServing(q, q)
  {
  }

  lemma SettleServing(s: Sys, a: Action)
    requires Enabled(s, a) && IsCall(a)
    ensures SameServing(s.reqs[a.r], Settle(s.reqs[a.r], CallEffect(s, a)))
  {
    hide CancelEffect, SuspendEffect, ResumeEffect, Newest;
    var m := s.reqs[a.r].m;
    PublicCallsObeyed(m, Newest(s, m), CallEffect(s, a));
    PostedOne(PostFinish);
  }

  lemma EventServing(s: Sys, a: Action, r: RequestId)
    requires TablesOk(s) && Enabled(s, a) && r in s.reqs && s.reqs[r].m.isFinishing && (a.DidComplete? || a.DidGather?)
    ensures r in Apply(s, a).reqs && SameServing(s.reqs[r], Apply(s, a).reqs[r])
  {
    hide TablesOk, CompletionArrives, MetricsArrive, FinishRequest;
    if a.DidComplete? { CompletionIs(s, a.t, a.hasError); } else { MetricsIs(s, a.t, a.hasError); }
    FinishServing(s.reqs[r]);
  }

  /** The step is one of the serializer steps of the request. */
  predicate SerializerStep(a: Action, r: RequestId) {
    a.Run? && a.r == r && (a.w.Serialize? || a.w.Serialized?)
  }

  lemma TaskServing(s: Sys, r: RequestId, t: TaskId)
    requires r in s.reqs
    ensures SameServing(s.reqs[r], MakeTask(s, r, t).reqs[r])
    ensures t in s.tasks ==> SameServing(s.reqs[r], DidCreateTask(s, r, t).reqs[r])
    ensures t in s.tasks ==> SameServing(s.reqs[r], UpdateStatesForTask(s, r, t).reqs[r])
  {
    hide Move, Without;
    var q := s.reqs[r];
    MoveServing(q, Chain(Making), AppendTask(t));
    MoveServing(q.(m := q.m.(tasks := q.m.tasks + [t])), AppendTask(t), UpdateStates(t));
    WithoutServing(q, UpdateStates(t));
  }

  lemma RunServing(s: Sys, a: Action)
    requires Inv(s) && Enabled(s, a) && a.Run? && s.reqs[a.r].m.isFinishing && !SerializerStep(a, a.r)
    ensures a.r in Apply(s, a).reqs && SameServing(s.reqs[a.r], Apply(s, a).reqs[a.r])
  {
    hide TablesOk, TasksOk, RequestOk, RunLocal, SameServing, Enabled;
    RunEnabled(s, a);
    assert RequestOk(s.reqs[a.r], Mapped(s, a.r));
    if a.w == Chain(Making) {
      TaskServing(s, a.r, a.choice.newTask);
    } else if a.w.AppendTask? || a.w.UpdateStates? {
      TaskServing(s, a.r, a.w.task);
      OtherLocal(s.reqs[a.r], a.w, a.choice);
      SelfServing(s.reqs[a.r]);
    } else {
      LocalServing(s.reqs[a.r], a.w, a.choice, Mapped(s, a.r));
    }
  }

  lemma RunEnabled(s: Sys, a: Action)
    requires Enabled(s, a) && a.Run?
    ensures a.r in s.reqs && a.w in s.reqs[a.r].queue && a.w != StartIfAsked
  {
  }

  lemma OtherServing(s: Sys, a: Action, r: RequestId)
    requires Inv(s) && Enabled(s, a) && r in s.reqs && s.reqs[r].m.isFinishing && !SerializerStep(a, r)
    ensures r in Apply(s, a).reqs && SameServing(s.reqs[r], Apply(s, a).reqs[r])
  {
    hide TablesOk, TasksOk, RequestOk, SameServing, RunLocal, CompletionArrives, MetricsArrive, PublicCall, Attached;
    SelfServing(s.reqs[r]);
    if IsCall(a) {
      PublicServing(s, a, r);
    } else if a.DidComplete? || a.DidGather? {
      EventServing(s, a, r);
    } else if a.Run? && a.r == r {
      RunServing(s, a);
    } else if a.StartIf? {
      StartServing(s, a, r);
    } else if a.Attach? {
      assert RequestOk(s.reqs[r], Mapped(s, r));
      BeganFirst(s.reqs[r], Mapped(s, r));
    }
  }

  // ---------------------------------------------------------------------
  // The end of serving
  // ---------------------------------------------------------------------

  /** Of all steps of the system exactly the serializer steps of a request bring
      its serving nearer to the end, each by one, and nothing sets it back. */
  lemma ServingStep(s: Sys, a: Action, r: RequestId)
    requires Inv(s) && Enabled(s, a) && r in s.reqs && s.reqs[r].m.isFinishing
    ensures r in Apply(s, a).reqs
    ensures StepsLeft(Apply(s, a).reqs[r]) == StepsLeft(s.reqs[r]) - (if SerializerStep(a, r) then 1 else 0)
  {
    hide TablesOk, TasksOk, RunLocal, HandlersOk, AttemptsOk, StepsLeft, SameServing;
    if SerializerStep(a, r) {
      assert RequestOk(s.reqs[r], Mapped(s, r));
      if a.w.Serialize? {
        SerializeStep(s.reqs[r], a.w.handler, a.choice);
      } else {
        SerializedStep(s.reqs[r], a.w.handler, a.choice);
      }
    } else {
      OtherServing(s, a, r);
      SameStepsLeft(s.reqs[r], Apply(s, a).reqs[r]);
    }
  }

  /** The number of serializer steps of a request. */
  function SerializerSteps(acts: seq<Action>, r: RequestId): nat {
    if acts == [] then 0
    else SerializerSteps(acts[..|acts| - 1], r) + (if SerializerStep(acts[|acts| - 1], r) then 1 else 0)
  }

  /** So the serving that has begun is over after just as many serializer steps
      as were left, however they are interleaved with public calls, events,
      retries, further finish calls and other requests; and none comes after. */
  lemma {:induction false} ServingEnds(ss: seq<Sys>, acts: seq<Action>, i: nat, j: nat, r: RequestId)
    requires IsRun(ss, acts) && i <= j < |ss| && r in ss[i].reqs && ss[i].reqs[r].log.began
    ensures r in ss[j].reqs && ss[j].reqs[r].log.began
    ensures StepsLeft(ss[j].reqs[r]) == StepsLeft(ss[i].reqs[r]) - SerializerSteps(acts[i..j], r)
    ensures ss[j].reqs[r].m.isFinishing <==> SerializerSteps(acts[i..j], r) < StepsLeft(ss[i].reqs[r])
    decreases j
  {
    hide Apply, Inv, Enabled, StepsLeft, SerializerStep;
    if i < j {
      ServingEnds(ss, acts, i, j - 1, r);
      InvAt(ss, acts, j - 1);
      assert StepOf(ss[j - 1], acts[j - 1], ss[j]);
      BeganStep(ss[j - 1], acts[j - 1], r);
      assert acts[i..j][..j - i - 1] == acts[i..j - 1];
    }
    InvAt(ss, acts, j);
    BeganAt(ss[j], r);
  }

  lemma BeganAt(s: Sys, r: RequestId)
    requires Inv(s) && r in s.reqs && s.reqs[r].log.began
    ensures StepsLeft(s.reqs[r]) == 0 <==> !s.reqs[r].m.isFinishing
  {
    hide TablesOk, TasksOk, HandlersOk, AttemptsOk, StepsLeft;
    assert RequestOk(s.reqs[r], Mapped(s, r));
    NoStepsLeft(s.reqs[r]);
  }

  /** One step of it, also when the serving is over. */
  lemma BeganStep(s: Sys, a: Action, r: RequestId)
    requires Inv(s) && Enabled(s, a) && r in s.reqs && s.reqs[r].log.began
    ensures r in Apply(s, a).reqs && Apply(s, a).reqs[r].log.began
    ensures StepsLeft(Apply(s, a).reqs[r]) == StepsLeft(s.reqs[r]) - (if SerializerStep(a, r) then 1 else 0)
  {
    hide TablesOk, TasksOk, RunLocal, HandlersOk, AttemptsOk, Apply, StepsLeft, LogGrows;
    assert RequestOk(s.reqs[r], Mapped(s, r));
    KeepsBegun(s, a, r);
    if s.reqs[r].m.isFinishing {
      ServingStep(s, a, r);
    } else {
      if SerializerStep(a, r) {
        if a.w.Serialize? {
          SerializeStep(s.reqs[r], a.w.handler, a.choice);
        } else {
          SerializedStep(s.reqs[r], a.w.handler, a.choice);
        }
      }
      ServedStep(s, a, r);
      BeganAt(s, r);
      InvStep(s, a);
      BeganAt(Apply(s, a), r);
    }
  }

  lemma KeepsBegun(s: Sys, a: Action, r: RequestId)
    requires Inv(s) && Enabled(s, a) && r in s.reqs && s.reqs[r].log.began
    ensures r in Apply(s, a).reqs && Apply(s, a).reqs[r].log.began
  {
    hide TablesOk, TasksOk, RequestOk, Apply;
    StepGrows(s, a, r);
  }
}
