/** What every step keeps about a single request: its handlers run once and in
    order, and there is at most one attempt at a time. */
module AfOneRequest {
  import opened Wrappers
  import opened AfTaskMap
  import opened AfRequest
  import opened AfLifecycle

  // ---------------------------------------------------------------------
  // Invariants of one request
  // ---------------------------------------------------------------------

  /** How many attempts are under way before or after their task. */
  function Chains(q: Req): nat {
    q.queue[Chain(Performing)] + q.queue[Chain(SettingUp)] + q.queue[Chain(Creating)] + q.queue[Chain(Making)]
    + q.queue[Chain(Failing)] + q.queue[Chain(Deciding)] + q.queue[Chain(Retrying)]
  }

  /** How often a handler waits to be serialized or to be done. */
  function Pending(q: Req, h: nat): nat {
    q.queue[Serialize(h)] + q.queue[Serialized(h)]
  }

  /** Handlers: before finish nothing has run; in between they run one at a time
      and in order; and in the end each has run and been called once, in order. */
  ghost predicate HandlersOk(q: Req) {
    if !q.log.began then NotServed(q) else if q.m.isFinishing then Serving(q) else Served(q)
  }

  ghost predicate NotServed(q: Req) {
    && q.m.responseSerializers == q.log.attached && q.m.responseSerializerCompletions == []
    && !q.m.isFinishing && !q.m.responseSerializerProcessingFinished && q.m.state != Finished
    && q.log.ran == [] && q.log.called == []
    && forall h :: Pending(q, h) == 0
  }

  ghost predicate Serving(q: Req) {
    var k := |q.m.responseSerializerCompletions|;
    && q.m.responseSerializers == q.log.attached && k < |q.log.attached|
    && q.m.responseSerializerCompletions == q.log.attached[..k]
    && q.log.ran == q.log.attached[..if q.queue[Serialize(q.log.attached[k])] > 0 then k else k + 1]
    && q.log.called == [] && q.m.state != Finished
    && forall h :: Pending(q, h) == if h == q.log.attached[k] then 1 else 0
  }

  ghost predicate Served(q: Req) {
    && q.m.responseSerializers == [] && q.m.responseSerializerCompletions == []
    && q.log.ran == q.log.attached && q.log.called == q.log.attached
    && (q.m.state == Finished || IsCancelled(q))
    && forall h :: Pending(q, h) == 0
  }

  /** `mapped`: the request has a task in the task map. There is at most one
      attempt at a time, none once a request that is not cancelled finishes,
      and a cancelled request is on its way to finish or is in the hands of its
      task or its retrier, unless its retry was dropped. */
  ghost predicate AttemptsOk(q: Req, mapped: bool) {
    && Chains(q) + (if mapped then 1 else 0) <= 1
    && (q.queue[CallFinish] > 0 ==> IsCancelled(q))
    && (q.log.began && !IsCancelled(q) ==> Chains(q) == 0 && !mapped)
    && (!q.log.began && !IsCancelled(q) ==> !q.log.dropped && Chains(q) + (if mapped then 1 else 0) == 1)
    && (!q.log.began && IsCancelled(q) && !q.log.dropped && q.queue[CallFinish] == 0 ==>
          mapped || q.queue[Chain(Deciding)] + q.queue[Chain(Retrying)] == 1)
    && (q.log.dropped ==> IsCancelled(q) && !q.log.began && Chains(q) == 0 && !mapped && q.queue[CallFinish] == 0)
  }

  ghost predicate RequestOk(q: Req, mapped: bool) {
    HandlersOk(q) && AttemptsOk(q, mapped)
  }

  // ---------------------------------------------------------------------
  // Steps
  // ---------------------------------------------------------------------

  /** The step calls finish. */
  predicate Finishes(w: Work, c: Choice) {
    w.CallFinish? || (w == Chain(Failing) && !c.hasError) || (w == Chain(Deciding) && !c.retry)
  }

  /** The phase in which an attempt goes on, if it does. */
  function NextPhase(q: Req, phase: Phase, c: Choice): Option<Phase> {
    match phase
    case SettingUp =>
      if c.createFails then Some(Failing)
      else if IsCancelled(q) then None
      else Some(if c.adaptFails then Failing else Creating)
    case Failing => Some(Deciding)
    case Deciding => Some(Retrying)
    case _ =>
      if IsCancelled(q) then None else if phase == Performing then Some(SettingUp) else Some(Making)
  }

  function Going(q: Req, w: Work, next: Option<Phase>): Req {
    if next.Some? then Move(q, w, Chain(next.value)) else Without(q, w)
  }

  /** What a step that is neither a serializer's nor a task's can do: finish,
      try again, or else end the attempt or go on with it. */
  lemma FinishingIs(q: Req, w: Work, c: Choice)
    requires Finishes(w, c)
    ensures RunLocal(q, w, c) == FinishRequest(Without(q, w))
  {
    hide FinishRequest, Without;
  }

  lemma RetryingIs(q: Req, c: Choice)
    ensures RunLocal(q, Chain(Retrying), c) ==
            if IsCancelled(q) then DropRetry(q) else Move(q.(m := Reset(q.m)), Chain(Retrying), Chain(Performing))
  {
    hide DropRetry, Reset, Move;
  }

  lemma GoingIs(q: Req, phase: Phase, c: Choice)
    requires !Finishes(Chain(phase), c) && phase != Making && phase != Retrying
    ensures RunLocal(q, Chain(phase), c) == Going(q, Chain(phase), NextPhase(q, phase, c))
  {
    hide FinishRequest;
    if phase != Failing { hide Move, Without; }
  }

  // ---------------------------------------------------------------------
  // Handlers
  // ---------------------------------------------------------------------

  lemma PostedOne(p: Post)
    ensures Posted([]) == multiset{}
    ensures Posted([p]) == match p
                           case PostFinish => multiset{CallFinish}
                           case PostSerialize(h) => multiset{Serialize(h)}
                           case PostResumeIfStarting => multiset{StartIfAsked}
                           case PostProcessNext => multiset{}
  {
    assert [p][1..] == [];
  }

  /** processNextResponseSerializer on a request: the next serializer, ... */
  function WithNext(q: Req): Req
    requires |q.m.responseSerializerCompletions| < |q.m.responseSerializers|
  {
    q.(queue := q.queue + multiset{Serialize(q.m.responseSerializers[|q.m.responseSerializerCompletions|])})
  }

  /** ... or all completions and the end. */
  function AtEnd(q: Req): Req {
    var state := if q.m.state.CanTransitionTo(Finished) then Finished else q.m.state;
    q.(m := MutableState(state, q.m.tasks, [], [], true, false),
       log := q.log.(called := q.log.called + q.m.responseSerializerCompletions))
  }

  function Processed(q: Req): Req {
    if |q.m.responseSerializerCompletions| < |q.m.responseSerializers| then WithNext(q) else AtEnd(q)
  }

  lemma ProcessIs(q: Req)
    ensures Settle(q, ProcessEffect(q.m)) == Processed(q)
  {
    var k := |q.m.responseSerializerCompletions|;
    assert q.log.called + [] == q.log.called;
    if k < |q.m.responseSerializers| { PostedOne(PostSerialize(q.m.responseSerializers[k])); }
  }

  lemma FinishIs(q: Req)
    ensures FinishRequest(q) ==
            if q.m.isFinishing then q.(log := q.log.(began := true))
            else Processed(q.(m := q.m.(isFinishing := true), log := q.log.(began := true)))
  {
    var q1 := q.(m := q.m.(isFinishing := true), log := q.log.(began := true));
    ProcessIs(q1);
    assert q.log.called + [] == q.log.called;
  }

  lemma NextPending(q: Req, h: nat)
    requires |q.m.responseSerializerCompletions| < |q.m.responseSerializers|
    ensures var next := q.m.responseSerializers[|q.m.responseSerializerCompletions|];
            && Pending(WithNext(q), h) == Pending(q, h) + (if h == next then 1 else 0)
            && WithNext(q).queue[Serialize(h)] == q.queue[Serialize(h)] + (if h == next then 1 else 0)
  {
  }

  /** Ready to go on with handler number `k`. */
  ghost predicate Between(q: Req) {
    var k := |q.m.responseSerializerCompletions|;
    && q.log.began && q.m.isFinishing
    && q.m.responseSerializers == q.log.attached && k <= |q.log.attached|
    && q.m.responseSerializerCompletions == q.log.attached[..k] == q.log.ran
    && q.log.called == [] && q.m.state != Finished
    && forall h :: Pending(q, h) == 0
  }

  lemma ProcessedOk(q: Req)
    requires Between(q)
    ensures HandlersOk(Processed(q))
  {
    var k := |q.m.responseSerializerCompletions|;
    if k < |q.log.attached| {
      forall h ensures Pending(WithNext(q), h) == if h == q.log.attached[k] then 1 else 0 {
        NextPending(q, h);
      }
      NextPending(q, q.log.attached[k]);
      assert Serving(WithNext(q));
    } else {
      assert q.log.attached[..k] == q.log.attached;
      forall h ensures Pending(AtEnd(q), h) == 0 { assert Pending(q, h) == 0; }
      assert Served(AtEnd(q));
    }
  }

  lemma FinishHandlers(q: Req)
    requires HandlersOk(q)
    ensures HandlersOk(FinishRequest(q))
  {
    FinishIs(q);
    var q1 := q.(m := q.m.(isFinishing := true), log := q.log.(began := true));
    forall h ensures Pending(q1, h) == Pending(q, h) {}
    if !q.log.began {
      assert q.log.attached[..0] == [];
      ProcessedOk(q1);
    } else if !q.m.isFinishing {
      forall h ensures Pending(AtEnd(q1), h) == 0 { assert Pending(q, h) == 0; }
      assert Served(AtEnd(q1));
    }
  }

  /** A serializer has run. */
  lemma SerializeHandlers(q: Req, h: nat)
    requires HandlersOk(q) && q.queue[Serialize(h)] > 0
    ensures HandlersOk(Move(q.(log := q.log.(ran := q.log.ran + [h])), Serialize(h), Serialized(h)))
  {
    var q1 := Move(q.(log := q.log.(ran := q.log.ran + [h])), Serialize(h), Serialized(h));
    assert Pending(q, h) > 0;
    forall x ensures Pending(q1, x) == Pending(q, x) {}
    var k := |q.m.responseSerializerCompletions|;
    assert Serving(q) && h == q.log.attached[k];
    assert q.log.attached[..k] + [h] == q.log.attached[..k + 1];
    assert Serving(q1);
  }

  /** The request when the completion of a handler has been added. */
  function Noted(q: Req, h: nat): Req {
    Without(q, Serialized(h)).(m := q.m.(responseSerializerCompletions := q.m.responseSerializerCompletions + [h]))
  }

  lemma SerializedIs(q: Req, h: nat)
    ensures Settle(Without(q, Serialized(h)), DidCompleteEffect(q.m, h)) == Processed(Noted(q, h))
  {
    hide Processed, ProcessEffect;
    ProcessIs(Noted(q, h));
  }

  /** It is done: the next one, or the end. */
  lemma SerializedHandlers(q: Req, h: nat)
    requires HandlersOk(q) && q.queue[Serialized(h)] > 0
    ensures HandlersOk(Settle(Without(q, Serialized(h)), DidCompleteEffect(q.m, h)))
  {
    hide Settle, DidCompleteEffect, Processed;
    var q1 := Noted(q, h);
    SerializedIs(q, h);
    assert Pending(q, h) > 0;
    var k := |q.m.responseSerializerCompletions|;
    assert Serving(q) && h == q.log.attached[k];
    assert q.log.attached[..k] + [h] == q.log.attached[..k + 1];
    forall x ensures Pending(q1, x) == 0 { assert Pending(q, x) == if x == h then 1 else 0; }
    ProcessedOk(q1);
  }

  /** Nothing that concerns handlers differs. */
  ghost predicate SameHandlers(q: Req, q': Req) {
    && q'.m.responseSerializers == q.m.responseSerializers
    && q'.m.responseSerializerCompletions == q.m.responseSerializerCompletions
    && q'.m.isFinishing == q.m.isFinishing
    && q'.m.responseSerializerProcessingFinished == q.m.responseSerializerProcessingFinished
    && (q'.m.state == q.m.state || (q.m.state != Finished && !IsCancelled(q) && q'.m.state != Finished))
    && q'.log.(dropped := false) == q.log.(dropped := false)
    && forall h :: q'.queue[Serialize(h)] == q.queue[Serialize(h)] && Pending(q', h) == Pending(q, h)
  }

  lemma HandlersStay(q: Req, q': Req)
    requires HandlersOk(q) && SameHandlers(q, q')
    ensures HandlersOk(q')
  {
    hide Pending;
  }

  lemma AttachHandlers(q: Req, h: nat)
    requires HandlersOk(q) && !q.log.began
    ensures HandlersOk(Attached(q, h))
    ensures Attached(q, h).queue == q.queue + if q.m.state in {Initialized, Suspended} then multiset{StartIfAsked} else multiset{}
  {
    PostedOne(PostResumeIfStarting);
    var posts := AppendEffect(q.m, h).posts;
    assert posts == if q.m.state in {Initialized, Suspended} then [PostResumeIfStarting] else [];
    forall x ensures Pending(Attached(q, h), x) == 0 { assert Pending(q, x) == 0; }
  }

  // ---------------------------------------------------------------------
  // Attempts
  // ---------------------------------------------------------------------

  lemma FinishAttempts(q: Req, mapped: bool)
    requires Chains(q) + (if mapped then 1 else 0) <= 1 && (q.queue[CallFinish] > 0 ==> IsCancelled(q)) && !q.log.dropped
    requires IsCancelled(q) || (Chains(q) == 0 && !mapped)
    ensures AttemptsOk(FinishRequest(q), mapped)
  {
    FinishIs(q);
  }

  lemma RetryOrFinishAttempts(q: Req, hasError: bool)
    requires Chains(q) == 0 && (q.queue[CallFinish] > 0 ==> IsCancelled(q)) && !q.log.dropped
    requires q.log.began && hasError ==> IsCancelled(q)
    ensures AttemptsOk(RetryOrFinish(q, hasError), false)
  {
    if !hasError { FinishAttempts(q, false); }
  }

  /** One step on the way of a request. */
  lemma ChainAttempts(q: Req, phase: Phase, c: Choice, mapped: bool)
    requires AttemptsOk(q, mapped) && q.queue[Chain(phase)] > 0 && phase != Making
    ensures AttemptsOk(RunLocal(q, Chain(phase), c), mapped)
  {
    hide FinishRequest, AttemptsOk;
    if phase == Failing || phase == Deciding {
      EndAttempts(q, phase, c, mapped);
    } else if phase == Retrying {
      RetryAttempts(q, mapped);
    } else {
      EarlyAttempts(q, phase, SettingUp, mapped);
      EarlyAttempts(q, phase, Failing, mapped);
      EarlyAttempts(q, phase, Creating, mapped);
      EarlyAttempts(q, phase, Making, mapped);
    }
  }

  lemma EarlyAttempts(q: Req, a: Phase, b: Phase, mapped: bool)
    requires AttemptsOk(q, mapped) && q.queue[Chain(a)] > 0
    requires (a == Performing || a == SettingUp || a == Creating) && b in {SettingUp, Creating, Making, Failing}
    ensures AttemptsOk(Move(q, Chain(a), Chain(b)), mapped)
    ensures IsCancelled(q) ==> AttemptsOk(Without(q, Chain(a)), mapped)
  {
  }

  lemma RetryAttempts(q: Req, mapped: bool)
    requires AttemptsOk(q, mapped) && q.queue[Chain(Retrying)] > 0
    ensures IsCancelled(q) ==> AttemptsOk(DropRetry(q), mapped)
    ensures !IsCancelled(q) ==> AttemptsOk(Move(q.(m := Reset(q.m)), Chain(Retrying), Chain(Performing)), mapped)
  {
  }

  lemma EndAttempts(q: Req, phase: Phase, c: Choice, mapped: bool)
    requires AttemptsOk(q, mapped) && q.queue[Chain(phase)] > 0 && (phase == Failing || phase == Deciding)
    ensures AttemptsOk(RunLocal(q, Chain(phase), c), mapped)
  {
    hide FinishRequest;
    var q1 := Without(q, Chain(phase));
    if phase == Failing {
      RetryOrFinishAttempts(q1, c.hasError);
    } else {
      FinishAttempts(q1, false);
    }
  }

  lemma WithoutHandlers(q: Req, phase: Phase)
    requires HandlersOk(q)
    ensures HandlersOk(Without(q, Chain(phase)))
  {
    forall h ensures Pending(Without(q, Chain(phase)), h) == Pending(q, h) {}
    HandlersStay(q, Without(q, Chain(phase)));
  }

  lemma WithHandlers(q: Req, w: Work)
    requires HandlersOk(q) && !w.Serialize? && !w.Serialized?
    ensures HandlersOk(q.(queue := q.queue + multiset{w}))
  {
    var q1 := q.(queue := q.queue + multiset{w});
    forall h ensures Pending(q1, h) == Pending(q, h) {}
    HandlersStay(q, q1);
  }

  lemma ChainHandlers(q: Req, phase: Phase, c: Choice, mapped: bool)
    requires RequestOk(q, mapped) && q.queue[Chain(phase)] > 0 && phase != Making
    ensures HandlersOk(RunLocal(q, Chain(phase), c))
  {
    hide HandlersOk, FinishRequest;
    var q1 := Without(q, Chain(phase));
    WithoutHandlers(q, phase);
    if phase == Failing {
      if c.hasError { WithHandlers(q1, Chain(Deciding)); } else { FinishHandlers(q1); }
    } else if phase == Deciding {
      if c.retry { WithHandlers(q1, Chain(Retrying)); } else { FinishHandlers(q1); }
    } else if phase == Retrying {
      if IsCancelled(q) {
        HandlersStay(q1, DropRetry(q));
      } else {
        ResetIdle(q);
        WithHandlers(q1, Chain(Performing));
      }
    } else {
      WithHandlers(q1, Chain(SettingUp));
      WithHandlers(q1, Chain(Failing));
      WithHandlers(q1, Chain(Creating));
      WithHandlers(q1, Chain(Making));
    }
  }

  /** A retry that goes ahead finds nothing to reset. */
  lemma ResetIdle(q: Req)
    requires HandlersOk(q) && !q.log.began
    ensures Reset(q.m) == q.m
  {
  }

  /** Every queued step but those that touch tasks keeps the request in order. */
  lemma RunLocalOk(q: Req, w: Work, c: Choice, mapped: bool)
    requires RequestOk(q, mapped) && q.queue[w] > 0 && w != Chain(Making) && !w.AppendTask? && !w.UpdateStates?
    requires w != StartIfAsked
    ensures RequestOk(RunLocal(q, w, c), mapped)
  {
    hide HandlersOk, FinishRequest, AttemptsOk;
    if w.Chain? {
      ChainAttempts(q, w.phase, c, mapped);
      ChainHandlers(q, w.phase, c, mapped);
    } else if w.CallFinish? {
      CallFinishOk(q, mapped);
    } else {
      SerializerOk(q, w, c, mapped);
    }
  }

  lemma CallFinishOk(q: Req, mapped: bool)
    requires RequestOk(q, mapped) && q.queue[CallFinish] > 0
    ensures RequestOk(FinishRequest(Without(q, CallFinish)), mapped)
  {
    hide FinishRequest;
    var q1 := Without(q, CallFinish);
    forall h ensures Pending(q1, h) == Pending(q, h) {}
    HandlersStay(q, q1);
    FinishHandlers(q1);
    FinishAttempts(q1, mapped);
  }

  /** Nothing that concerns attempts differs. */
  ghost predicate SameAttempts(q: Req, q': Req) {
    && (forall p: Phase :: q'.queue[Chain(p)] == q.queue[Chain(p)])
    && q'.queue[CallFinish] == q.queue[CallFinish] && IsCancelled(q') == IsCancelled(q)
    && q'.log.began == q.log.began && q'.log.dropped == q.log.dropped
  }

  lemma AttemptsStay(q: Req, q': Req, mapped: bool)
    requires AttemptsOk(q, mapped) && SameAttempts(q, q')
    ensures AttemptsOk(q', mapped)
  {
  }

  lemma SerializerOk(q: Req, w: Work, c: Choice, mapped: bool)
    requires RequestOk(q, mapped) && q.queue[w] > 0 && (w.Serialize? || w.Serialized?)
    ensures RequestOk(RunLocal(q, w, c), mapped)
  {
    hide HandlersOk, AttemptsOk;
    if w.Serialize? {
      SerializeHandlers(q, w.handler);
      AttemptsStay(q, RunLocal(q, w, c), mapped);
    } else {
      SerializedHandlers(q, w.handler);
      SerializedAttempts(q, w.handler);
      AttemptsStay(q, RunLocal(q, w, c), mapped);
    }
  }

  lemma SerializedAttempts(q: Req, h: nat)
    ensures SameAttempts(q, Settle(Without(q, Serialized(h)), DidCompleteEffect(q.m, h)))
  {
    hide Settle, DidCompleteEffect;
    SerializedIs(q, h);
  }
}
