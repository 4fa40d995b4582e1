/** The parts of Session.swift that run on the root queue: creating a task for a
    request, and the two events of a task. */
module AfSession {
  import opened Wrappers
  import opened AfTaskMap
  import opened AfRequest

  /** Session with its task map and the completion closures that wait for
      metrics, each known by the request it belongs to. */
  class Session {
    const requestTaskMap: RequestTaskMap
    var waitingCompletions: map<TaskId, RequestId>

    constructor ()
      ensures fresh(requestTaskMap) && requestTaskMap.Value() == EMPTY && waitingCompletions == map[]
    {
      requestTaskMap := new RequestTaskMap();
      waitingCompletions := map[];
    }

    /** didCreateURLRequest: nothing for a cancelled request; otherwise the new
        task is entered in the map and in the request, and obeys its state. */
    method DidCreateURLRequest(request: Request, id: RequestId, task: URLSessionTask) returns (created: bool)
      requires task.state == Paused
      modifies requestTaskMap, request, task
      ensures created == (old(request.state) != Cancelled)
      ensures !created ==> unchanged(requestTaskMap) && unchanged(request) && unchanged(task)
      ensures created ==>
                && requestTaskMap.Value() == old(requestTaskMap.Value()).Assign(id, task.id)
                && request.Value() == old(request.Value()).(tasks := old(request.Value()).tasks + [task.id])
                && request.tasks == old(request.tasks) + [task] && request.state == old(request.state)
                && task.state == UpdateTask(request.state, Paused) && Obeys(request.state, task.state)
    {
      if request.state == Cancelled { return false; }
      var _ := requestTaskMap.SetTask(id, Some(task.id));
      request.DidCreateTask(task);
      UpdateStatesForTask(task, request);
      return true;
    }

    /** updateStatesForTask */
    method UpdateStatesForTask(task: URLSessionTask, request: Request)
      modifies task
      ensures task.state == UpdateTask(request.state, old(task.state))
      ensures Reached(request.state, old(task.state)) ==> Obeys(request.state, task.state)
    {
      match request.state
      case Initialized =>
      case Finished =>
      case Resumed =>
        task.Resume();
      case Suspended =>
        task.Suspend();
      case Cancelled =>
        // Resume to ensure metrics are gathered.
        task.Resume();
        task.Cancel();
    }

    /** didGatherMetricsForTask: the waiting completion is called when this was
        the second event. */
    method DidGatherMetricsForTask(task: TaskId) returns (ok: bool, called: Option<RequestId>)
      modifies this, requestTaskMap
      ensures match old(requestTaskMap.Value()).AfterMetrics(task)
              case None => !ok
              case Some((table, disassociated)) =>
                && ok && requestTaskMap.Value() == table
                && called == (if disassociated && task in old(waitingCompletions)
                              then Some(old(waitingCompletions)[task]) else None)
                && waitingCompletions == (if disassociated
                                          then old(waitingCompletions) - {task} else old(waitingCompletions))
    {
      called := None;
      var didDisassociate;
      ok, didDisassociate := requestTaskMap.DisassociateIfNecessaryAfterGatheringMetrics(task);
      if ok && didDisassociate {
        if task in waitingCompletions { called := Some(waitingCompletions[task]); }
        waitingCompletions := waitingCompletions - {task};
      }
    }

    /** didCompleteTask: the completion is called now when this was the second
        event, and waits otherwise. */
    method DidCompleteTask(task: TaskId, completion: RequestId) returns (ok: bool, called: Option<RequestId>)
      modifies this, requestTaskMap
      ensures match old(requestTaskMap.Value()).AfterCompletion(task)
              case None => !ok
              case Some((table, disassociated)) =>
                && ok && requestTaskMap.Value() == table
                && called == (if disassociated then Some(completion) else None)
                && waitingCompletions == (if disassociated
                                          then old(waitingCompletions) else old(waitingCompletions)[task := completion])
    {
      called := None;
      var didDisassociate;
      ok, didDisassociate := requestTaskMap.DisassociateIfNecessaryAfterCompleting(task);
      if ok {
        if didDisassociate {
          called := Some(completion);
        } else {
          waitingCompletions := waitingCompletions[task := completion];
        }
      }
    }
  }
}
