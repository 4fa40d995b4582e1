/** The two-way map between requests and session tasks of RequestTaskMap.swift.
    A `fatalError` is a result of None or, in the class, `ok == false`. */
module AfTaskMap {
  import opened Wrappers

  type RequestId = nat
  type TaskId = nat

  /** (completed: Bool, metricsGathered: Bool) */
  datatype Events = Events(completed: bool, metricsGathered: bool)

  /** The value of the struct. */
  datatype Table = Table(
    tasksToRequests: map<TaskId, RequestId>,
    requestsToTasks: map<RequestId, TaskId>,
    taskEvents: map<TaskId, Events>)
  {
    /** Two-way and one-to-one, with events for exactly the mapped tasks. */
    ghost predicate Consistent() {
      && (forall t | t in tasksToRequests :: Paired(tasksToRequests[t], t))
      && (forall r | r in requestsToTasks :: Paired(r, requestsToTasks[r]))
      && taskEvents.Keys == tasksToRequests.Keys
    }

    ghost predicate Paired(r: RequestId, t: TaskId) {
      && t in tasksToRequests && tasksToRequests[t] == r
      && r in requestsToTasks && requestsToTasks[r] == t
    }

    /** self[request] = task */
    function Assign(r: RequestId, t: TaskId): Table {
      Table(tasksToRequests[t := r], requestsToTasks[r := t], taskEvents[t := Events(false, false)])
    }

    /** self[task] = nil */
    function Remove(t: TaskId): Option<Table> {
      if t !in tasksToRequests then None
      else Some(Table(tasksToRequests - {t}, requestsToTasks - {tasksToRequests[t]}, taskEvents - {t}))
    }

    /** self[request] = nil */
    function RemoveRequest(r: RequestId): Option<Table> {
      if r !in requestsToTasks then None
      else Some(Table(tasksToRequests - {requestsToTasks[r]}, requestsToTasks - {r}, taskEvents - {requestsToTasks[r]}))
    }

    /** disassociateIfNecessaryAfterGatheringMetricsForTask: the new table and
        whether the task was disassociated. */
    function AfterMetrics(t: TaskId): Option<(Table, bool)> {
      if t !in taskEvents || taskEvents[t].metricsGathered then None
      else if !taskEvents[t].completed then Some((this.(taskEvents := taskEvents[t := Events(false, true)]), false))
      else match Remove(t)
        case None => None
        case Some(table) => Some((table, true))
    }

    /** disassociateIfNecessaryAfterCompletingTask */
    function AfterCompletion(t: TaskId): Option<(Table, bool)> {
      if t !in taskEvents || taskEvents[t].completed then None
      else if !taskEvents[t].metricsGathered then Some((this.(taskEvents := taskEvents[t := Events(true, false)]), false))
      else match Remove(t)
        case None => None
        case Some(table) => Some((table, true))
    }
  }

  const EMPTY: Table := Table(map[], map[], map[])

  /** A new task may be assigned only to a request that has none. */
  lemma AssignKeeps(table: Table, r: RequestId, t: TaskId)
    requires table.Consistent() && t !in table.tasksToRequests
    ensures table.Assign(r, t).Consistent() <==> r !in table.requestsToTasks
  {
    var after := table.Assign(r, t);
    if r in table.requestsToTasks {
      var t' := table.requestsToTasks[r];
      assert table.Paired(r, t');
      assert t' in after.tasksToRequests && !after.Paired(r, t');
    } else {
      forall u | u in after.tasksToRequests ensures after.Paired(after.tasksToRequests[u], u) {
        if u != t { assert table.Paired(table.tasksToRequests[u], u); }
      }
      forall q | q in after.requestsToTasks ensures after.Paired(q, after.requestsToTasks[q]) {
        if q != r { assert table.Paired(q, table.requestsToTasks[q]); }
      }
    }
  }

  /** Either way of removing a pair removes just that pair. */
  lemma RemoveKeeps(table: Table, r: RequestId, t: TaskId)
    requires table.Consistent() && table.Paired(r, t)
    ensures table.Remove(t).Some? && table.RemoveRequest(r) == table.Remove(t)
    ensures var after := table.Remove(t).value;
            && after.Consistent()
            && after.tasksToRequests.Keys == table.tasksToRequests.Keys - {t}
            && after.requestsToTasks.Keys == table.requestsToTasks.Keys - {r}
            && (forall u | u in after.tasksToRequests ::
                  after.tasksToRequests[u] == table.tasksToRequests[u] && after.taskEvents[u] == table.taskEvents[u])
  {
    var after := table.Remove(t).value;
    forall u | u in after.tasksToRequests ensures after.Paired(after.tasksToRequests[u], u) {
      assert table.Paired(table.tasksToRequests[u], u);
    }
    forall q | q in after.requestsToTasks ensures after.Paired(q, after.requestsToTasks[q]) {
      assert table.Paired(q, table.requestsToTasks[q]);
    }
  }

  /** Each of the two events of a task disassociates it just when the other one
      came before, in whichever order they arrive; and only an unknown task or
      a repeated event is fatal. */
  lemma SecondEventDisassociates(table: Table, t: TaskId)
    requires table.Consistent()
    ensures table.AfterMetrics(t).Some? <==> t in table.tasksToRequests && !table.taskEvents[t].metricsGathered
    ensures table.AfterCompletion(t).Some? <==> t in table.tasksToRequests && !table.taskEvents[t].completed
    ensures table.AfterMetrics(t).Some? ==> var (after, gone) := table.AfterMetrics(t).value;
              after.Consistent() && gone == table.taskEvents[t].completed == (t !in after.tasksToRequests)
    ensures table.AfterCompletion(t).Some? ==> var (after, gone) := table.AfterCompletion(t).value;
              after.Consistent() && gone == table.taskEvents[t].metricsGathered == (t !in after.tasksToRequests)
  {
    if t in table.tasksToRequests {
      assert t in table.taskEvents;
      RemoveKeeps(table, table.tasksToRequests[t], t);
      EventsKeep(table, t, Events(false, true));
      EventsKeep(table, t, Events(true, false));
    } else {
      assert t !in table.taskEvents;
    }
  }

  lemma EventsKeep(table: Table, t: TaskId, e: Events)
    requires table.Consistent() && t in table.tasksToRequests
    ensures table.(taskEvents := table.taskEvents[t := e]).Consistent()
  {
    var after := table.(taskEvents := table.taskEvents[t := e]);
    forall u | u in after.tasksToRequests ensures after.Paired(after.tasksToRequests[u], u) {
      assert table.Paired(table.tasksToRequests[u], u);
    }
    forall q | q in after.requestsToTasks ensures after.Paired(q, after.requestsToTasks[q]) {
      assert table.Paired(q, table.requestsToTasks[q]);
    }
  }

  /** RequestTaskMap with its three dictionaries. */
  class RequestTaskMap {
    var tasksToRequests: map<TaskId, RequestId>
    var requestsToTasks: map<RequestId, TaskId>
    var taskEvents: map<TaskId, Events>

    ghost function Value(): Table
      reads this
    {
      Table(tasksToRequests, requestsToTasks, taskEvents)
    }

    constructor ()
      ensures Value() == EMPTY && Value().Consistent()
    {
      tasksToRequests, requestsToTasks, taskEvents := map[], map[], map[];
    }

    /** subscript(request).set */
    method SetTask(request: RequestId, newValue: Option<TaskId>) returns (ok: bool)
      modifies this
      ensures newValue.Some? ==> ok && Value() == old(Value()).Assign(request, newValue.value)
      ensures newValue.None? ==> old(Value()).RemoveRequest(request) == if ok then Some(Value()) else None
    {
      if newValue.None? {
        if request !in requestsToTasks { return false; }
        var task := requestsToTasks[request];
        requestsToTasks := requestsToTasks - {request};
        tasksToRequests := tasksToRequests - {task};
        taskEvents := taskEvents - {task};
        return true;
      }
      requestsToTasks := requestsToTasks[request := newValue.value];
      tasksToRequests := tasksToRequests[newValue.value := request];
      taskEvents := taskEvents[newValue.value := Events(false, false)];
      return true;
    }

    /** subscript(task).set */
    method SetRequest(task: TaskId, newValue: Option<RequestId>) returns (ok: bool)
      modifies this
      ensures newValue.Some? ==> ok && Value() == old(Value()).Assign(newValue.value, task)
      ensures newValue.None? ==> old(Value()).Remove(task) == if ok then Some(Value()) else None
    {
      if newValue.None? {
        if task !in tasksToRequests { return false; }
        var request := tasksToRequests[task];
        tasksToRequests := tasksToRequests - {task};
        requestsToTasks := requestsToTasks - {request};
        taskEvents := taskEvents - {task};
        return true;
      }
      tasksToRequests := tasksToRequests[task := newValue.value];
      requestsToTasks := requestsToTasks[newValue.value := task];
      taskEvents := taskEvents[task := Events(false, false)];
      return true;
    }

    method DisassociateIfNecessaryAfterGatheringMetrics(task: TaskId) returns (ok: bool, disassociated: bool)
      modifies this
      ensures old(Value()).AfterMetrics(task) == if ok then Some((Value(), disassociated)) else None
    {
      if task !in taskEvents { return false, false; }
      var events := taskEvents[task];
      if events.metricsGathered { return false, false; }
      if !events.completed {
        taskEvents := taskEvents[task := Events(false, true)];
        return true, false;
      }
      ok := SetRequest(task, None);
      return ok, true;
    }

    method DisassociateIfNecessaryAfterCompleting(task: TaskId) returns (ok: bool, disassociated: bool)
      modifies this
      ensures old(Value()).AfterCompletion(task) == if ok then Some((Value(), disassociated)) else None
    {
      if task !in taskEvents { return false, false; }
      var events := taskEvents[task];
      if events.completed { return false, false; }
      if !events.metricsGathered {
        taskEvents := taskEvents[task := Events(true, false)];
        return true, false;
      }
      ok := SetRequest(task, None);
      return ok, true;
    }
  }
}
