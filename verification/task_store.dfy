/** The task store of src/context/taskContext.js: its initial state and
    `taskReducer`, a total function from a state and an action to the next
    state. The async action creators that dispatch these actions are not
    part of this model. */
module TaskStore {
  import opened Values
  import opened Entities
  import Keyed

  /** `pageInfo`. `totalElements` and `pageSize` may end up `undefined`
      (see `Reduce`), which `None` stands for. */
  datatype PageInfo = PageInfo(totalPages: nat, totalElements: Option<nat>, currentPage: nat, pageSize: Option<nat>)

  datatype State = State(tasks: seq<Task>, task: Option<Task>, loading: bool, error: Option<string>, pageInfo: PageInfo)

  /** `initialState` (lines 8-19). */
  const Initial: State := State([], None, false, None, PageInfo(0, Some(0), 0, Some(10)))

  datatype Pageable = Pageable(pageNumber: nat, pageSize: nat)

  /** The body of a task-list response: a bare array, or a page object with
      `content`, `totalPages`, `totalElements` and an optional `pageable`. */
  datatype TaskPage =
    | Plain(items: seq<Task>)
    | Paged(content: seq<Task>, totalPages: nat, totalElements: nat, pageable: Option<Pageable>)

  datatype Action =
    | FetchTasksRequest | FetchTaskRequest | CreateTaskRequest | UpdateTaskRequest | DeleteTaskRequest
    | FetchTasksSuccess(page: TaskPage)
    | FetchTaskSuccess(fetched: Task)
    | CreateTaskSuccess(created: Task)
    | UpdateTaskSuccess(updated: Task)
    | DeleteTaskSuccess(deleted: Id)
    | TaskError(message: string)
    | ClearTaskError
    | ClearCurrentTask
    /** An action type the reducer has no case for (its `default`). */
    | Unhandled(name: string)
  {
    predicate IsRequest() {
      FetchTasksRequest? || FetchTaskRequest? || CreateTaskRequest? || UpdateTaskRequest? || DeleteTaskRequest?
    }

    predicate IsSuccess() {
      FetchTasksSuccess? || FetchTaskSuccess? || CreateTaskSuccess? || UpdateTaskSuccess? || DeleteTaskSuccess?
    }

    /** The actions that set `loading` (requests raise it, successes and
        errors lower it). */
    predicate SetsLoading() {
      IsRequest() || IsSuccess() || TaskError?
    }
  }

  /** `n || fallback` for a number. */
  function NumberOr(n: nat, fallback: nat): nat {
    if n != 0 then n else fallback
  }

  /** `action.payload.content || action.payload` and the `pageInfo` the
      reducer derives from the payload (lines 36-43). A bare array has no
      `totalPages`, `totalElements` or `pageable`, so its own length stands
      in for the element count and page size. A page object has no
      `length`, so a zero `totalElements` or a missing or zero page size
      leaves `undefined` behind. */
  function PageContents(page: TaskPage): seq<Task> {
    match page
    case Plain(items) => items
    case Paged(content, _, _, _) => content
  }

  function DerivePageInfo(page: TaskPage): PageInfo {
    match page
    case Plain(items) => PageInfo(1, Some(|items|), 0, Some(|items|))
    case Paged(_, totalPages, totalElements, pageable) =>
      PageInfo(
        NumberOr(totalPages, 1),
        if totalElements != 0 then Some(totalElements) else None,
        if pageable.Some? then pageable.value.pageNumber else 0,
        if pageable.Some? && pageable.value.pageSize != 0 then Some(pageable.value.pageSize) else None)
  }

  /** `taskReducer` (lines 22-99). */
  function Reduce(s: State, a: Action): (r: State)
    // requests: start loading, clear the error, keep the data
    ensures a.IsRequest() ==>
      r.loading && r.error == None && r.tasks == s.tasks && r.task == s.task && r.pageInfo == s.pageInfo
    // every success ends loading without an error
    ensures a.IsSuccess() ==> !r.loading && r.error == None
    // a list fetch replaces the list and the page information, nothing else
    ensures a.FetchTasksSuccess? ==>
      r.tasks == PageContents(a.page) && r.pageInfo == DerivePageInfo(a.page) && r.task == s.task
    // a single fetch selects the task
    ensures a.FetchTaskSuccess? ==> r.task == Some(a.fetched) && r.tasks == s.tasks && r.pageInfo == s.pageInfo
    // a created task goes in FRONT of the list
    ensures a.CreateTaskSuccess? ==>
      && |r.tasks| == |s.tasks| + 1 && r.tasks[0] == a.created && r.tasks[1..] == s.tasks
      && r.task == s.task && r.pageInfo == s.pageInfo
    // an update swaps in the new record wherever the id matches
    ensures a.UpdateTaskSuccess? ==>
      && |r.tasks| == |s.tasks|
      && (forall i :: 0 <= i < |s.tasks| ==>
            r.tasks[i] == if s.tasks[i].id == a.updated.id then a.updated else s.tasks[i])
      && r.task == (if s.task.Some? && s.task.value.id == a.updated.id then Some(a.updated) else s.task)
      && r.pageInfo == s.pageInfo
    // a delete keeps exactly the other tasks and drops a matching selection
    ensures a.DeleteTaskSuccess? ==>
      && (forall i :: 0 <= i < |r.tasks| ==> r.tasks[i] in s.tasks && r.tasks[i].id != a.deleted)
      && (forall i :: 0 <= i < |s.tasks| && s.tasks[i].id != a.deleted ==> s.tasks[i] in r.tasks)
      && (r.task == None <==> s.task == None || s.task.value.id == a.deleted)
      && (r.task != None ==> r.task == s.task)
      && r.pageInfo == s.pageInfo
    ensures a.TaskError? ==> r == s.(loading := false, error := Some(a.message))
    ensures a.ClearTaskError? ==> r == s.(error := None)
    ensures a.ClearCurrentTask? ==> r == s.(task := None)
    ensures a.Unhandled? ==> r == s
  {
    match a
    case FetchTasksRequest | FetchTaskRequest | CreateTaskRequest | UpdateTaskRequest | DeleteTaskRequest =>
      s.(loading := true, error := None)
    case FetchTasksSuccess(page) =>
      s.(tasks := PageContents(page), pageInfo := DerivePageInfo(page), loading := false, error := None)
    case FetchTaskSuccess(t) =>
      s.(task := Some(t), loading := false, error := None)
    case CreateTaskSuccess(t) =>
      s.(tasks := [t] + s.tasks, loading := false, error := None)
    case UpdateTaskSuccess(t) =>
      s.(tasks := Keyed.Replace(s.tasks, TaskKey, t),
         task := if s.task.Some? && s.task.value.id == t.id then Some(t) else s.task,
         loading := false, error := None)
    case DeleteTaskSuccess(id) =>
      Keyed.RemoveKeepsOthers(s.tasks, TaskKey, id);
      s.(tasks := Keyed.Remove(s.tasks, TaskKey, id),
         task := if s.task.Some? && s.task.value.id == id then None else s.task,
         loading := false, error := None)
    case TaskError(message) => s.(loading := false, error := Some(message))
    case ClearTaskError => s.(error := None)
    case ClearCurrentTask => s.(task := None)
    case Unhandled(_) => s
  }

  // ------------------------------------------------------------------ properties

  /** A bare-array payload: the list becomes the array, one page holding all
      of it, on page 0 (lines 36-43). */
  lemma FetchPlainArray(s: State, items: seq<Task>)
    ensures var r := Reduce(s, FetchTasksSuccess(Plain(items)));
      && r.tasks == items
      && r.pageInfo == PageInfo(1, Some(|items|), 0, Some(|items|))
  {
  }

  /** A page object reporting zero pages is recorded as one page. */
  lemma FetchPagedZeroPages(s: State, content: seq<Task>, totalElements: nat, pageable: Option<Pageable>)
    ensures Reduce(s, FetchTasksSuccess(Paged(content, 0, totalElements, pageable))).pageInfo.totalPages == 1
  {
  }

  /** Applying the same update twice is applying it once. */
  lemma UpdateIdempotent(s: State, t: Task)
    ensures Reduce(Reduce(s, UpdateTaskSuccess(t)), UpdateTaskSuccess(t)) == Reduce(s, UpdateTaskSuccess(t))
  {
  }

  /** Applying the same delete twice is applying it once. */
  lemma DeleteIdempotent(s: State, id: Id)
    ensures Reduce(Reduce(s, DeleteTaskSuccess(id)), DeleteTaskSuccess(id)) == Reduce(s, DeleteTaskSuccess(id))
  {
    Keyed.RemoveIdempotent(s.tasks, TaskKey, id);
  }

  /** A delete keeps the surviving tasks in their old order: deleting from a
      concatenation deletes from each part. */
  lemma DeleteKeepsOrder(s: State, id: Id, front: seq<Task>, back: seq<Task>)
    requires s.tasks == front + back
    ensures Reduce(s, DeleteTaskSuccess(id)).tasks
         == Keyed.Remove(front, TaskKey, id) + Keyed.Remove(back, TaskKey, id)
  {
    Keyed.RemoveAppend(front, back, TaskKey, id);
  }

  /** Distinct ids in the list stay distinct through updates, deletes, and
      creates of a task whose id is new. */
  lemma KeepsUniqueIds(s: State, a: Action)
    requires Keyed.UniqueKeys(s.tasks, TaskKey)
    requires a.CreateTaskSuccess? ==> forall i :: 0 <= i < |s.tasks| ==> s.tasks[i].id != a.created.id
    requires a.FetchTasksSuccess? ==> Keyed.UniqueKeys(PageContents(a.page), TaskKey)
    ensures Keyed.UniqueKeys(Reduce(s, a).tasks, TaskKey)
  {
    match a
    case UpdateTaskSuccess(t) => Keyed.ReplaceKeepsUnique(s.tasks, TaskKey, t);
    case DeleteTaskSuccess(id) => Keyed.RemoveKeepsUnique(s.tasks, TaskKey, id);
    case CreateTaskSuccess(t) =>
      var r := Reduce(s, a).tasks;
      forall i, j | 0 <= i < j < |r|
        ensures TaskKey(r[i]) != TaskKey(r[j])
      {
        assert r[j] == s.tasks[j - 1];
        if i > 0 {
          assert r[i] == s.tasks[i - 1];
        }
      }
    case _ =>
  }

  // ------------------------------------------------------------------ deleting from the detail page

  /** The task detail page deletes with the route parameter, a string
      (src/components/tasks/TaskDetail.js:53), and the action creator
      dispatches it as the payload (line 204). When the API hands out
      numeric ids, that string is never `===` to a task's id: the delete
      removes nothing and leaves the deleted task selected. */
  lemma RouteIdDeleteKeepsNumericTasks(s: State, routeId: string)
    requires forall i :: 0 <= i < |s.tasks| ==> s.tasks[i].id.Num?
    requires s.task.Some? ==> s.task.value.id.Num?
    ensures var r := Reduce(s, DeleteTaskSuccess(Str(routeId)));
      r.tasks == s.tasks && r.task == s.task
  {
    Keyed.RemoveAbsent(s.tasks, TaskKey, Str(routeId));
  }

  /** Deleting with the id of the task on show, whatever its kind, removes
      every task with that id from the list and clears the selection. */
  lemma DeleteByShownIdRemovesIt(s: State, shown: Task)
    requires s.task == Some(shown)
    ensures var r := Reduce(s, DeleteTaskSuccess(shown.id));
      && r.task == None
      && (forall i :: 0 <= i < |r.tasks| ==> r.tasks[i].id != shown.id)
      && (forall i :: 0 <= i < |s.tasks| && s.tasks[i].id != shown.id ==> s.tasks[i] in r.tasks)
  {
  }

  // ------------------------------------------------------------------ runs

  /** The state after dispatching `actions` in order. */
  function Run(s: State, actions: seq<Action>): State
    decreases |actions|
  {
    if |actions| == 0 then s else Reduce(Run(s, actions[..|actions| - 1]), actions[|actions| - 1])
  }

  /** The last action of `actions` that sets `loading`, if any. */
  function LastLoadingAction(actions: seq<Action>): Option<Action>
    decreases |actions|
  {
    if |actions| == 0 then None
    else if actions[|actions| - 1].SetsLoading() then Some(actions[|actions| - 1])
    else LastLoadingAction(actions[..|actions| - 1])
  }

  /** After any sequence of actions the store is loading exactly when the
      last action that touched `loading` was a request (or, if none did,
      when it was loading to begin with). */
  lemma {:induction false} LoadingFollowsLastRequest(s: State, actions: seq<Action>)
    ensures Run(s, actions).loading == match LastLoadingAction(actions)
                                       case Some(a) => a.IsRequest()
                                       case None => s.loading
    decreases |actions|
  {
    if |actions| > 0 {
      LoadingFollowsLastRequest(s, actions[..|actions| - 1]);
    }
  }
}
