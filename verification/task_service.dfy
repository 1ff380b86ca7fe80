/** The request each call of src/api/taskService.js issues. The response
    (returned unchanged) and failures (propagated unchanged) belong to the
    HTTP client and are not part of this model. */
module TaskService {
  import opened Values
  import opened Http
  import TaskForm
  import Decimal

  const Tasks := "/tasks"

  /** The request body: the data the task form sends. */
  type Body = TaskForm.Payload

  /** `getTasks(page = 0, size = 10)` (lines 3-5). */
  function GetTasks(page: Option<nat>, size: Option<nat>): (r: Request<Body>)
    ensures r.verb == Get && r.body == None
  {
    Request(Get, Listing(Tasks, page, size), None)
  }

  /** `getTaskById(id)` (lines 7-9). */
  function GetTaskById(id: Id): (r: Request<Body>)
    ensures r.verb == Get && r.body == None && r.path == Item("/tasks", id)
  {
    Request(Get, Item(Tasks, id), None)
  }

  /** `createTask(task)` (lines 11-13): the task goes out as it is. */
  function CreateTask(task: Body): (r: Request<Body>)
    ensures r.verb == Post && r.path == "/tasks" && r.body == Some(task)
  {
    Request(Post, Tasks, Some(task))
  }

  /** `updateTask(id, task)` (lines 15-17). */
  function UpdateTask(id: Id, task: Body): (r: Request<Body>)
    ensures r.verb == Put && r.path == Item("/tasks", id) && r.body == Some(task)
  {
    Request(Put, Item(Tasks, id), Some(task))
  }

  /** `deleteTask(id)` (lines 19-21). */
  function DeleteTask(id: Id): (r: Request<Body>)
    ensures r.verb == Delete && r.body == None && r.path == Item("/tasks", id)
  {
    Request(Delete, Item(Tasks, id), None)
  }

  /** `getTasksByProject(projectId, page = 0, size = 10)` (lines 23-25). */
  function GetTasksByProject(projectId: Id, page: Option<nat>, size: Option<nat>): (r: Request<Body>)
    ensures r.verb == Get && r.body == None
  {
    Request(Get, Listing("/tasks/project/" + IdText(projectId), page, size), None)
  }

  /** `getTasksByStatus(status, page = 0, size = 10)` (lines 27-29). */
  function GetTasksByStatus(status: string, page: Option<nat>, size: Option<nat>): (r: Request<Body>)
    ensures r.verb == Get && r.body == None
  {
    Request(Get, Listing("/tasks/status/" + status, page, size), None)
  }

  /** Reading, replacing and deleting a task address the same path, and a
      numeric id is recovered from it. */
  lemma ItemCallsShareThePath(id: Id, task: Body)
    ensures GetTaskById(id).path == UpdateTask(id, task).path == DeleteTask(id).path
    ensures id.Num? ==> forall n: nat :: GetTaskById(Num(n)).path == GetTaskById(id).path ==> n == id.n
  {
    if id.Num? {
      forall n: nat | GetTaskById(Num(n)).path == GetTaskById(id).path
        ensures n == id.n
      {
        ItemPathsIdentify(Tasks, n, id.n);
      }
    }
  }

  /** The three listing calls name their collection and carry the page and
      size asked for, `0` and `10` when not given. */
  lemma ListCallsCarryPage(projectId: Id, status: string, page: Option<nat>, size: Option<nat>)
    ensures ListsPage(GetTasks(page, size).path, "/tasks", page.GetOr(0), size.GetOr(10))
    ensures ListsPage(GetTasksByProject(projectId, page, size).path, "/tasks/project/" + IdText(projectId), page.GetOr(0), size.GetOr(10))
    ensures ListsPage(GetTasksByStatus(status, page, size).path, "/tasks/status/" + status, page.GetOr(0), size.GetOr(10))
  {
    ListingListsPage(Tasks, page, size);
    ListingListsPage("/tasks/project/" + IdText(projectId), page, size);
    ListingListsPage("/tasks/status/" + status, page, size);
  }

  /** Two task-list requests with the same path ask for the same page. */
  lemma ListingsIdentifyPage(page: Option<nat>, size: Option<nat>, otherPage: Option<nat>, otherSize: Option<nat>)
    requires GetTasks(page, size) == GetTasks(otherPage, otherSize)
    ensures page.GetOr(0) == otherPage.GetOr(0) && size.GetOr(10) == otherSize.GetOr(10)
  {
    assert Query(page, size) == GetTasks(page, size).path[|Tasks|..];
    assert Query(otherPage, otherSize) == GetTasks(otherPage, otherSize).path[|Tasks|..];
    QueryInjective(page, size, otherPage, otherSize);
  }

  /** The single-task path and the list path differ for every id and
      page. */
  lemma ItemIsNotTaskList(id: Id, page: Option<nat>, size: Option<nat>)
    ensures GetTaskById(id).path != GetTasks(page, size).path
  {
    ItemIsNotListing(Tasks, id, page, size);
  }

  /** Ids are interpolated without escaping: a string id can spell out
      another endpoint's path. */
  lemma StringIdsAreNotEscaped(projectId: string, page: Option<nat>, size: Option<nat>)
    ensures GetTaskById(Str("project/" + projectId + Query(page, size))).path
         == GetTasksByProject(Str(projectId), page, size).path
  {
    ItemCanSpellListing(Tasks, "project/" + projectId, page, size);
    assert Tasks + "/" + ("project/" + projectId) == "/tasks/project/" + projectId;
  }

  /** The URLs of src/api/taskService.test.js, one lemma per test. Where
      the test writes its URL as a template, so does the lemma. */
  lemma KnownListUrl()
    ensures GetTasks(None, None).path == "/tasks?page=0&size=10"
  {
  }

  lemma KnownPagedListUrl()
    ensures GetTasks(Some(2), Some(20)).path == "/tasks?page=2&size=20"
  {
  }

  lemma KnownItemUrls(task: Body)
    ensures GetTaskById(Num(1)).path == "/tasks/1"
    ensures CreateTask(task) == Request(Post, "/tasks", Some(task))
    ensures UpdateTask(Num(1), task) == Request(Put, "/tasks/1", Some(task))
    ensures DeleteTask(Num(1)) == Request(Delete, "/tasks/1", None)
  {
  }

  lemma KnownProjectUrl()
    ensures GetTasksByProject(Num(1), None, None).path == "/tasks/project/" + "1" + "?page=0&size=10"
  {
  }

  lemma KnownPagedProjectUrl()
    ensures GetTasksByProject(Num(1), Some(2), Some(20)).path == "/tasks/project/" + "1" + "?page=2&size=20"
  {
  }

  lemma KnownStatusUrl()
    ensures GetTasksByStatus("IN_PROGRESS", None, None).path == "/tasks/status/" + "IN_PROGRESS" + "?page=0&size=10"
  {
  }

  lemma KnownPagedStatusUrl()
    ensures GetTasksByStatus("IN_PROGRESS", Some(2), Some(20)).path == "/tasks/status/" + "IN_PROGRESS" + "?page=2&size=20"
  {
  }
}
