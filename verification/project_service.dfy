/** The request each call of src/api/projectService.js issues. As for
    tasks, the response and failures pass through the HTTP client unchanged
    and are not part of this model. */
module ProjectService {
  import opened Values
  import opened Http
  import ProjectForm

  const Projects := "/projects"

  /** The request body: the data the project form sends. */
  type Body = ProjectForm.Form

  /** `getProjects(page = 0, size = 10)` (lines 3-5). */
  function GetProjects(page: Option<nat>, size: Option<nat>): (r: Request<Body>)
    ensures r.verb == Get && r.body == None
  {
    Request(Get, Listing(Projects, page, size), None)
  }

  /** `getProjectById(id)` (lines 7-9). */
  function GetProjectById(id: Id): (r: Request<Body>)
    ensures r.verb == Get && r.body == None && r.path == Item("/projects", id)
  {
    Request(Get, Item(Projects, id), None)
  }

  /** `createProject(project)` (lines 11-13): the project goes out as it is. */
  function CreateProject(project: Body): (r: Request<Body>)
    ensures r.verb == Post && r.path == "/projects" && r.body == Some(project)
  {
    Request(Post, Projects, Some(project))
  }

  /** `updateProject(id, project)` (lines 15-17). */
  function UpdateProject(id: Id, project: Body): (r: Request<Body>)
    ensures r.verb == Put && r.path == Item("/projects", id) && r.body == Some(project)
  {
    Request(Put, Item(Projects, id), Some(project))
  }

  /** `deleteProject(id)` (lines 19-21). */
  function DeleteProject(id: Id): (r: Request<Body>)
    ensures r.verb == Delete && r.body == None && r.path == Item("/projects", id)
  {
    Request(Delete, Item(Projects, id), None)
  }

  /** The project list names its collection and carries the page and size
      asked for, `0` and `10` when not given. */
  lemma ListCallCarriesPage(page: Option<nat>, size: Option<nat>)
    ensures ListsPage(GetProjects(page, size).path, "/projects", page.GetOr(0), size.GetOr(10))
  {
    ListingListsPage(Projects, page, size);
  }

  /** Reading, replacing and deleting a project address the same path, and
      a numeric id is recovered from it; that path is never the list's. */
  lemma ItemCallsShareThePath(id: Id, project: Body, page: Option<nat>, size: Option<nat>)
    ensures GetProjectById(id).path == UpdateProject(id, project).path == DeleteProject(id).path
    ensures GetProjectById(id).path != GetProjects(page, size).path
    ensures id.Num? ==> forall n: nat :: GetProjectById(Num(n)).path == GetProjectById(id).path ==> n == id.n
  {
    ItemIsNotListing(Projects, id, page, size);
    if id.Num? {
      forall n: nat | GetProjectById(Num(n)).path == GetProjectById(id).path
        ensures n == id.n
      {
        ItemPathsIdentify(Projects, n, id.n);
      }
    }
  }

  /** The default list URL, and the single-project URLs for id 1. */
  lemma KnownUrls(project: Body)
    ensures GetProjects(None, None).path == "/projects?page=0&size=10"
    ensures GetProjectById(Num(1)).path == "/projects/1"
    ensures CreateProject(project) == Request(Post, "/projects", Some(project))
    ensures UpdateProject(Num(1), project) == Request(Put, "/projects/1", Some(project))
    ensures DeleteProject(Num(1)) == Request(Delete, "/projects/1", None)
  {
  }
}
