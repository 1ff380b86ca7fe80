/** The records the stores hold, limited to the fields the modelled code
    reads. Fields the API may leave out or send as `null` are optional. */
module Entities {
  import opened Values

  datatype Task = Task(
    id: Id,
    title: Option<string>,
    description: Option<string>,
    priority: Option<string>,
    status: Option<string>,
    projectId: Option<Id>)

  datatype Project = Project(id: Id, name: Option<string>, description: Option<string>)

  /** The user record the login flow stores (src/context/authContext.js:71-75). */
  datatype User = User(username: string, email: string, roles: seq<string>)

  function TaskKey(t: Task): Id { t.id }

  function ProjectKey(p: Project): Id { p.id }
}
