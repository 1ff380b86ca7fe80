/** The project store of src/context/projectContext.js: its initial state and
    `projectReducer`. Unlike the task store it appends created projects,
    selects the payload of every create and update, and leaves the
    selection alone on delete. */
module ProjectStore {
  import opened Values
  import opened Entities
  import Keyed

  datatype State = State(projects: seq<Project>, project: Option<Project>, loading: bool, error: Option<string>)

  /** `initialState` (lines 8-13). */
  const Initial: State := State([], None, false, None)

  datatype Action =
    | FetchProjectsRequest
    | FetchProjectsSuccess(fetchedAll: seq<Project>)
    | FetchProjectRequest
    | FetchProjectSuccess(fetched: Project)
    | CreateProjectSuccess(created: Project)
    | UpdateProjectSuccess(updated: Project)
    | DeleteProjectSuccess(deleted: Id)
    | ProjectError(message: string)
    | ClearError
    | ClearCurrentProject
    /** An action type the reducer has no case for (its `default`). */
    | Unhandled(name: string)
  {
    predicate IsRequest() { FetchProjectsRequest? || FetchProjectRequest? }

    predicate IsSuccess() {
      FetchProjectsSuccess? || FetchProjectSuccess? || CreateProjectSuccess? || UpdateProjectSuccess? || DeleteProjectSuccess?
    }
  }

  /** `projectReducer` (lines 16-88). */
  function Reduce(s: State, a: Action): (r: State)
    ensures a.IsRequest() ==> r == s.(loading := true, error := None)
    ensures a.IsSuccess() ==> !r.loading && r.error == None
    ensures a.FetchProjectsSuccess? ==> r.projects == a.fetchedAll && r.project == s.project
    ensures a.FetchProjectSuccess? ==> r.project == Some(a.fetched) && r.projects == s.projects
    // a created project goes at the END of the list and becomes the selection
    ensures a.CreateProjectSuccess? ==>
      && |r.projects| == |s.projects| + 1
      && r.projects[..|s.projects|] == s.projects && r.projects[|s.projects|] == a.created
      && r.project == Some(a.created)
    // an update swaps in the record wherever the id matches and always selects it
    ensures a.UpdateProjectSuccess? ==>
      && |r.projects| == |s.projects|
      && (forall i :: 0 <= i < |s.projects| ==>
            r.projects[i] == if s.projects[i].id == a.updated.id then a.updated else s.projects[i])
      && r.project == Some(a.updated)
    // a delete keeps exactly the other projects and leaves the selection as it was
    ensures a.DeleteProjectSuccess? ==>
      && (forall i :: 0 <= i < |r.projects| ==> r.projects[i] in s.projects && r.projects[i].id != a.deleted)
      && (forall i :: 0 <= i < |s.projects| && s.projects[i].id != a.deleted ==> s.projects[i] in r.projects)
      && r.project == s.project
    ensures a.ProjectError? ==> r == s.(loading := false, error := Some(a.message))
    ensures a.ClearError? ==> r == s.(error := None)
    ensures a.ClearCurrentProject? ==> r == s.(project := None)
    ensures a.Unhandled? ==> r == s
  {
    match a
    case FetchProjectsRequest => s.(loading := true, error := None)
    case FetchProjectsSuccess(ps) => s.(projects := ps, loading := false, error := None)
    case FetchProjectRequest => s.(loading := true, error := None)
    case FetchProjectSuccess(p) => s.(project := Some(p), loading := false, error := None)
    case CreateProjectSuccess(p) => s.(projects := s.projects + [p], project := Some(p), loading := false, error := None)
    case UpdateProjectSuccess(p) =>
      s.(projects := Keyed.Replace(s.projects, ProjectKey, p), project := Some(p), loading := false, error := None)
    case DeleteProjectSuccess(id) =>
      Keyed.RemoveKeepsOthers(s.projects, ProjectKey, id);
      s.(projects := Keyed.Remove(s.projects, ProjectKey, id), loading := false, error := None)
    case ProjectError(message) => s.(loading := false, error := Some(message))
    case ClearError => s.(error := None)
    case ClearCurrentProject => s.(project := None)
    case Unhandled(_) => s
  }

  // ------------------------------------------------------------------ properties

  /** Applying the same update twice is applying it once. */
  lemma UpdateIdempotent(s: State, p: Project)
    ensures Reduce(Reduce(s, UpdateProjectSuccess(p)), UpdateProjectSuccess(p)) == Reduce(s, UpdateProjectSuccess(p))
  {
  }

  /** Applying the same delete twice is applying it once. */
  lemma DeleteIdempotent(s: State, id: Id)
    ensures Reduce(Reduce(s, DeleteProjectSuccess(id)), DeleteProjectSuccess(id)) == Reduce(s, DeleteProjectSuccess(id))
  {
    Keyed.RemoveIdempotent(s.projects, ProjectKey, id);
  }

  /** A delete removes every project with the id, so the list shrinks by
      exactly their number. */
  lemma DeleteRemovesAll(s: State, id: Id)
    ensures |Reduce(s, DeleteProjectSuccess(id)).projects| == |s.projects| - Keyed.Occurrences(s.projects, ProjectKey, id)
  {
    Keyed.RemoveCount(s.projects, ProjectKey, id);
  }

  /** A project created right after a delete of its own id is the only
      project with that id. */
  lemma CreateAfterDeleteIsUnique(s: State, p: Project)
    ensures var r := Reduce(Reduce(s, DeleteProjectSuccess(p.id)), CreateProjectSuccess(p));
      Keyed.Occurrences(r.projects, ProjectKey, p.id) == 1
  {
    var kept := Keyed.Remove(s.projects, ProjectKey, p.id);
    Keyed.RemoveKeepsOthers(s.projects, ProjectKey, p.id);
    NoOccurrences(kept, p.id);
    OccurrencesAppend(kept, [p], p.id);
  }

  lemma {:induction false} NoOccurrences(xs: seq<Project>, id: Id)
    requires forall i :: 0 <= i < |xs| ==> xs[i].id != id
    ensures Keyed.Occurrences(xs, ProjectKey, id) == 0
  {
    if |xs| > 0 {
      NoOccurrences(xs[1..], id);
    }
  }

  lemma {:induction false} OccurrencesAppend(a: seq<Project>, b: seq<Project>, id: Id)
    ensures Keyed.Occurrences(a + b, ProjectKey, id)
         == Keyed.Occurrences(a, ProjectKey, id) + Keyed.Occurrences(b, ProjectKey, id)
  {
    if |a| > 0 {
      assert (a + b)[1..] == a[1..] + b;
      OccurrencesAppend(a[1..], b, id);
    } else {
      assert a + b == b;
    }
  }

  /** Distinct ids in the list stay distinct through updates, deletes, and
      creates of a project whose id is new. */
  lemma KeepsUniqueIds(s: State, a: Action)
    requires Keyed.UniqueKeys(s.projects, ProjectKey)
    requires a.CreateProjectSuccess? ==> forall i :: 0 <= i < |s.projects| ==> s.projects[i].id != a.created.id
    requires a.FetchProjectsSuccess? ==> Keyed.UniqueKeys(a.fetchedAll, ProjectKey)
    ensures Keyed.UniqueKeys(Reduce(s, a).projects, ProjectKey)
  {
    match a
    case UpdateProjectSuccess(p) => Keyed.ReplaceKeepsUnique(s.projects, ProjectKey, p);
    case DeleteProjectSuccess(id) => Keyed.RemoveKeepsUnique(s.projects, ProjectKey, id);
    case _ =>
  }
}
