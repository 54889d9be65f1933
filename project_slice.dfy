/** The client's project list (the `projects` slice of the Redux store): the
    `setCurrentProject` and `clearError` reducers and the pending, fulfilled
    and rejected cases of the create and fetch requests.  The requests are
    not part of this model; each case receives its payload. */
module ProjectSlice {
  import opened Wrappers
  import opened ProjectSchema

  /** The two requests whose outcome the slice records. */
  datatype Thunk = CreateProject | FetchUserProjects

  class ProjectsState {
    var projects: seq<Project>
    var currentProject: Option<Project>
    var loading: bool
    var error: Option<string>

    constructor ()
      ensures projects == [] && currentProject == None && !loading && error == None
    {
      projects := [];
      currentProject := None;
      loading := false;
      error := None;
    }

    method SetCurrentProject(project: Option<Project>)
      modifies this`currentProject
      ensures currentProject == project
    {
      currentProject := project;
    }

    method ClearError()
      modifies this`error
      ensures error == None
    {
      error := None;
    }

    /** Both requests start the same way. */
    method Pending(thunk: Thunk)
      modifies this`loading, this`error
      ensures loading && error == None
    {
      loading := true;
      error := None;
    }

    /** A created project is appended and becomes the current one. */
    method CreateFulfilled(project: Project)
      modifies this`loading, this`projects, this`currentProject
      ensures !loading
      ensures projects == old(projects) + [project] && currentProject == Some(project)
    {
      loading := false;
      projects := projects + [project];
      currentProject := Some(project);
    }

    /** The fetched list replaces the current one wholesale; the current
        project is kept even when the new list does not hold it. */
    method FetchFulfilled(payload: seq<Project>)
      modifies this`loading, this`projects
      ensures !loading && projects == payload
    {
      loading := false;
      projects := payload;
    }

    /** A failure records its payload as the error; the list is kept. */
    method Rejected(thunk: Thunk, payload: Option<string>)
      modifies this`loading, this`error
      ensures !loading && error == payload
    {
      loading := false;
      error := payload;
    }
  }
}
