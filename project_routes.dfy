/** The project routes: `POST /api/projects` (name validation and the new
    project with its creator as sole admin) and `GET /api/projects/my-projects`. */
module ProjectRoutes {
  import opened Wrappers
  import opened Ids
  import opened Text
  import opened Http
  import opened Database
  import opened ProjectSchema
  import TaskRoutes

  const NameRequired := "Project name is required"
  /** The message of the Mongoose validation error (its wording is not modelled). */
  const ValidationFailed := "Project validation failed"

  /** The body of `POST /api/projects`.  `None` stands for any falsy value. */
  datatype NewProjectRequest = NewProjectRequest(
    name: Option<string>,
    description: Option<string>,
    color: Option<string>)

  /** `!name || !name.trim()`. */
  predicate NameMissing(req: NewProjectRequest) {
    req.name.None? || IsBlank(req.name.value)
  }

  /** The document `Project.create` is given: trimmed name, trimmed
      description or `''`, the colour or its default, and the creator as the
      one member, with role `admin`. */
  function NewProjectRecord(req: NewProjectRequest, user: UserId, id: ProjectId): Project
    requires !NameMissing(req)
  {
    Project(
      id := id,
      name := Trim(req.name.value),
      description := if req.description.Some? then Trim(req.description.value) else [],
      members := [ProjectMember(user, Admin)],
      createdBy := user,
      status := DefaultStatus,
      color := if req.color.Some? && req.color.value != [] then req.color.value else DefaultColor,
      settings := DefaultSettings)
  }

  /** The outcome of `POST /api/projects` before anything is stored. */
  function CreateProjectVerdict(req: NewProjectRequest, user: UserId, id: ProjectId)
    : (v: Result<Project, Response<Project>>)
    ensures NameMissing(req) ==> v == Err(BadRequest(NameRequired))
    ensures !NameMissing(req) ==>
              (v.Ok? <==> ValidProject(NewProjectRecord(req, user, id)))
              && (v.Err? ==> v == Err(BadRequest(ValidationFailed)))
    ensures v.Ok? ==>
              && !NameMissing(req)
              && ValidProject(v.value) && v.value.id == id
              && v.value.name == Trim(req.name.value)
              && v.value.description == (if req.description.Some? then Trim(req.description.value) else [])
              && v.value.color == (if req.color.Some? && req.color.value != [] then req.color.value else "#3B82F6")
              && v.value.members == [ProjectMember(user, Admin)] && v.value.createdBy == user
              && v.value.status == Active && v.value.settings == DefaultSettings
  {
    if NameMissing(req) then Err(BadRequest(NameRequired))
    else
      var p := NewProjectRecord(req, user, id);
      if !ValidProject(p) then Err(BadRequest(ValidationFailed)) else Ok(p)
  }

  /** When the schema accepts a new project: the trimmed name and
      description fit their bounds and the creator id is present. */
  lemma {:induction false} NewProjectValidIff(req: NewProjectRequest, user: UserId, id: ProjectId)
    requires !NameMissing(req)
    ensures ValidProject(NewProjectRecord(req, user, id)) <==>
              && Utf16Length(Trim(req.name.value)) <= MaxNameLength
              && (req.description.Some? ==> Utf16Length(Trim(req.description.value)) <= MaxDescriptionLength)
              && user != []
  {
    TrimOfNonBlank(req.name.value);
    SoleCreatorProjectValidIff(NewProjectRecord(req, user, id));
  }

  /** The creator is a member of the new project, and the only one. */
  lemma CreatorIsSoleMember(req: NewProjectRequest, user: UserId, id: ProjectId, other: UserId)
    requires !NameMissing(req)
    ensures IsMember(NewProjectRecord(req, user, id), user)
    ensures other != user ==> !IsMember(NewProjectRecord(req, user, id), other)
  {
    assert NewProjectRecord(req, user, id).members[0].user == user;
  }

  /** `POST /api/projects`: a rejected request stores nothing; an accepted
      one appends the new project. */
  method PostProject(db: Db, user: UserId, req: NewProjectRequest, newId: ProjectId) returns (resp: Response<Project>)
    requires db.Valid()
    requires forall i :: 0 <= i < |db.projects| ==> db.projects[i].id != newId
    modifies db`projects
    ensures db.Valid()
    ensures match CreateProjectVerdict(req, user, newId)
            case Err(r) => resp == r && db.projects == old(db.projects)
            case Ok(p) => resp == Response(201, Record(p)) && db.projects == old(db.projects) + [p]
  {
    var verdict := CreateProjectVerdict(req, user, newId);
    if verdict.Err? {
      return verdict.error;
    }
    var project := verdict.value;
    AppendProject(db.projects, project);
    db.projects := db.projects + [project];
    resp := Response(201, Record(project));
  }

  /** `GET /api/projects/my-projects`: the projects that list the user among
      their members, newest (last created) first. */
  function MyProjects(projects: seq<Project>, user: UserId): (r: seq<Project>)
    ensures forall i :: 0 <= i < |r| ==> r[i] in projects && IsMember(r[i], user)
    ensures forall i :: 0 <= i < |projects| && IsMember(projects[i], user) ==> projects[i] in r
  {
    if projects == [] then []
    else
      var last := projects[|projects| - 1];
      var older := projects[..|projects| - 1];
      var r := (if IsMember(last, user) then [last] else []) + MyProjects(older, user);
      assert forall i :: 0 <= i < |projects| - 1 ==> projects[i] == older[i];
      r
  }

  /** Newest first: a project created after the others heads the list of
      every member, and the older ones follow in the same order as before. */
  lemma NewestFirst(projects: seq<Project>, p: Project, user: UserId)
    ensures MyProjects(projects + [p], user) == (if IsMember(p, user) then [p] else []) + MyProjects(projects, user)
  {
    assert (projects + [p])[..|projects|] == projects;
  }

  /** A project just created heads its creator's project list. */
  lemma {:induction false} CreatedProjectListedFirst(projects: seq<Project>, req: NewProjectRequest, user: UserId, id: ProjectId)
    requires !NameMissing(req)
    ensures var p := NewProjectRecord(req, user, id);
            |MyProjects(projects + [p], user)| > 0 && MyProjects(projects + [p], user)[0] == p
  {
    var p := NewProjectRecord(req, user, id);
    CreatorIsSoleMember(req, user, id, user);
    NewestFirst(projects, p, user);
  }

  /** The creator of a project passes the task routes' checks on it: a
      well-formed task request for the new project is neither refused as
      "project not found" nor as "not authorized". */
  lemma {:induction false} CreatorMayCreateTasks(projects: seq<Project>, preq: NewProjectRequest, user: UserId,
                                                 pid: ProjectId, treq: TaskRoutes.NewTaskRequest, tid: TaskId)
    requires forall i :: 0 <= i < |projects| ==> projects[i].id != pid
    requires CreateProjectVerdict(preq, user, pid).Ok?
    requires !TaskRoutes.TitleMissing(treq) && treq.project == Some(pid) && pid != []
    ensures var v := TaskRoutes.CreateVerdict(projects + [CreateProjectVerdict(preq, user, pid).value], user, treq, tid);
            v.Ok? || v == Err(BadRequest(TaskRoutes.ValidationFailed))
  {
    var p := CreateProjectVerdict(preq, user, pid).value;
    var all := projects + [p];
    var found := FindProject(all, pid);
    assert all[|projects|] == p;
    assert found.Some?;
    var k :| 0 <= k < |all| && all[k] == found.value;
    assert k == |projects|;
    assert p.members[0].user == user;
    assert ProjectSchema.IsMember(found.value, user);
  }
}
