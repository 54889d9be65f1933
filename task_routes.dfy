/** The task routes: create, update and delete with their validation order,
    the project-membership check, the "recompute the score only if a
    score-relevant field changed" rule, the post-commit broadcast, and the
    `/my-tasks` query. */
module TaskRoutes {
  import opened Wrappers
  import opened Ids
  import opened Text
  import opened Http
  import opened Seqs
  import opened TaskSchema
  import opened AiPriority
  import opened TaskEvents
  import opened Database
  import ProjectSchema

  const TitleRequired := "Task title is required"
  const ProjectRequired := "Project ID is required"
  const ProjectNotFound := "Project not found"
  const NotAuthorizedToCreate := "Not authorized to create tasks in this project"
  const NotAuthorized := "Not authorized"
  const TaskNotFound := "Task not found"
  const TaskDeleted := "Task deleted successfully"
  /** The message of the Mongoose validation error (its wording is not modelled). */
  const ValidationFailed := "Task validation failed"
  /** The TypeError thrown by `project.members` when the task's project is gone. */
  const MissingProjectError := "Cannot read properties of null (reading 'members')"
  const MyTasksLimit: nat := 1000

  /** The body of `POST /api/tasks`.  `None` stands for any falsy value. */
  datatype NewTaskRequest = NewTaskRequest(
    title: Option<string>,
    description: Option<string>,
    priority: Option<Priority>,
    dueDate: Option<Date>,
    estimatedHours: Option<real>,
    project: Option<ProjectId>)

  /** `!title || !title.trim()`. */
  predicate TitleMissing(req: NewTaskRequest) {
    req.title.None? || IsBlank(req.title.value)
  }

  /** `!project`. */
  predicate ProjectMissing(req: NewTaskRequest) {
    req.project.None? || req.project.value == []
  }

  /** The document `Task.create` is given: trimmed title, trimmed description
      or `''`, defaults for priority, due date and hours, status `todo`, the
      creator as sole assignee; the score is left at the schema default. */
  function NewTaskRecord(req: NewTaskRequest, user: UserId, id: TaskId): Task
    requires !TitleMissing(req) && !ProjectMissing(req)
  {
    Task(
      id := id,
      title := Trim(req.title.value),
      description := if req.description.Some? then Trim(req.description.value) else [],
      priority := req.priority.GetOr(DefaultPriority),
      status := DefaultStatus,
      dueDate := req.dueDate,
      estimatedHours := Some(req.estimatedHours.GetOr(0.0)),
      actualHours := DefaultActualHours,
      assignedTo := [user],
      createdBy := user,
      project := req.project.value,
      aiPriorityScore := DefaultScore)
  }

  /** What the create route stores: the request's title trimmed (never
      empty), its description trimmed or `''`, its priority or `medium`, its
      due date, its estimate or 0, status `todo`, no hours spent, the creator
      as creator and sole assignee, the requested project and score 50. */
  lemma NewTaskDefaults(req: NewTaskRequest, user: UserId, id: TaskId)
    requires !TitleMissing(req) && !ProjectMissing(req)
    ensures var t := NewTaskRecord(req, user, id);
            && t.id == id
            && t.title == Trim(req.title.value) && t.title != [] && IsTrimmed(t.title)
            && t.description == (if req.description.Some? then Trim(req.description.value) else [])
            && t.priority == req.priority.GetOr(Medium)
            && t.dueDate == req.dueDate
            && t.estimatedHours == Some(req.estimatedHours.GetOr(0.0))
            && t.actualHours == 0.0
            && t.status == Todo && t.assignedTo == [user] && t.createdBy == user
            && t.project == req.project.value
            && t.aiPriorityScore == DefaultScore
  {
    TrimOfNonBlank(req.title.value);
  }

  /** The outcome of `POST /api/tasks` before anything is stored: the
      rejection, in the source's order, or the document to insert. */
  function CreateVerdict(projects: seq<ProjectSchema.Project>, user: UserId, req: NewTaskRequest, id: TaskId)
    : (v: Result<Task, Response<Task>>)
    ensures TitleMissing(req) ==> v == Err(BadRequest(TitleRequired))
    ensures !TitleMissing(req) && ProjectMissing(req) ==> v == Err(BadRequest(ProjectRequired))
    ensures !TitleMissing(req) && !ProjectMissing(req) && FindProject(projects, req.project.value).None?
            ==> v == Err(NotFound(ProjectNotFound))
    ensures !TitleMissing(req) && !ProjectMissing(req) && FindProject(projects, req.project.value).Some?
            && !ProjectSchema.IsMember(FindProject(projects, req.project.value).value, user)
            ==> v == Err(Forbidden(NotAuthorizedToCreate))
    ensures !TitleMissing(req) && !ProjectMissing(req) && FindProject(projects, req.project.value).Some?
            && ProjectSchema.IsMember(FindProject(projects, req.project.value).value, user)
            ==> (v.Ok? <==> ValidTask(NewTaskRecord(req, user, id)))
                && (v.Err? ==> v == Err(BadRequest(ValidationFailed)))
    ensures v.Ok? ==>
              && !TitleMissing(req) && !ProjectMissing(req)
              && ValidTask(v.value) && v.value.id == id && v.value.project == req.project.value
              && (exists i :: 0 <= i < |projects| && projects[i].id == v.value.project
                                && ProjectSchema.IsMember(projects[i], user))
  {
    if TitleMissing(req) then Err(BadRequest(TitleRequired))
    else if ProjectMissing(req) then Err(BadRequest(ProjectRequired))
    else
      match FindProject(projects, req.project.value)
      case None => Err(NotFound(ProjectNotFound))
      case Some(p) =>
        if !ProjectSchema.IsMember(p, user) then Err(Forbidden(NotAuthorizedToCreate))
        else
          var t := NewTaskRecord(req, user, id);
          if !ValidTask(t) then Err(BadRequest(ValidationFailed)) else Ok(t)
  }

  /** An accepted task is the document built from the request, so it has
      the fields `NewTaskDefaults` lists. */
  lemma AcceptedTaskIsNewRecord(projects: seq<ProjectSchema.Project>, user: UserId, req: NewTaskRequest, id: TaskId)
    requires CreateVerdict(projects, user, req, id).Ok?
    ensures !TitleMissing(req) && !ProjectMissing(req)
    ensures CreateVerdict(projects, user, req, id).value == NewTaskRecord(req, user, id)
  {
  }

  /** When the schema accepts a new task: the trimmed title and description
      fit their bounds, the priority is enumerated, the estimate is not
      negative and the creator id is present. */
  lemma {:induction false} NewTaskValidIff(req: NewTaskRequest, user: UserId, id: TaskId)
    requires !TitleMissing(req) && !ProjectMissing(req)
    ensures ValidTask(NewTaskRecord(req, user, id)) <==>
              && Utf16Length(Trim(req.title.value)) <= MaxTitleLength
              && (req.description.Some? ==> Utf16Length(Trim(req.description.value)) <= MaxDescriptionLength)
              && (req.priority.None? || IsKnownPriority(req.priority.value))
              && (req.estimatedHours.None? || req.estimatedHours.value >= 0.0)
              && user != []
  {
    TrimOfNonBlank(req.title.value);
  }

  /** The create path never calls the scorer: a critical task that is due
      now, whose score would be 100, is stored with the default 50. */
  lemma {:induction false} CreateKeepsDefaultScore(user: UserId, id: TaskId, project: ProjectId, now: Date)
    requires project != []
    ensures var req := NewTaskRequest(Some("fix"), None, Some(Critical), Some(now), None, Some(project));
            && !TitleMissing(req) && !ProjectMissing(req)
            && NewTaskRecord(req, user, id).aiPriorityScore == DefaultScore
            && Score(ScoreInputOf(NewTaskRecord(req, user, id), now)) == MaxScore
  {
    var req := NewTaskRequest(Some("fix"), None, Some(Critical), Some(now), None, Some(project));
    assert !IsWhitespace("fix"[0]);
    CriticalAndDueScoresMax(ScoreInputOf(NewTaskRecord(req, user, id), now));
  }

  /** The scorer's view of a stored task at time `now`. */
  function ScoreInputOf(t: Task, now: Date): ScoreInput {
    ScoreInput(
      t.title,
      t.description,
      t.priority,
      if t.dueDate.Some? then Some(DaysUntilDue(t.dueDate.value, now)) else None,
      t.estimatedHours)
  }

  /** The body of `PUT /api/tasks/:id`: each field is `None` when the body
      does not carry it; `Some(None)` for a nullable field is an explicit
      `null`.  The whole body reaches `findByIdAndUpdate`, so `project` and
      `createdBy` are written too. */
  datatype TaskPatch = TaskPatch(
    title: Option<string>,
    description: Option<string>,
    priority: Option<Priority>,
    dueDate: Option<Option<Date>>,
    estimatedHours: Option<Option<real>>,
    status: Option<Status>,
    actualHours: Option<real>,
    assignedTo: Option<seq<UserId>>,
    project: Option<ProjectId>,
    createdBy: Option<UserId>,
    aiPriorityScore: Option<int>)

  /** `req.body[field] !== undefined && req.body[field] !== task[field]` for
      a field whose stored value is a string or a number, compared by value. */
  predicate Differs<T(==)>(field: Option<T>, stored: T) {
    field.Some? && field.value != stored
  }

  /** The same test for `dueDate`.  The stored due date is a `Date` object
      (or `null`, which the create route stores for no date), and the body's
      is a string or `null`: `!==` tells a `Date` from every body value, so a
      body date always differs, and a body `null` differs exactly when a date
      is stored. */
  predicate DueDateDiffers(field: Option<Option<Date>>, stored: Option<Date>) {
    field.Some? && (field.value.Some? || stored.Some?)
  }

  /** Some score-relevant field is present in the body and differs from the
      stored value. */
  predicate NeedsRecalculation(t: Task, patch: TaskPatch) {
    || Differs(patch.title, t.title)
    || Differs(patch.description, t.description)
    || DueDateDiffers(patch.dueDate, t.dueDate)
    || Differs(patch.priority, t.priority)
    || Differs(patch.estimatedHours, t.estimatedHours)
  }

  /** `{...task.toObject(), ...req.body}`: the body wins where present. */
  function Overlay(t: Task, patch: TaskPatch): Task {
    t.(title := patch.title.GetOr(t.title),
       description := patch.description.GetOr(t.description),
       priority := patch.priority.GetOr(t.priority),
       dueDate := patch.dueDate.GetOr(t.dueDate),
       estimatedHours := patch.estimatedHours.GetOr(t.estimatedHours),
       status := patch.status.GetOr(t.status),
       actualHours := patch.actualHours.GetOr(t.actualHours),
       assignedTo := patch.assignedTo.GetOr(t.assignedTo),
       project := patch.project.GetOr(t.project),
       createdBy := patch.createdBy.GetOr(t.createdBy),
       aiPriorityScore := patch.aiPriorityScore.GetOr(t.aiPriorityScore))
  }

  /** The document `findByIdAndUpdate` writes: the body over the stored task,
      with the score replaced by the scorer's value when a relevant field
      changed, and the title trimmed by the schema's setter. */
  function ApplyPatch(t: Task, patch: TaskPatch, now: Date): (u: Task)
    ensures u.id == t.id
    ensures u.project == patch.project.GetOr(t.project) && u.createdBy == patch.createdBy.GetOr(t.createdBy)
    ensures NeedsRecalculation(t, patch) ==> u.aiPriorityScore == Score(ScoreInputOf(Overlay(t, patch), now))
    ensures !NeedsRecalculation(t, patch) ==> u.aiPriorityScore == patch.aiPriorityScore.GetOr(t.aiPriorityScore)
  {
    var merged := Overlay(t, patch);
    var scored := if NeedsRecalculation(t, patch)
                  then merged.(aiPriorityScore := Score(ScoreInputOf(merged, now)))
                  else merged;
    scored.(title := Trim(scored.title))
  }

  /** A body that touches only fields outside the five score-relevant ones
      leaves the score as it was; only the fields it carries change. */
  lemma UnrelatedPatchKeepsScore(t: Task, patch: TaskPatch, now: Date)
    requires ValidTask(t)
    requires patch.title.None? && patch.description.None? && patch.priority.None?
    requires patch.dueDate.None? && patch.estimatedHours.None? && patch.aiPriorityScore.None?
    ensures ApplyPatch(t, patch, now)
         == t.(status := patch.status.GetOr(t.status),
               actualHours := patch.actualHours.GetOr(t.actualHours),
               assignedTo := patch.assignedTo.GetOr(t.assignedTo),
               project := patch.project.GetOr(t.project),
               createdBy := patch.createdBy.GetOr(t.createdBy))
  {
    assert !NeedsRecalculation(t, patch);
    TrimmedIffFixedPoint(t.title);
    assert Overlay(t, patch).title == t.title;
  }

  /** Re-sending the stored title, description, priority and estimate, and
      at most a `null` due date for a task without one, does not trigger a
      recomputation; every other body does. */
  lemma SameValuesNoRecalculation(t: Task, patch: TaskPatch)
    ensures !NeedsRecalculation(t, patch) <==>
              && (patch.title.None? || patch.title == Some(t.title))
              && (patch.description.None? || patch.description == Some(t.description))
              && (patch.priority.None? || patch.priority == Some(t.priority))
              && (patch.dueDate.None? || (patch.dueDate == Some(None) && t.dueDate.None?))
              && (patch.estimatedHours.None? || patch.estimatedHours == Some(t.estimatedHours))
  {
  }

  /** A due date in the body always triggers a recomputation, even the date
      already stored: the body's string is never `===` the stored `Date`. */
  lemma ResentDueDateRecalculates(t: Task, patch: TaskPatch)
    requires t.dueDate.Some? && patch.dueDate == Some(t.dueDate)
    ensures NeedsRecalculation(t, patch)
  {
  }

  /** Where nothing score-relevant changed, a score the client put in the
      body is written as it is. */
  lemma ClientScorePassesThrough(t: Task, patch: TaskPatch, now: Date)
    requires patch.title.None? && patch.description.None? && patch.priority.None?
    requires patch.dueDate.None? && patch.estimatedHours.None?
    requires patch.aiPriorityScore.Some?
    ensures ApplyPatch(t, patch, now).aiPriorityScore == patch.aiPriorityScore.value
  {
    assert !NeedsRecalculation(t, patch);
  }

  /** The outcome of `PUT /api/tasks/:id` before anything is stored.  The
      membership check reads the stored task's project; the body may then
      move the task to any other project. */
  function UpdateVerdict(tasks: map<TaskId, Task>, projects: seq<ProjectSchema.Project>, user: UserId,
                         id: TaskId, patch: TaskPatch, now: Date): (v: Result<Task, Response<Task>>)
    ensures id !in tasks ==> v == Err(NotFound(TaskNotFound))
    ensures id in tasks && FindProject(projects, tasks[id].project).None?
            ==> v == Err(BadRequest(MissingProjectError))
    ensures id in tasks && FindProject(projects, tasks[id].project).Some?
            && !ProjectSchema.IsMember(FindProject(projects, tasks[id].project).value, user)
            ==> v == Err(Forbidden(NotAuthorized))
    ensures id in tasks && FindProject(projects, tasks[id].project).Some?
            && ProjectSchema.IsMember(FindProject(projects, tasks[id].project).value, user)
            ==> (v.Ok? <==> ValidTask(ApplyPatch(tasks[id], patch, now)))
                && (v.Err? ==> v == Err(BadRequest(ValidationFailed)))
    ensures v.Ok? ==>
              && id in tasks && ValidTask(v.value)
              && v.value == ApplyPatch(tasks[id], patch, now)
              && v.value.id == tasks[id].id && v.value.project == patch.project.GetOr(tasks[id].project)
              && (exists i :: 0 <= i < |projects| && projects[i].id == tasks[id].project
                                && ProjectSchema.IsMember(projects[i], user))
  {
    if id !in tasks then Err(NotFound(TaskNotFound))
    else
      var t := tasks[id];
      match FindProject(projects, t.project)
      case None => Err(BadRequest(MissingProjectError))
      case Some(p) =>
        if !ProjectSchema.IsMember(p, user) then Err(Forbidden(NotAuthorized))
        else
          var u := ApplyPatch(t, patch, now);
          if !ValidTask(u) then Err(BadRequest(ValidationFailed)) else Ok(u)
  }

  /** The outcome of `DELETE /api/tasks/:id` before anything is removed: the
      task to delete, or the rejection. */
  function DeleteVerdict(tasks: map<TaskId, Task>, projects: seq<ProjectSchema.Project>, user: UserId, id: TaskId)
    : (v: Result<Task, Response<Task>>)
    ensures id !in tasks ==> v == Err(NotFound(TaskNotFound))
    ensures id in tasks && FindProject(projects, tasks[id].project).None?
            ==> v == Err(BadRequest(MissingProjectError))
    ensures id in tasks && FindProject(projects, tasks[id].project).Some?
            && !ProjectSchema.IsMember(FindProject(projects, tasks[id].project).value, user)
            ==> v == Err(Forbidden(NotAuthorized))
    ensures id in tasks && FindProject(projects, tasks[id].project).Some?
            && ProjectSchema.IsMember(FindProject(projects, tasks[id].project).value, user)
            ==> v == Ok(tasks[id])
    ensures v.Ok? ==>
              && id in tasks && v.value == tasks[id]
              && (exists i :: 0 <= i < |projects| && projects[i].id == v.value.project
                                && ProjectSchema.IsMember(projects[i], user))
  {
    if id !in tasks then Err(NotFound(TaskNotFound))
    else
      var t := tasks[id];
      match FindProject(projects, t.project)
      case None => Err(BadRequest(MissingProjectError))
      case Some(p) =>
        if !ProjectSchema.IsMember(p, user) then Err(Forbidden(NotAuthorized)) else Ok(t)
  }

  /** `POST /api/tasks`: on success the task is stored, then (when a socket
      server is registered) `created` is broadcast to the project's room;
      a rejection stores and broadcasts nothing. */
  method PostTask(db: Db, user: UserId, req: NewTaskRequest, newId: TaskId) returns (resp: Response<Task>)
    requires db.Valid() && newId !in db.tasks
    modifies db`tasks, db`emitted
    ensures db.Valid()
    ensures match CreateVerdict(db.projects, user, req, newId)
            case Err(r) =>
              resp == r && db.tasks == old(db.tasks) && db.emitted == old(db.emitted)
            case Ok(t) =>
              && resp == Response(201, Record(t))
              && db.tasks == old(db.tasks)[newId := t]
              && db.emitted == old(db.emitted) + (if db.ioRegistered then [Emission(t.project, Created(t))] else [])
  {
    var verdict := CreateVerdict(db.projects, user, req, newId);
    if verdict.Err? {
      return verdict.error;
    }
    var task := verdict.value;
    var room := task.project;
    CreateKeepsStoreValid(db.tasks, db.projects, user, req, newId);
    db.tasks := db.tasks[newId := task];
    db.Emit(room, Created(task));
    resp := Response(201, Record(task));
  }

  /** An accepted creation keeps the store valid. */
  lemma CreateKeepsStoreValid(tasks: map<TaskId, Task>, projects: seq<ProjectSchema.Project>, user: UserId,
                              req: NewTaskRequest, id: TaskId)
    requires ValidTaskStore(tasks)
    requires CreateVerdict(projects, user, req, id).Ok?
    ensures ValidTaskStore(tasks[id := CreateVerdict(projects, user, req, id).value])
  {
    var t := CreateVerdict(projects, user, req, id).value;
    assert t.id == id;
    StoreTask(tasks, t);
  }

  /** `PUT /api/tasks/:id`: on success the updated task replaces the stored
      one, then `updated` is broadcast to the room of the project the task
      was in before the update. */
  method PutTask(db: Db, user: UserId, id: TaskId, patch: TaskPatch, now: Date) returns (resp: Response<Task>)
    requires db.Valid()
    modifies db`tasks, db`emitted
    ensures db.Valid()
    ensures match UpdateVerdict(old(db.tasks), db.projects, user, id, patch, now)
            case Err(r) =>
              resp == r && db.tasks == old(db.tasks) && db.emitted == old(db.emitted)
            case Ok(t) =>
              && resp == Response(200, Record(t))
              && db.tasks == old(db.tasks)[id := t]
              && db.emitted == old(db.emitted)
                                + (if db.ioRegistered then [Emission(old(db.tasks)[id].project, Updated(t))] else [])
  {
    var verdict := UpdateVerdict(db.tasks, db.projects, user, id, patch, now);
    if verdict.Err? {
      return verdict.error;
    }
    var task := verdict.value;
    var room := db.tasks[id].project;
    UpdateKeepsStoreValid(db.tasks, db.projects, user, id, patch, now);
    db.tasks := db.tasks[id := task];
    db.Emit(room, Updated(task));
    resp := Response(200, Record(task));
  }

  /** A successful update files a valid task under its own id. */
  lemma UpdateKeepsStoreValid(tasks: map<TaskId, Task>, projects: seq<ProjectSchema.Project>, user: UserId,
                              id: TaskId, patch: TaskPatch, now: Date)
    requires ValidTaskStore(tasks)
    requires UpdateVerdict(tasks, projects, user, id, patch, now).Ok?
    ensures ValidTaskStore(tasks[id := UpdateVerdict(tasks, projects, user, id, patch, now).value])
  {
    var t := UpdateVerdict(tasks, projects, user, id, patch, now).value;
    assert t.id == id;
    StoreTask(tasks, t);
  }

  /** A member of the task's project may move the task into any other
      project, one they do not belong to or one that does not exist: only
      the stored project is checked. */
  lemma {:induction false} MemberMovesTaskAnywhere(tasks: map<TaskId, Task>, projects: seq<ProjectSchema.Project>,
                                                   user: UserId, id: TaskId, target: ProjectId, now: Date)
    requires id in tasks && ValidTask(tasks[id])
    requires FindProject(projects, tasks[id].project).Some?
    requires ProjectSchema.IsMember(FindProject(projects, tasks[id].project).value, user)
    requires target != []
    ensures var move := TaskPatch(None, None, None, None, None, None, None, None, Some(target), None, None);
            var v := UpdateVerdict(tasks, projects, user, id, move, now);
            v.Ok? && v.value.project == target && v.value == tasks[id].(project := target)
  {
    var move := TaskPatch(None, None, None, None, None, None, None, None, Some(target), None, None);
    var moved := tasks[id].(project := target);
    UnrelatedPatchKeepsScore(tasks[id], move, now);
    assert ApplyPatch(tasks[id], move, now) == moved;
    assert ValidTask(moved);
  }

  /** A body naming a priority outside the enumeration is refused as a
      validation error, so the scorer's value for it is never stored. */
  lemma UnknownPriorityNeverStored(tasks: map<TaskId, Task>, projects: seq<ProjectSchema.Project>,
                                   user: UserId, id: TaskId, patch: TaskPatch, now: Date)
    requires patch.priority.Some? && !IsKnownPriority(patch.priority.value)
    ensures !UpdateVerdict(tasks, projects, user, id, patch, now).Ok?
  {
  }

  /** `DELETE /api/tasks/:id`: on success the task is removed, then
      `deleted` with only the id is broadcast to the project's room. */
  method DeleteTask(db: Db, user: UserId, id: TaskId) returns (resp: Response<Task>)
    requires db.Valid()
    modifies db`tasks, db`emitted
    ensures db.Valid()
    ensures match DeleteVerdict(old(db.tasks), db.projects, user, id)
            case Err(r) =>
              resp == r && db.tasks == old(db.tasks) && db.emitted == old(db.emitted)
            case Ok(t) =>
              && resp == Response(200, Message(TaskDeleted))
              && db.tasks == old(db.tasks) - {id}
              && db.emitted == old(db.emitted) + (if db.ioRegistered then [Emission(t.project, Deleted(id))] else [])
  {
    var verdict := DeleteVerdict(db.tasks, db.projects, user, id);
    if verdict.Err? {
      return verdict.error;
    }
    var task := verdict.value;
    RemoveTask(db.tasks, id);
    db.tasks := db.tasks - {id};
    db.Emit(task.project, Deleted(id));
    resp := Response(200, Message(TaskDeleted));
  }

  /** The `/my-tasks` query condition: assigned to the user and not completed. */
  function OpenAssignmentOf(user: UserId): Task -> bool {
    (t: Task) => user in t.assignedTo && t.status != Completed
  }

  /** `GET /api/tasks/my-tasks` over the store's tasks as the query visits
      them: only open tasks assigned to the user, at most 1000, and all of
      them unless the limit is reached. */
  function MyTasks(listing: seq<Task>, user: UserId): (r: seq<Task>)
    ensures |r| <= MyTasksLimit
    ensures forall i :: 0 <= i < |r| ==> r[i] in listing && user in r[i].assignedTo && r[i].status != Completed
    ensures |r| == MyTasksLimit
            || forall i :: 0 <= i < |listing| && user in listing[i].assignedTo && listing[i].status != Completed
                 ==> listing[i] in r
  {
    var open := Filter(listing, OpenAssignmentOf(user));
    var r := Take(open, MyTasksLimit);
    assert forall i :: 0 <= i < |r| ==> r[i] in open;
    r
  }
}
