/** The state the route handlers share: the task and project collections,
    the socket.io handle the handlers look up with `req.app.get('io')`, and
    the log of the events broadcast so far. */
module Database {
  import opened Wrappers
  import opened Ids
  import opened TaskSchema
  import opened TaskEvents
  import ProjectSchema

  class Db {
    /** The projects, in the order they were created. */
    var projects: seq<ProjectSchema.Project>
    /** The tasks, by id. */
    var tasks: map<TaskId, Task>
    /** Whether `req.app.get('io')` yields a server.  The server never
        registers one with `app.set('io', ...)`, so in the deployed program
        this is false and nothing is ever broadcast. */
    const ioRegistered: bool
    /** Every event broadcast so far, oldest first. */
    var emitted: seq<Emission>

    /** Every stored document passed the schema validators, each task is
        filed under its own id, and project ids are unique. */
    ghost predicate Valid()
      reads this
    {
      ValidTaskStore(tasks) && ValidProjectList(projects)
    }

    constructor (io: bool)
      ensures Valid()
      ensures projects == [] && tasks == map[] && ioRegistered == io && emitted == []
    {
      projects := [];
      tasks := map[];
      ioRegistered := io;
      emitted := [];
    }

    /** `if (req.app.get('io')) req.app.get('io').to(room).emit('task-update', event)`. */
    method Emit(room: ProjectId, event: TaskEvent)
      requires Valid()
      modifies this`emitted
      ensures Valid()
      ensures emitted == old(emitted) + (if ioRegistered then [Emission(room, event)] else [])
    {
      if ioRegistered {
        emitted := emitted + [Emission(room, event)];
      }
    }
  }

  /** Each task is filed under its own id and passed the schema validators. */
  ghost predicate ValidTaskStore(tasks: map<TaskId, Task>) {
    forall id :: id in tasks ==> tasks[id].id == id && ValidTask(tasks[id])
  }

  /** Every project passed the schema validators, and no two share an id. */
  ghost predicate ValidProjectList(projects: seq<ProjectSchema.Project>) {
    && (forall i :: 0 <= i < |projects| ==> ProjectSchema.ValidProject(projects[i]))
    && (forall i, j :: 0 <= i < j < |projects| ==> projects[i].id != projects[j].id)
  }

  /** Filing a valid task under its id keeps the store valid. */
  lemma StoreTask(tasks: map<TaskId, Task>, t: Task)
    requires ValidTaskStore(tasks) && ValidTask(t)
    ensures ValidTaskStore(tasks[t.id := t])
  {
  }

  /** Removing a task keeps the store valid. */
  lemma RemoveTask(tasks: map<TaskId, Task>, id: TaskId)
    requires ValidTaskStore(tasks)
    ensures ValidTaskStore(tasks - {id})
  {
  }

  /** Appending a valid project with a fresh id keeps the list valid. */
  lemma AppendProject(projects: seq<ProjectSchema.Project>, p: ProjectSchema.Project)
    requires ValidProjectList(projects) && ProjectSchema.ValidProject(p)
    requires forall i :: 0 <= i < |projects| ==> projects[i].id != p.id
    ensures ValidProjectList(projects + [p])
  {
  }

  /** `Project.findById(id)`: the project with that id, if any. */
  function FindProject(projects: seq<ProjectSchema.Project>, id: ProjectId): (r: Option<ProjectSchema.Project>)
    ensures r.Some? ==> r.value in projects && r.value.id == id
    ensures r.None? <==> forall i :: 0 <= i < |projects| ==> projects[i].id != id
  {
    if projects == [] then None
    else if projects[0].id == id then Some(projects[0])
    else FindProject(projects[1..], id)
  }
}
