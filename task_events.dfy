/** The `task-update` messages the server broadcasts to a project's room. */
module TaskEvents {
  import opened Ids
  import opened TaskSchema

  /** `created` and `updated` carry the whole task; `deleted` carries only
      the task's id. */
  datatype TaskEvent = Created(task: Task) | Updated(task: Task) | Deleted(taskId: TaskId)

  /** An event addressed to the room named after a project's id. */
  datatype Emission = Emission(room: ProjectId, event: TaskEvent)
}
