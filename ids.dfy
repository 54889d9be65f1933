/** Identifiers and the authenticated user record.  MongoDB ObjectIds are
    modelled as their string form, which is what the routes compare
    (`member.user.toString() === req.user.id`). */
module Ids {

  type UserId = string
  type TaskId = string
  type ProjectId = string

  /** A point in time, in milliseconds since the epoch (a JavaScript Date). */
  type Date = int

  /** The user document the auth middleware attaches to the request. */
  datatype User = User(id: UserId, name: string, email: string)
}
