# Smart TaskHub: the task rules, modelled and proved in Dafny

Smart TaskHub is a project-and-task manager. An Express/MongoDB backend serves
projects and tasks to a React/Redux client, and ranks each task with an
"AI priority" score between 0 and 100. This project models the parts of it
that carry rules, and proves what those rules guarantee:

- **The priority scorer** (`backend/utils/aiPriority.js`). The module
  `AiPriority` has two parts:
  - the specification function `Score`, built from the due-date bonus, the
    priority weight, the effort adjustment, the keyword bonus, rounding and
    clamping;
  - the method `CalculateAIPriority`, which keeps the source's running
    accumulator and its loop over the keywords, and is proved equal to
    `Score`.

  The lemmas prove:
  - the bounds, including that the lower clamp never fires;
  - monotonicity in the due date;
  - that the weight scales only the base;
  - the falsy zero-hour estimate;
  - that each keyword counts once;
  - case insensitivity.
- **The task routes** (`backend/routes/tasks.js`).
  - Pure "verdict" functions give the outcome of each request: the
    rejection in the source's order, or the document to write.
  - The handlers `PostTask`, `PutTask` and `DeleteTask` are methods that
    take the store, a `Database.Db`, as a parameter. They write the store
    and then broadcast, and a rejection changes nothing.
  - `NeedsRecalculation` is the predicate that decides whether an update
    recomputes the score.
  - `MyTasks` is the `/my-tasks` query.
- **The project routes** (`backend/routes/projects.js`):
  - project creation, with the creator as sole admin;
  - the `/my-projects` query, newest first;
  - the link to the task routes: the creator of a project passes their
    membership check.
- **The schemas** (`backend/models/Task.js`, `backend/models/Project.js`).
  Each is a datatype with a validity predicate covering enumerations,
  defaults and bounds. The length bounds count UTF-16 code units, as
  `maxlength` does.
- **The auth middleware** (`backend/middleware/auth.js`):
  - header extraction;
  - `Bearer ` stripping, with a round-trip lemma;
  - the 401 decisions.

  The JWT check and the user lookup are function parameters.
- **The client reducers** (`taskSlice.js`, `authSlice.js`, `projectSlice.js`).
  Each is a class whose methods update its fields in place. The list
  operations are specified by functions with their own proved properties:
  - find-first-by-id;
  - replace-first-match;
  - remove-by-id.
- **The task card and board** (`TaskCard.js`, `TaskBoard.js`):
  - the status-button table, checked against the workflow relation it
    implements;
  - the colour and message lookups;
  - the update requests the card dispatches;
  - the column-grouping loop, proved against a filter per column;
  - the drag-and-drop status choice.

Some behaviours of the code are easy to misread; the model follows the code:

- A keyword found in both the title and the description adds 5 once, not
  twice (`||` at `backend/utils/aiPriority.js:48`).
- An estimate of 0 hours earns no bonus, because 0 is falsy at
  `backend/utils/aiPriority.js:34`.
- Creating a task never calls the scorer, so a new task is stored with the
  schema default of 50 (`CreateKeepsDefaultScore` exhibits a task whose
  score would be 100).
- An update body may carry `aiPriorityScore` itself. When no score-relevant
  field changed, that value is written as it is (`ClientScorePassesThrough`).
- An update body is written as a whole (`backend/routes/tasks.js:122-126`).
  A body carrying `project` moves the task into that project, although
  only membership of the stored project is checked
  (`MemberMovesTaskAnywhere`); `createdBy` can be rewritten the same way.
  The `updated` event still goes to the old project's room.
- The recomputation test uses `!==` (`backend/routes/tasks.js:112`). A due
  date in the body is a string and the stored one a `Date`, so any body due
  date recomputes the score, even the stored date
  (`ResentDueDateRecalculates`).
- `backend/server.js` never calls `app.set('io', ...)`. Every broadcast is
  therefore guarded by `Db.ioRegistered`, which is false in the deployed
  program.

The model also brings out some consequences of the client code. The
reducer `updateTaskRealTime` is defined and exported, but none of the
client files here dispatches it, and the server never broadcasts. The
first two points therefore describe what would happen if a socket listener
dispatched it:

- A real-time `deleted` event would be ignored, so another user's deletion
  would stay on the board until the next fetch.
- A task would be appended both when the creator's own create request
  succeeds and when its `created` event arrives. Once it is listed twice,
  an update reaches only the first copy (`DuplicateKeepsStaleCopy`).
- A drag between columns does not follow the card's workflow
  (`DragSkipsWorkflow`).

Dates are milliseconds (`int`). Hours and the scorer's accumulator are
`real`: every intermediate value of the scorer is a multiple of 0.5, so
`real` is exact. `Math.round` is `Floor(x + 0.5)`.

## Model

| member | source | states |
|---|---|---|
| AiPriority.DaysUntilDue | backend/utils/aiPriority.js:14-17 | the day count is the least integer whose days cover the time left until the due date (`Math.ceil` of the millisecond difference over one day) |
| AiPriority.PriorityWeight | backend/utils/aiPriority.js:6-11 | the weight lies between 0.5 and 2, and a priority outside the table weighs 1 (`|| 1` at line 31) |
| AiPriority.DueBonus | backend/utils/aiPriority.js:13-28 | the due-date bonus lies between 0 and 30 |
| AiPriority.EffortAdjustment | backend/utils/aiPriority.js:33-40 | the effort adjustment lies between −5 and +10 |
| AiPriority.KeywordHits | backend/utils/aiPriority.js:43-51 | no more keywords are counted than there are keywords |
| AiPriority.Round | backend/utils/aiPriority.js:54 | `Math.round` gives the integer within half a unit of its argument, with halves rounding up |
| AiPriority.Clamp | backend/utils/aiPriority.js:54 | `Math.max(0, Math.min(100, n))` lies in [0, 100], leaves values in range alone and sends values beyond a bound to that bound |
| AiPriority.Score | backend/utils/aiPriority.js:2-55 | the score is an integer in [0, 100] |
| AiPriority.CalculateAIPriority | backend/utils/aiPriority.js:2-55 | the accumulator updated step by step, through the loop over the five keywords, ends at `Score` of the same input |
| AiPriority.NoKeywordNoHits | backend/utils/aiPriority.js:47-51 | when no keyword occurs in the title or description, the keyword bonus is 0 |
| AiPriority.BaselineScoreIs50 | backend/utils/aiPriority.js:3-55 | with no due date, priority `medium`, no or zero hours and no keyword, the score is 50 |
| AiPriority.DueBonusAntitone | backend/utils/aiPriority.js:19-27 | a nearer due date never earns a smaller bonus, and any due date earns at least as much as none |
| AiPriority.RoundMonotone | backend/utils/aiPriority.js:54 | rounding preserves order |
| AiPriority.WeightedMonotone | backend/utils/aiPriority.js:31 | weighting preserves the order of the base-plus-bonus values |
| AiPriority.ScoreMonotoneInDays | backend/utils/aiPriority.js:19-31 | with everything else fixed, fewer days until the due date never lower the score |
| AiPriority.DueDateNeverLowersScore | backend/utils/aiPriority.js:14-28 | giving a task a due date never lowers its score |
| AiPriority.WeightScalesBaseOnly | backend/utils/aiPriority.js:31-51 | changing the priority changes the pre-rounding score by the weight difference times (50 + due bonus) only: effort and keywords are added after the weighting |
| AiPriority.UnknownPriorityWeighsLikeMedium | backend/utils/aiPriority.js:31 | a priority outside the table scores exactly like `medium` |
| AiPriority.ZeroHoursEarnNoBonus | backend/utils/aiPriority.js:34 | an estimate of 0 hours scores exactly like no estimate |
| AiPriority.RawScoreBounds | backend/utils/aiPriority.js:3-51 | the keyword bonus is at most 25 and the value before rounding lies between 20 and 195 |
| AiPriority.LowerClampNeverFires | backend/utils/aiPriority.js:54 | every score is at least 20, so only the upper clamp ever acts |
| AiPriority.CriticalAndDueScoresMax | backend/utils/aiPriority.js:19-31 | a critical task due within a day scores 100 |
| AiPriority.RepeatedDescriptionAddsNoHits | backend/utils/aiPriority.js:47-51 | a description equal to the title adds no keyword hits |
| AiPriority.SameHitsSameScore | backend/utils/aiPriority.js:3-55 | the title and description affect the score only through the number of keywords found: two inputs that agree on the other fields and find as many keywords score the same |
| AiPriority.KeywordCountedOnce | backend/utils/aiPriority.js:48 | a keyword present in both title and description adds 5 once: copying the title into the description leaves the score unchanged |
| AiPriority.ScoreIgnoresCase | backend/utils/aiPriority.js:44-45 | lower-casing the title or the description does not change the score |
| Text.BlankIffTrimEmpty | backend/routes/tasks.js:34 | a string is blank exactly when trimming leaves it empty, which is the test `!title.trim()` |
| Text.TrimIdempotent | backend/models/Task.js:7 | the result of trimming is trimmed, and trimming it again changes nothing |
| Text.Trim | backend/routes/tasks.js:58 | `trim` returns a slice of the string that neither starts nor ends with whitespace, and everything dropped before and after it is whitespace |
| Text.IsBlank | backend/routes/tasks.js:34 | nothing but whitespace (a predicate; `BlankIffTrimEmpty` ties it to `!s.trim()`) |
| Text.ToLower | backend/utils/aiPriority.js:44-45 | ASCII lower-casing keeps the length and maps each character on its own |
| Text.Utf16Length | backend/models/Task.js:8-12 | `String.length` counts UTF-16 code units: between the character count and twice it |
| Text.AstralLengthIsDouble | backend/models/Task.js:8-12 | a string of characters outside the Basic Multilingual Plane has twice as many UTF-16 units as characters |
| TaskSchema.ValidTask | backend/models/Task.js:3-89 | what the task schema's validators accept (a predicate; `NewTaskValidIff` and `UpdateVerdict` use it) |
| TaskSchema.AstralTitleLimit | backend/models/Task.js:8 | a title made only of emoji passes `maxlength` with at most 50 of them |
| TaskSchema.PriorityNameRoundTrip | backend/models/Task.js:14-18 | the enumerated priority names and the priority values convert to each other without loss |
| TaskSchema.StatusNameRoundTrip | backend/models/Task.js:19-23 | the enumerated status names and the status values convert to each other without loss |
| ProjectSchema.ValidProject | backend/models/Project.js:3-54 | what the project schema's validators accept (a predicate; `NewProjectValidIff` uses it) |
| ProjectSchema.IsMember | backend/routes/tasks.js:48-50 | `members.some(m => m.user.toString() === userId)` (a predicate; `CreatorIsSoleMember` states it for a new project) |
| ProjectSchema.DefaultSettingsAllowed | backend/models/Project.js:44-54 | the default task priority of a project, `medium`, is allowed, and `critical` is not |
| Database.FindProject | backend/routes/tasks.js:42-45 | the project found has the requested id, and none is found exactly when no project has it |
| Database.Db.constructor | backend/server.js:10-18 | the store starts empty with nothing broadcast, and records whether a socket server is registered |
| Database.Db.Emit | backend/routes/tasks.js:77-82 | an event is appended to the broadcast log only when a socket server is registered |
| TaskRoutes.NewTaskRecord | backend/routes/tasks.js:57-67 | the document `Task.create` is given, built from the request (no contract of its own; `NewTaskDefaults` states its fields) |
| TaskRoutes.NewTaskDefaults | backend/routes/tasks.js:57-67 | the new document has the trimmed title (never empty, already trimmed), the trimmed description or `''`, the priority or `medium`, the due date, the hours or 0, status `todo`, 0 actual hours, the creator as creator and sole assignee, the requested project and score 50 |
| TaskRoutes.AcceptedTaskIsNewRecord | backend/routes/tasks.js:57-67 | an accepted creation stores exactly that document |
| TaskRoutes.CreateVerdict | backend/routes/tasks.js:34-67 | rejections come in the source's order (blank title 400, missing project 400, unknown project 404, non-member 403). A member's well-formed request is accepted exactly when the new document passes the schema, and is otherwise refused with 400. An accepted task passes the schema, carries the new id and the requested project, and the creator is a member of that project (its other fields: `AcceptedTaskIsNewRecord`, `NewTaskDefaults`) |
| TaskRoutes.NewTaskValidIff | backend/routes/tasks.js:57-67 | the new document passes the schema exactly when the trimmed title (at most 100 UTF-16 code units) and description (at most 500) fit, the priority is enumerated, the estimate is not negative and the creator id is present |
| TaskRoutes.CreateKeepsDefaultScore | backend/routes/tasks.js:57-67 | a critical task due now is stored with score 50, although the scorer gives it 100 |
| TaskRoutes.NeedsRecalculation | backend/routes/tasks.js:110-113 | some score-relevant field is in the body and `!==` its stored value (a predicate; `SameValuesNoRecalculation` characterises it) |
| TaskRoutes.DueDateDiffers | backend/routes/tasks.js:112 | `!==` between a body due date (a string or `null`) and the stored `Date` or `null` (a predicate; see `ResentDueDateRecalculates`) |
| TaskRoutes.Overlay | backend/routes/tasks.js:116-119 | `{...task.toObject(), ...req.body}`: each field the body carries replaces the stored one (a function used by `ApplyPatch`) |
| TaskRoutes.ApplyPatch | backend/routes/tasks.js:109-126 | the updated task keeps its id, and takes the body's project and creator when the body carries them. Its score is recomputed from the stored task overlaid with the body when a relevant field changed, and otherwise is the body's score or the stored one |
| TaskRoutes.UnrelatedPatchKeepsScore | backend/routes/tasks.js:110-126 | a body without score-relevant fields or a score changes only the fields it carries among status, actual hours, assignees, project and creator |
| TaskRoutes.SameValuesNoRecalculation | backend/routes/tasks.js:110-113 | no recomputation happens exactly when the body's title, description, priority and estimate are absent or equal to the stored ones, and its due date is absent or a `null` for a task without one |
| TaskRoutes.ResentDueDateRecalculates | backend/routes/tasks.js:112 | a body that re-sends the stored due date still triggers a recomputation |
| TaskRoutes.ClientScorePassesThrough | backend/routes/tasks.js:115-126 | without a relevant change, a score carried by the body is written as it is |
| TaskRoutes.UpdateVerdict | backend/routes/tasks.js:94-126 | an unknown id gives 404, a task whose project is gone 400, and a non-member of the stored project 403. A member's update is accepted exactly when the patched task passes the schema, and is otherwise refused with 400. An accepted update is the patch applied to the stored task, keeps the id and takes the body's project if it carries one |
| TaskRoutes.MemberMovesTaskAnywhere | backend/routes/tasks.js:100-126 | a member of a task's project can move the task into any other project by naming it in the body, whether or not they belong to it |
| TaskRoutes.UnknownPriorityNeverStored | backend/routes/tasks.js:115-126 | an update whose body names a priority outside the enumeration is refused, so no score computed for it is stored |
| TaskRoutes.DeleteVerdict | backend/routes/tasks.js:146-159 | an unknown id gives 404, a task whose project is gone 400, and a non-member 403. A member's deletion of an existing task is accepted and names the stored task |
| TaskRoutes.CreateKeepsStoreValid | backend/routes/tasks.js:57-67 | an accepted creation keeps every stored task valid and filed under its own id |
| TaskRoutes.PostTask | backend/routes/tasks.js:26-89 | a rejection stores and broadcasts nothing. An accepted task is stored under its id, then `created` with the task is broadcast to its project's room if a socket server is registered. The store stays valid |
| TaskRoutes.UpdateKeepsStoreValid | backend/routes/tasks.js:122-126 | an accepted update files a task that passed the validators under its own id, so the store stays valid |
| TaskRoutes.PutTask | backend/routes/tasks.js:92-141 | a rejection changes nothing. An accepted update replaces the stored task, then `updated` with the task is broadcast to the room of the project the task was in before the update. The store stays valid |
| TaskRoutes.DeleteTask | backend/routes/tasks.js:144-175 | a rejection changes nothing. An accepted deletion removes the task, then `deleted` with only its id is broadcast |
| TaskRoutes.MyTasks | backend/routes/tasks.js:178-193 | at most 1000 tasks, each assigned to the user and not completed. Unless the limit is reached, every such task is returned |
| ProjectRoutes.NewProjectRecord | backend/routes/projects.js:42-51 | the document `Project.create` is given (no contract of its own; `CreateProjectVerdict` states its fields) |
| ProjectRoutes.CreateProjectVerdict | backend/routes/projects.js:34-51 | a missing or blank name gives 400. Otherwise the request is accepted exactly when the new document passes the schema, and is refused with 400 if not. An accepted project has the trimmed name, the trimmed description or `''`, the colour or `#3B82F6`, status `active` and the default settings; it is created by the caller, whose sole member is the caller as admin |
| ProjectRoutes.NewProjectValidIff | backend/routes/projects.js:42-51 | the new project passes the schema exactly when the trimmed name (at most 100 UTF-16 code units) and description (at most 500) fit and the creator id is present |
| ProjectRoutes.CreatorIsSoleMember | backend/routes/projects.js:47-50 | the creator is a member of the new project, and nobody else is |
| ProjectRoutes.PostProject | backend/routes/projects.js:28-72 | a rejection stores nothing. An accepted project is appended with status 201, and the store stays valid. The response carries the whole project (see "Left out") |
| ProjectRoutes.MyProjects | backend/routes/projects.js:93-95 | exactly the projects that list the user among their members are returned |
| ProjectRoutes.NewestFirst | backend/routes/projects.js:95 | a project created after the others comes first for its members, followed by the earlier list |
| ProjectRoutes.CreatedProjectListedFirst | backend/routes/projects.js:42-51 | a project just created heads its creator's project list |
| ProjectRoutes.CreatorMayCreateTasks | backend/routes/tasks.js:42-54 | in a project just created, a well-formed task request by its creator is refused neither as "project not found" nor as "not authorized" |
| AuthMiddleware.ExtractToken | backend/middleware/auth.js:14-17 | after a `Bearer ` prefix, the token is what follows once the leading whitespace is dropped. Any other header is the token as it is |
| AuthMiddleware.Decide | backend/middleware/auth.js:4-33 | a missing or empty header gives 401 "No token". The request is authenticated exactly when the token verifies and its user exists, and then with that user. Every refusal is 401 |
| AuthMiddleware.Authenticate | backend/middleware/auth.js:4-33 | the early-return steps reach the same outcome as `Decide` |
| AuthMiddleware.BearerRoundTrip | backend/middleware/auth.js:15-17 | `Bearer `, any whitespace and then a token give back that token |
| AuthMiddleware.EmptyBearerIsNotValid | backend/middleware/auth.js:15-24 | `Bearer ` with nothing after it leaves an empty token, which is refused as not valid rather than as missing |
| TaskSlice.MessageOr | frontend/src/store/slices/taskSlice.js:144 | a missing or empty message gives way to the fallback |
| TaskSlice.FirstIndexOf | frontend/src/store/slices/taskSlice.js:121 | −1 exactly when no task has the id; otherwise the position of the first task that has it |
| TaskSlice.ReplaceFirst | frontend/src/store/slices/taskSlice.js:120-125 | length is kept and an unknown id leaves the list unchanged. Otherwise exactly the first task with the id is replaced |
| TaskSlice.RemoveById | frontend/src/store/slices/taskSlice.js:160-164 | no task with the id remains, and every other task is kept |
| TaskSlice.RemoveByIdAppend | frontend/src/store/slices/taskSlice.js:161-163 | removal works part by part, so the remaining tasks keep their order |
| TaskSlice.RemoveAbsentId | frontend/src/store/slices/taskSlice.js:161-163 | removing an id no task has leaves the list unchanged |
| TaskSlice.DuplicateKeepsStaleCopy | frontend/src/store/slices/taskSlice.js:117-125 | once a task is listed twice, an update replaces the first copy and leaves the later one stale |
| TaskSlice.TasksState.constructor | frontend/src/store/slices/taskSlice.js:102-108 | the initial state: empty lists, not loading, no error |
| TaskSlice.TasksState.ClearError | frontend/src/store/slices/taskSlice.js:110-112 | the error is cleared and nothing else changes |
| TaskSlice.TasksState.UpdateTaskRealTime | frontend/src/store/slices/taskSlice.js:113-129 | `created` appends without de-duplication, `updated` replaces the first task with its id, and `deleted` leaves the list unchanged |
| TaskSlice.TasksState.FetchPending | frontend/src/store/slices/taskSlice.js:134-137 | loading starts and the error is cleared |
| TaskSlice.TasksState.FetchFulfilled | frontend/src/store/slices/taskSlice.js:138-141 | the fetched list replaces the current one and loading ends |
| TaskSlice.TasksState.FetchRejected | frontend/src/store/slices/taskSlice.js:142-145 | loading ends and the error is the payload's message or "Failed to fetch tasks". The list is kept |
| TaskSlice.TasksState.CreateFulfilled | frontend/src/store/slices/taskSlice.js:147-149 | the created task is appended |
| TaskSlice.TasksState.UpdateFulfilled | frontend/src/store/slices/taskSlice.js:151-158 | the first task with the payload's id is replaced; nothing else changes |
| TaskSlice.TasksState.DeleteFulfilled | frontend/src/store/slices/taskSlice.js:160-164 | every task with the deleted id is removed, and the rest keep their order |
| AuthSlice.AuthState.constructor | frontend/src/store/slices/authSlice.js:167-173 | the initial session is unauthenticated and has no user, even with a stored token |
| AuthSlice.AuthState.Logout | frontend/src/store/slices/authSlice.js:175-180 | user and token are dropped and the session is unauthenticated |
| AuthSlice.AuthState.ClearError | frontend/src/store/slices/authSlice.js:181-183 | the error is cleared and nothing else changes |
| AuthSlice.AuthState.Pending | frontend/src/store/slices/authSlice.js:188-191 | loading starts and the error is cleared, for each of the three requests |
| AuthSlice.AuthState.Fulfilled | frontend/src/store/slices/authSlice.js:192-230 | the session is authenticated with the returned user. Login and registration also take the returned token, and `getCurrentUser` keeps the old one |
| AuthSlice.AuthState.Rejected | frontend/src/store/slices/authSlice.js:197-235 | the session becomes unauthenticated with the payload as error. Only a failed `getCurrentUser` drops user and token. Nobody is ever authenticated without a user |
| ProjectSlice.ProjectsState.constructor | frontend/src/store/slices/projectSlice.js:94-99 | the initial state: no projects, no current project, not loading, no error |
| ProjectSlice.ProjectsState.SetCurrentProject | frontend/src/store/slices/projectSlice.js:101-103 | only the current project changes |
| ProjectSlice.ProjectsState.ClearError | frontend/src/store/slices/projectSlice.js:104-106 | only the error changes |
| ProjectSlice.ProjectsState.Pending | frontend/src/store/slices/projectSlice.js:111-131 | loading starts and the error is cleared |
| ProjectSlice.ProjectsState.CreateFulfilled | frontend/src/store/slices/projectSlice.js:116-121 | the created project is appended and becomes the current project |
| ProjectSlice.ProjectsState.FetchFulfilled | frontend/src/store/slices/projectSlice.js:132-135 | the fetched list replaces the current one |
| ProjectSlice.ProjectsState.Rejected | frontend/src/store/slices/projectSlice.js:122-139 | loading ends, the payload becomes the error and the list is kept |
| TaskCard.StatusButtons | frontend/src/components/Tasks/TaskCard.js:26-50 | each status offers at most two known targets: never itself and never the same target twice. Every open status offers `completed` on its second button, and an unknown status offers nothing |
| TaskCard.ButtonsFollowWorkflow | frontend/src/components/Tasks/TaskCard.js:26-50 | a card offers a move exactly when the workflow allows it (forward to review, back from review, any open task to completed, completed back to todo) |
| TaskCard.CompletedOnlyReopens | frontend/src/components/Tasks/TaskCard.js:43-46 | a completed task offers only the move back to `todo` |
| TaskCard.PriorityColor | frontend/src/components/Tasks/TaskCard.js:16-24 | exactly the four known priorities get a colour other than gray |
| TaskCard.PriorityColorsDistinct | frontend/src/components/Tasks/TaskCard.js:16-24 | different known priorities get different colours |
| TaskCard.StatusMessage | frontend/src/components/Tasks/TaskCard.js:88-95 | exactly the four known statuses get their own message; any other gets "updated" |
| TaskCard.HandleEdit | frontend/src/components/Tasks/TaskCard.js:52-62 | a blank title dispatches nothing. Otherwise the request sends the form's title (untrimmed), description and priority for this task, and nothing else relevant |
| TaskCard.HandleStatusChange | frontend/src/components/Tasks/TaskCard.js:81-86 | the request carries only the new status, so it never triggers a recomputation |
| TaskCard.UntouchedEditWritesSameTask | frontend/src/components/Tasks/TaskCard.js:9-13 | saving an edit form that was opened and left alone is allowed, recomputes nothing and writes the task back unchanged |
| TaskCard.StatusChangeKeepsScore | frontend/src/components/Tasks/TaskCard.js:81-86 | a status button changes the task's status and nothing else, score included |
| TaskBoard.ColumnIdsAreStatusNames | frontend/src/components/Tasks/TaskBoard.js:11-16 | the four column ids are the names of the four known statuses, pairwise distinct, and read back as their statuses |
| TaskBoard.EveryKnownStatusHasAColumn | frontend/src/components/Tasks/TaskBoard.js:11-16 | a status has a column exactly when it is one of the four known statuses |
| TaskBoard.GroupByStatus | frontend/src/components/Tasks/TaskBoard.js:18-23 | each column holds exactly the tasks of its status, in list order |
| TaskBoard.ColumnSizesAddUp | frontend/src/components/Tasks/TaskBoard.js:19-23 | the column sizes add up to the number of tasks with a known status |
| TaskBoard.TaskInItsColumnOnly | frontend/src/components/Tasks/TaskBoard.js:20-22 | a task appears in a column exactly when the column's status is its own |
| TaskBoard.DragEnd | frontend/src/components/Tasks/TaskBoard.js:25-35 | a drop outside every column dispatches nothing. Otherwise the request sets the dragged task's status to the column dropped on |
| TaskBoard.DragSkipsWorkflow | frontend/src/components/Tasks/TaskBoard.js:25-35 | a task still to do can be dragged straight to review, a move its card never offers |
| TaskBoard.DropOnOwnColumnWritesSameTask | frontend/src/components/Tasks/TaskBoard.js:25-35 | a drop back onto the task's own column still sends an update, which writes the task back unchanged |

## Left out

- Network and storage I/O. The async thunks of the three slices (axios
  calls, `localStorage`) are left out; each reducer case takes its payload
  as a parameter, and the stored token is a constructor parameter.
- Socket transport. The socket.io room joins and the relay in
  `backend/server.js` are left out; a broadcast is an entry in
  `Db.emitted`.
- Mongo query details. `populate`, timestamps and the `createdAt` order of
  `/my-projects` are not modelled: the projects are kept in creation order,
  so newest first is reverse order.
- The `/my-tasks` sort (by score, then due date) is not modelled. `MyTasks`
  filters the tasks in the order the query visits them, then applies the
  limit.
- `GET /api/tasks/project/:projectId` is not part of this model. It is an
  unfiltered query with a sort.
- The test routes of `backend/routes/projects.js` are not part of this
  model.
- `jwt.verify` and `User.findById` are left out of the auth middleware.
  They are foreign library and database calls, and become the oracle
  parameters `verify` and `findUser`.
- The clock and date parsing of the scorer are left out. The caller's
  `now` is a parameter, and `DaysUntilDue` is the day count the source
  computes from it.
- AiPriority.ScoreIgnoresCase: `toLowerCase` is modelled for ASCII letters
  only; full Unicode case mapping is not modelled. JavaScript maps some
  non-ASCII characters onto ASCII letters (KELVIN SIGN U+212A becomes `k`),
  so a title such as "BLOC\u212AER" matches `blocker` in the source but not
  in the model, and the score can differ by 5 per such keyword.
- Text.ToLower: only the ASCII letters `A`-`Z` are lower-cased; every other
  character is kept. JavaScript's `toLowerCase` differs on some non-ASCII
  input: U+0130 becomes `i` followed by U+0307, so the length grows; a
  capital sigma becomes `ς` or `σ` depending on its neighbours; and U+212A
  becomes `k`.
- AiPriority.PriorityWeight: priorities named like the properties of
  `Object.prototype` (`constructor`, `toString`, `__proto__`, ...) are not
  modelled. In the source `priorityWeights[priority] || 1` returns that
  property, and the score becomes `NaN`; the model weighs them 1. Such a
  priority never reaches the store (`UnknownPriorityNeverStored`).
- AiPriority.Score: for those priority names the source returns `NaN`, not
  an integer in [0, 100]; the model's score is the one for weight 1.
- AiPriority.UnknownPriorityWeighsLikeMedium: holds in the source for
  unknown priority names other than those of `Object.prototype`, which give
  `NaN`.
- Type coercion of request fields (numeric strings for hours) is not
  modelled. Each field has its modelled type. In a creation request
  `None` stands for any falsy value; in an update body it means the field
  is absent, and an empty string is a value like any other.
- Fields the modelled rules neither read nor test are not modelled: a
  task's `labels`, `dependencies`, `attachments` and `comments` (in the
  stored task and in an update body), and a member's `joinedAt`.
- Cast errors (a malformed ObjectId answered with 400 by the route's
  `catch`) are not modelled. Ids are plain strings.
- The schema's validator messages are not modelled. A rejected document
  gives a 400 with a fixed message.
- ProjectRoutes.PostProject: the 201 body is the whole stored project. The
  source's body (`backend/routes/projects.js:55-65`) lists the fields one by
  one and leaves out `settings`; it adds the timestamps, which are not
  modelled.
- Which `Bearer` token the client sends is not modelled; that is thunk
  code.
- Stored tasks are those the create route writes, so a task without a due
  date stores `null` (never an unset field); `DueDateDiffers` relies on it.
- TaskBoard.GroupByStatus: JavaScript object keys inherited from
  `Object.prototype` (a status named `constructor`, say) are not
  modelled. The schema's enumeration rules such statuses out of the store.
- Rendering, toasts, navigation and form state of the UI components are
  not modelled.
