/** The task board: the four status columns, the loop that sorts the
    project's tasks into them, and the status a drag-and-drop writes. */
module TaskBoard {
  import opened Wrappers
  import opened Ids
  import opened TaskSchema
  import opened Seqs
  import opened TaskRoutes
  import opened TaskCard

  /** The columns in display order, each named by the status it holds. */
  const ColumnStatuses: seq<Status> := [Todo, InProgress, Review, Completed]

  /** The tasks of each column. */
  datatype Columns = Columns(todo: seq<Task>, inProgress: seq<Task>, review: seq<Task>, completed: seq<Task>)

  /** The tasks the column of a status shows; a status without a column shows none. */
  function Column(c: Columns, s: Status): seq<Task> {
    match s
    case Todo => c.todo
    case InProgress => c.inProgress
    case Review => c.review
    case Completed => c.completed
    case OtherStatus(_) => []
  }

  function HasStatus(s: Status): Task -> bool {
    (t: Task) => t.status == s
  }

  function HasKnownStatus(): Task -> bool {
    (t: Task) => IsKnownStatus(t.status)
  }

  /** The column ids are the four status names, all different, and a column
      id read back as a status is the status of that column. */
  lemma ColumnIdsAreStatusNames(i: int, j: int)
    requires 0 <= i < |ColumnStatuses| && 0 <= j < |ColumnStatuses|
    ensures IsKnownStatus(ColumnStatuses[i])
    ensures ParseStatus(StatusName(ColumnStatuses[i])) == ColumnStatuses[i]
    ensures i != j ==> StatusName(ColumnStatuses[i]) != StatusName(ColumnStatuses[j])
  {
    StatusNameRoundTrip(ColumnStatuses[i], StatusName(ColumnStatuses[i]));
    StatusNameRoundTrip(ColumnStatuses[j], StatusName(ColumnStatuses[j]));
  }

  /** Every known status has its column. */
  lemma EveryKnownStatusHasAColumn(s: Status)
    ensures IsKnownStatus(s) <==> s in ColumnStatuses
  {
  }

  /** One more task after the first `i`. */
  lemma FilterSnoc(s: seq<Task>, i: int, keep: Task -> bool)
    requires 0 <= i < |s|
    ensures Filter(s[..i + 1], keep) == Filter(s[..i], keep) + (if keep(s[i]) then [s[i]] else [])
  {
    assert s[..i + 1] == s[..i] + [s[i]];
    FilterAppend(s[..i], [s[i]], keep);
    assert Filter([s[i]], keep) == (if keep(s[i]) then [s[i]] else []) + Filter([], keep);
  }

  /** The grouping loop: each task is pushed onto the column of its status,
      in list order; a task whose status has no column is skipped. */
  method GroupByStatus(tasks: seq<Task>) returns (columns: Columns)
    ensures forall s :: s in ColumnStatuses ==> Column(columns, s) == Filter(tasks, HasStatus(s))
  {
    columns := Columns([], [], [], []);
    for i := 0 to |tasks|
      invariant columns.todo == Filter(tasks[..i], HasStatus(Todo))
      invariant columns.inProgress == Filter(tasks[..i], HasStatus(InProgress))
      invariant columns.review == Filter(tasks[..i], HasStatus(Review))
      invariant columns.completed == Filter(tasks[..i], HasStatus(Completed))
    {
      var task := tasks[i];
      FilterSnoc(tasks, i, HasStatus(Todo));
      FilterSnoc(tasks, i, HasStatus(InProgress));
      FilterSnoc(tasks, i, HasStatus(Review));
      FilterSnoc(tasks, i, HasStatus(Completed));
      match task.status {
        case Todo => columns := columns.(todo := columns.todo + [task]);
        case InProgress => columns := columns.(inProgress := columns.inProgress + [task]);
        case Review => columns := columns.(review := columns.review + [task]);
        case Completed => columns := columns.(completed := columns.completed + [task]);
        case OtherStatus(_) =>
      }
    }
    assert tasks[..|tasks|] == tasks;
  }

  /** The column counts add up to the number of tasks with a known status:
      no task is shown twice and only unknown statuses are dropped. */
  lemma {:induction false} ColumnSizesAddUp(tasks: seq<Task>)
    ensures |Filter(tasks, HasStatus(Todo))| + |Filter(tasks, HasStatus(InProgress))|
          + |Filter(tasks, HasStatus(Review))| + |Filter(tasks, HasStatus(Completed))|
         == |Filter(tasks, HasKnownStatus())|
  {
    if tasks != [] {
      ColumnSizesAddUp(tasks[1..]);
    }
  }

  /** A task lands in the column of its own status and in no other; a task
      whose status has no column is on no column. */
  lemma TaskInItsColumnOnly(tasks: seq<Task>, k: int, s: Status)
    requires 0 <= k < |tasks| && s in ColumnStatuses
    ensures tasks[k] in Filter(tasks, HasStatus(s)) <==> tasks[k].status == s
  {
    var column := Filter(tasks, HasStatus(s));
    if tasks[k] in column {
      var j :| 0 <= j < |column| && column[j] == tasks[k];
      assert HasStatus(s)(column[j]);
    }
  }

  /** `handleDragEnd`: a drop outside every column does nothing; otherwise
      the task is moved to the status named by the column it was dropped on. */
  function DragEnd(draggableId: TaskId, destination: Option<string>): (request: Option<UpdateRequest>)
    ensures destination.None? <==> request.None?
    ensures request.Some? ==>
              request.value.taskId == draggableId && request.value.patch == StatusPatch(ParseStatus(destination.value))
  {
    if destination.None? then None
    else Some(UpdateRequest(draggableId, StatusPatch(ParseStatus(destination.value))))
  }

  /** Dragging does not follow the card's workflow: a task still to do can be
      dropped straight onto the review column, a move its card never offers. */
  lemma {:induction false} DragSkipsWorkflow(t: Task)
    requires t.status == Todo
    ensures var request := DragEnd(t.id, Some(StatusName(Review)));
            request.Some? && request.value.patch.status == Some(Review)
    ensures !Workflow(t.status, Review)
    ensures forall i :: 0 <= i < |StatusButtons(t.status)| ==> StatusButtons(t.status)[i].target != Review
  {
    StatusNameRoundTrip(Review, StatusName(Review));
    ButtonsFollowWorkflow(t.status, Review);
  }

  /** Dropping a task back onto its own column still sends an update, which
      writes the task back unchanged. */
  lemma {:induction false} DropOnOwnColumnWritesSameTask(t: Task, now: Date)
    requires ValidTask(t)
    ensures var request := DragEnd(t.id, Some(StatusName(t.status)));
            request.Some? && ApplyPatch(t, request.value.patch, now) == t
  {
    StatusNameRoundTrip(t.status, StatusName(t.status));
    UnrelatedPatchKeepsScore(t, StatusPatch(t.status), now);
  }
}
