/** The logic of a task card: the status buttons it offers, the colour of
    its priority badge, the message shown after a status change, and the
    update requests its edit form and status buttons dispatch. */
module TaskCard {
  import opened Wrappers
  import opened Ids
  import opened Text
  import opened TaskSchema
  import opened TaskRoutes

  /** One status button: its caption, the status it moves the task to, and
      its colour classes. */
  datatype StatusButton = StatusButton(caption: string, target: Status, color: string)

  /** The argument of the `updateTask` request: which task, and the body of
      the `PUT`. */
  datatype UpdateRequest = UpdateRequest(taskId: TaskId, patch: TaskPatch)

  const BlueButton := "bg-blue-100 text-blue-700 hover:bg-blue-200"
  const GreenButton := "bg-green-100 text-green-700 hover:bg-green-200"
  const YellowButton := "bg-yellow-100 text-yellow-700 hover:bg-yellow-200"
  const GrayButton := "bg-gray-100 text-gray-700 hover:bg-gray-200"

  /** `getStatusButtons`: the moves a card offers from its status.  Each
      status offers at most two, never itself, never the same target twice
      (targets are the buttons' keys), and every known status but
      `completed` offers `completed`, on its second button. */
  function StatusButtons(status: Status): (buttons: seq<StatusButton>)
    ensures |buttons| <= 2
    ensures forall i :: 0 <= i < |buttons| ==> buttons[i].target != status && IsKnownStatus(buttons[i].target)
    ensures forall i, j :: 0 <= i < j < |buttons| ==> buttons[i].target != buttons[j].target
    ensures IsKnownStatus(status) && status != Completed ==> |buttons| == 2 && buttons[1].target == Completed
    ensures !IsKnownStatus(status) ==> buttons == []
  {
    match status
    case Todo => [StatusButton("Start", InProgress, BlueButton), StatusButton("Complete", Completed, GreenButton)]
    case InProgress => [StatusButton("Review", Review, YellowButton), StatusButton("Complete", Completed, GreenButton)]
    case Review => [StatusButton("In Progress", InProgress, BlueButton), StatusButton("Complete", Completed, GreenButton)]
    case Completed => [StatusButton("Reopen", Todo, GrayButton)]
    case OtherStatus(_) => []
  }

  /** The workflow the buttons implement, as a relation: work moves forward
      through review to completion, review can send work back, any open
      task can be completed, and a completed one can only be reopened. */
  predicate Workflow(from: Status, to: Status) {
    || (from == Todo && to == InProgress)
    || (from == InProgress && to == Review)
    || (from == Review && to == InProgress)
    || ((from.Todo? || from.InProgress? || from.Review?) && to == Completed)
    || (from == Completed && to == Todo)
  }

  /** A card offers exactly the moves of the workflow. */
  lemma ButtonsFollowWorkflow(from: Status, to: Status)
    ensures (exists i :: 0 <= i < |StatusButtons(from)| && StatusButtons(from)[i].target == to) <==> Workflow(from, to)
  {
    var buttons := StatusButtons(from);
    if Workflow(from, to) {
      match from
      case Todo => assert buttons[if to == InProgress then 0 else 1].target == to;
      case InProgress => assert buttons[if to == Review then 0 else 1].target == to;
      case Review => assert buttons[if to == InProgress then 0 else 1].target == to;
      case Completed => assert buttons[0].target == to;
    }
  }

  /** A completed task can only be reopened. */
  lemma CompletedOnlyReopens(to: Status)
    ensures (exists i :: 0 <= i < |StatusButtons(Completed)| && StatusButtons(Completed)[i].target == to) <==> to == Todo
  {
    ButtonsFollowWorkflow(Completed, to);
  }

  const RedBadge := "bg-red-100 text-red-800 border-red-200"
  const YellowBadge := "bg-yellow-100 text-yellow-800 border-yellow-200"
  const GreenBadge := "bg-green-100 text-green-800 border-green-200"
  const PurpleBadge := "bg-purple-100 text-purple-800 border-purple-200"
  const GrayBadge := "bg-gray-100 text-gray-800 border-gray-200"

  /** `getPriorityColor`: a colour per known priority, gray otherwise. */
  function PriorityColor(p: Priority): (color: string)
    ensures IsKnownPriority(p) <==> color != GrayBadge
  {
    match p
    case High => RedBadge
    case Medium => YellowBadge
    case Low => GreenBadge
    case Critical => PurpleBadge
    case OtherPriority(_) => GrayBadge
  }

  /** Different priorities are told apart by their badge. */
  lemma PriorityColorsDistinct(p: Priority, q: Priority)
    requires IsKnownPriority(p) && IsKnownPriority(q) && p != q
    ensures PriorityColor(p) != PriorityColor(q)
  {
    assert RedBadge[3] == 'r' && YellowBadge[3] == 'y' && GreenBadge[3] == 'g' && PurpleBadge[3] == 'p';
  }

  const UpdatedMessage := "updated"

  /** `statusMessages[newStatus] || 'updated'`: the words of the toast after
      a status change. */
  function StatusMessage(s: Status): (message: string)
    ensures IsKnownStatus(s) <==> message != UpdatedMessage
  {
    match s
    case Todo => "moved to To Do"
    case InProgress => "started"
    case Review => "moved to Review"
    case Completed => "completed"
    case OtherStatus(_) => UpdatedMessage
  }

  /** The fields of the card's edit form. */
  datatype EditForm = EditForm(title: string, description: string, priority: Priority)

  /** The form as it opens: the task's own values. */
  function InitialEditForm(t: Task): EditForm {
    EditForm(t.title, t.description, t.priority)
  }

  /** A body carrying only `status`. */
  function StatusPatch(s: Status): TaskPatch {
    TaskPatch(None, None, None, None, None, Some(s), None, None, None, None, None)
  }

  /** `handleEdit`: a blank title stops the save; otherwise the form is sent
      as it is, untrimmed. */
  function HandleEdit(t: Task, form: EditForm): (request: Option<UpdateRequest>)
    ensures request.None? <==> IsBlank(form.title)
    ensures request.Some? ==>
              && request.value.taskId == t.id
              && request.value.patch.title == Some(form.title)
              && request.value.patch.description == Some(form.description)
              && request.value.patch.priority == Some(form.priority)
              && request.value.patch.dueDate.None? && request.value.patch.estimatedHours.None?
              && request.value.patch.status.None? && request.value.patch.aiPriorityScore.None?
              && request.value.patch.project.None? && request.value.patch.createdBy.None?
  {
    if IsBlank(form.title) then None
    else Some(UpdateRequest(t.id, TaskPatch(Some(form.title), Some(form.description), Some(form.priority),
                                            None, None, None, None, None, None, None, None)))
  }

  /** `handleStatusChange`: a body carrying only the new status. */
  function HandleStatusChange(t: Task, s: Status): (request: UpdateRequest)
    ensures request.taskId == t.id && request.patch.status == Some(s)
    ensures !NeedsRecalculation(t, request.patch) && request.patch.aiPriorityScore.None?
  {
    UpdateRequest(t.id, StatusPatch(s))
  }

  /** Saving the edit form of a stored task without touching it is allowed,
      recomputes nothing and writes the task back unchanged. */
  lemma {:induction false} UntouchedEditWritesSameTask(t: Task, now: Date)
    requires ValidTask(t)
    ensures HandleEdit(t, InitialEditForm(t)).Some?
    ensures var request := HandleEdit(t, InitialEditForm(t)).value;
            !NeedsRecalculation(t, request.patch) && ApplyPatch(t, request.patch, now) == t
  {
    assert !IsWhitespace(t.title[0]);
    assert !IsBlank(t.title);
    var patch := HandleEdit(t, InitialEditForm(t)).value.patch;
    assert !NeedsRecalculation(t, patch);
    assert Overlay(t, patch) == t;
    TrimmedIffFixedPoint(t.title);
  }

  /** A status change through the buttons never changes the score: only the
      status is written. */
  lemma StatusChangeKeepsScore(t: Task, s: Status, now: Date)
    requires ValidTask(t)
    ensures ApplyPatch(t, HandleStatusChange(t, s).patch, now) == t.(status := s)
  {
    UnrelatedPatchKeepsScore(t, StatusPatch(s), now);
  }
}
