/** The client's task list (the `tasks` slice of the Redux store): the
    `clearError` and `updateTaskRealTime` reducers and the settled cases of
    the fetch, create, update and delete requests.  The requests themselves
    are not part of this model; each case receives its payload. */
module TaskSlice {
  import opened Wrappers
  import opened Ids
  import opened TaskSchema
  import opened TaskEvents
  import opened Seqs

  const FetchFailed := "Failed to fetch tasks"

  /** `message || fallback`: a missing or empty message gives way to the fallback. */
  function MessageOr(message: Option<string>, fallback: string): (r: string)
    ensures message.Some? && message.value != [] ==> r == message.value
    ensures message.None? || message.value == [] ==> r == fallback
  {
    if message.Some? && message.value != [] then message.value else fallback
  }

  /** `findIndex(t => t._id === id)`: the position of the first task with
      that id, or -1 when there is none. */
  function FirstIndexOf(s: seq<Task>, id: TaskId): (i: int)
    ensures -1 <= i < |s|
    ensures i == -1 <==> forall j :: 0 <= j < |s| ==> s[j].id != id
    ensures i >= 0 ==> s[i].id == id && forall j :: 0 <= j < i ==> s[j].id != id
  {
    if s == [] then -1
    else if s[0].id == id then 0
    else
      var k := FirstIndexOf(s[1..], id);
      if k == -1 then -1 else k + 1
  }

  /** The list after `list[findIndex(...)] = task` when an index was found:
      the first task with the same id is replaced, and nothing else moves. */
  function ReplaceFirst(s: seq<Task>, task: Task): (r: seq<Task>)
    ensures |r| == |s|
    ensures (forall j :: 0 <= j < |s| ==> s[j].id != task.id) ==> r == s
    ensures forall k :: 0 <= k < |s| && s[k].id == task.id && (forall j :: 0 <= j < k ==> s[j].id != task.id) ==>
              r == s[k := task]
  {
    var i := FirstIndexOf(s, task.id);
    if i == -1 then s else s[i := task]
  }

  /** `filter(task => task._id !== id)`. */
  function RemoveById(s: seq<Task>, id: TaskId): (r: seq<Task>)
    ensures forall i :: 0 <= i < |r| ==> r[i].id != id && r[i] in s
    ensures forall i :: 0 <= i < |s| && s[i].id != id ==> s[i] in r
  {
    Filter(s, (t: Task) => t.id != id)
  }

  /** Removal keeps the survivors in their original order: removing from a
      concatenation removes from each part. */
  lemma RemoveByIdAppend(a: seq<Task>, b: seq<Task>, id: TaskId)
    ensures RemoveById(a + b, id) == RemoveById(a, id) + RemoveById(b, id)
  {
    FilterAppend(a, b, (t: Task) => t.id != id);
  }

  /** Removing an id no task has changes nothing. */
  lemma RemoveAbsentId(s: seq<Task>, id: TaskId)
    requires forall i :: 0 <= i < |s| ==> s[i].id != id
    ensures RemoveById(s, id) == s
  {
    FilterKeepsAll(s, (t: Task) => t.id != id);
  }

  /** There is no de-duplication: once a task is listed twice (the
      `created` event after the creator's own `createTask.fulfilled`), an
      update replaces the older copy and the later copy keeps its old value. */
  lemma {:induction false} DuplicateKeepsStaleCopy(s: seq<Task>, stale: Task, newer: Task)
    requires exists k :: 0 <= k < |s| && s[k].id == stale.id
    requires newer.id == stale.id && newer != stale
    ensures var r := ReplaceFirst(s + [stale], newer);
            r[|s|] == stale && newer in r
  {
    var k := FirstIndexOf(s, stale.id);
    var t := s + [stale];
    assert 0 <= k < |s| && t[k] == s[k];
    assert forall j :: 0 <= j < k ==> t[j] == s[j];
    assert ReplaceFirst(t, newer) == t[k := newer];
    assert t[k := newer][k] == newer;
  }

  /** The state of the slice.  `tasks` and `aiPrioritizedTasks` are declared
      but no reducer writes them. */
  class TasksState {
    var tasks: seq<Task>
    var currentProjectTasks: seq<Task>
    var loading: bool
    var error: Option<string>
    var aiPrioritizedTasks: seq<Task>

    constructor ()
      ensures tasks == [] && currentProjectTasks == [] && !loading && error == None && aiPrioritizedTasks == []
    {
      tasks := [];
      currentProjectTasks := [];
      loading := false;
      error := None;
      aiPrioritizedTasks := [];
    }

    method ClearError()
      modifies this`error
      ensures error == None
    {
      error := None;
    }

    /** Replace the first task with the payload's id, if there is one. */
    method ReplaceMatching(task: Task)
      modifies this`currentProjectTasks
      ensures currentProjectTasks == ReplaceFirst(old(currentProjectTasks), task)
    {
      var index := FirstIndexOf(currentProjectTasks, task.id);
      if index != -1 {
        currentProjectTasks := currentProjectTasks[index := task];
      }
    }

    /** `updateTaskRealTime`: a `created` event appends, an `updated` event
        replaces the first task with its id, and any other event, `deleted`
        included, is ignored. */
    method UpdateTaskRealTime(event: TaskEvent)
      modifies this`currentProjectTasks
      ensures match event
              case Created(t) => currentProjectTasks == old(currentProjectTasks) + [t]
              case Updated(t) => currentProjectTasks == ReplaceFirst(old(currentProjectTasks), t)
              case Deleted(_) => currentProjectTasks == old(currentProjectTasks)
    {
      match event {
        case Created(t) =>
          currentProjectTasks := currentProjectTasks + [t];
        case Updated(t) =>
          ReplaceMatching(t);
        case Deleted(_) =>
      }
    }

    method FetchPending()
      modifies this`loading, this`error
      ensures loading && error == None
    {
      loading := true;
      error := None;
    }

    /** The fetched list replaces the current one wholesale. */
    method FetchFulfilled(payload: seq<Task>)
      modifies this`loading, this`currentProjectTasks
      ensures !loading && currentProjectTasks == payload
    {
      loading := false;
      currentProjectTasks := payload;
    }

    /** `action.payload?.message || 'Failed to fetch tasks'`; the list is kept. */
    method FetchRejected(payloadMessage: Option<string>)
      modifies this`loading, this`error
      ensures !loading && error == Some(MessageOr(payloadMessage, FetchFailed))
    {
      loading := false;
      error := Some(MessageOr(payloadMessage, FetchFailed));
    }

    method CreateFulfilled(task: Task)
      modifies this`currentProjectTasks
      ensures currentProjectTasks == old(currentProjectTasks) + [task]
    {
      currentProjectTasks := currentProjectTasks + [task];
    }

    method UpdateFulfilled(task: Task)
      modifies this`currentProjectTasks
      ensures currentProjectTasks == ReplaceFirst(old(currentProjectTasks), task)
    {
      ReplaceMatching(task);
    }

    /** The payload is the id of the deleted task. */
    method DeleteFulfilled(id: TaskId)
      modifies this`currentProjectTasks
      ensures currentProjectTasks == RemoveById(old(currentProjectTasks), id)
    {
      currentProjectTasks := Filter(currentProjectTasks, (t: Task) => t.id != id);
    }
  }
}
