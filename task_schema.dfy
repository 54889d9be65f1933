/** The Mongoose task schema: enumerations, defaults and bounds. */
module TaskSchema {
  import opened Wrappers
  import opened Ids
  import opened Text

  /** A task priority as stored in the `priority` string field; `OtherPriority`
      holds any string outside the enumeration (the schema rejects it, the
      scorer and the card fall back to defaults for it). */
  datatype Priority = Low | Medium | High | Critical | OtherPriority(name: string)

  /** A task status; `OtherStatus` holds any string outside the enumeration. */
  datatype Status = Todo | InProgress | Review | Completed | OtherStatus(name: string)

  function PriorityName(p: Priority): string {
    match p
    case Low => "low"
    case Medium => "medium"
    case High => "high"
    case Critical => "critical"
    case OtherPriority(n) => n
  }

  function ParsePriority(s: string): Priority {
    if s == "low" then Low
    else if s == "medium" then Medium
    else if s == "high" then High
    else if s == "critical" then Critical
    else OtherPriority(s)
  }

  function StatusName(s: Status): string {
    match s
    case Todo => "todo"
    case InProgress => "in-progress"
    case Review => "review"
    case Completed => "completed"
    case OtherStatus(n) => n
  }

  function ParseStatus(s: string): Status {
    if s == "todo" then Todo
    else if s == "in-progress" then InProgress
    else if s == "review" then Review
    else if s == "completed" then Completed
    else OtherStatus(s)
  }

  /** The value is one of the schema's enumeration members. */
  predicate IsKnownPriority(p: Priority) { !p.OtherPriority? }
  predicate IsKnownStatus(s: Status) { !s.OtherStatus? }

  /** No `Other` value spells an enumeration member. */
  predicate CanonicalPriority(p: Priority) {
    p.OtherPriority? ==> p.name !in {"low", "medium", "high", "critical"}
  }
  predicate CanonicalStatus(s: Status) {
    s.OtherStatus? ==> s.name !in {"todo", "in-progress", "review", "completed"}
  }

  lemma PriorityNameRoundTrip(p: Priority, s: string)
    ensures CanonicalPriority(p) ==> ParsePriority(PriorityName(p)) == p
    ensures PriorityName(ParsePriority(s)) == s && CanonicalPriority(ParsePriority(s))
  {
  }

  lemma StatusNameRoundTrip(st: Status, s: string)
    ensures CanonicalStatus(st) ==> ParseStatus(StatusName(st)) == st
    ensures StatusName(ParseStatus(s)) == s && CanonicalStatus(ParseStatus(s))
  {
  }

  const MaxTitleLength: nat := 100
  const MaxDescriptionLength: nat := 500
  const DefaultPriority: Priority := Medium
  const DefaultStatus: Status := Todo
  const DefaultActualHours: real := 0.0
  const DefaultScore: int := 50
  const MinScore: int := 0
  const MaxScore: int := 100

  /** A task document.  Labels, dependencies, attachments, comments and the
      timestamps carry no rules the core uses and are not modelled. */
  datatype Task = Task(
    id: TaskId,
    title: string,
    description: string,
    priority: Priority,
    status: Status,
    dueDate: Option<Date>,
    estimatedHours: Option<real>,
    actualHours: real,
    assignedTo: seq<UserId>,
    createdBy: UserId,
    project: ProjectId,
    aiPriorityScore: int)

  /** What the schema's validators accept: a required, trimmed title of at
      most 100 UTF-16 code units (`maxlength` counts `String.length`), a
      description of at most 500, enumerated priority
      and status, non-negative hours, a score in [0, 100], and the required
      `createdBy` and `project` references. */
  predicate ValidTask(t: Task) {
    && t.title != [] && IsTrimmed(t.title) && Utf16Length(t.title) <= MaxTitleLength
    && Utf16Length(t.description) <= MaxDescriptionLength
    && IsKnownPriority(t.priority)
    && IsKnownStatus(t.status)
    && (t.estimatedHours.Some? ==> t.estimatedHours.value >= 0.0)
    && t.actualHours >= 0.0
    && MinScore <= t.aiPriorityScore <= MaxScore
    && t.createdBy != [] && t.project != []
  }

  /** `maxlength` counts UTF-16 code units, so a title made only of emoji
      (or other characters outside the Basic Multilingual Plane) is accepted
      with at most 50 of them. */
  lemma AstralTitleLimit(t: Task)
    requires forall i :: 0 <= i < |t.title| ==> IsAstral(t.title[i])
    ensures ValidTask(t) ==> |t.title| <= MaxTitleLength / 2
  {
    AstralLengthIsDouble(t.title);
  }
}
