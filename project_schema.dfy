/** The Mongoose project schema, and project membership. */
module ProjectSchema {
  import opened Ids
  import opened Text
  import TaskSchema

  datatype Role = Viewer | Member | Admin

  datatype ProjectMember = ProjectMember(user: UserId, role: Role)

  datatype ProjectStatus = Active | Archived | Completed

  datatype Settings = Settings(allowMemberInvites: bool, defaultTaskPriority: TaskSchema.Priority)

  /** A project document; timestamps and `joinedAt` are not modelled. */
  datatype Project = Project(
    id: ProjectId,
    name: string,
    description: string,
    members: seq<ProjectMember>,
    createdBy: UserId,
    status: ProjectStatus,
    color: string,
    settings: Settings)

  const MaxNameLength: nat := 100
  const MaxDescriptionLength: nat := 500
  const DefaultRole: Role := Member
  const DefaultStatus: ProjectStatus := Active
  const DefaultColor: string := "#3B82F6"
  const DefaultSettings: Settings := Settings(true, TaskSchema.Medium)

  /** The task priorities a project may choose as its default: `critical`
      is not among them. */
  predicate IsDefaultTaskPriority(p: TaskSchema.Priority) {
    p == TaskSchema.Low || p == TaskSchema.Medium || p == TaskSchema.High
  }

  /** What the schema's validators accept: a required, trimmed name of at
      most 100 UTF-16 code units, a description of at most 500, a user in
      every member entry, the creator, and an allowed default priority. */
  predicate ValidProject(p: Project) {
    && p.name != [] && IsTrimmed(p.name) && Utf16Length(p.name) <= MaxNameLength
    && Utf16Length(p.description) <= MaxDescriptionLength
    && (forall i :: 0 <= i < |p.members| ==> p.members[i].user != [])
    && p.createdBy != []
    && IsDefaultTaskPriority(p.settings.defaultTaskPriority)
  }

  /** `members.some(m => m.user.toString() === userId)`, which is also what
      the `'members.user': userId` query matches. */
  predicate IsMember(p: Project, user: UserId) {
    exists i :: 0 <= i < |p.members| && p.members[i].user == user
  }

  /** For a project whose only member is its creator, with a non-empty
      trimmed name and an allowed default priority, the validators check
      only the two lengths and the creator id. */
  lemma SoleCreatorProjectValidIff(p: Project)
    requires p.name != [] && IsTrimmed(p.name)
    requires |p.members| == 1 && p.members[0].user == p.createdBy
    requires IsDefaultTaskPriority(p.settings.defaultTaskPriority)
    ensures ValidProject(p) <==>
              Utf16Length(p.name) <= MaxNameLength && Utf16Length(p.description) <= MaxDescriptionLength && p.createdBy != []
  {
  }

  lemma DefaultSettingsAllowed()
    ensures IsDefaultTaskPriority(DefaultSettings.defaultTaskPriority)
    ensures !IsDefaultTaskPriority(TaskSchema.Critical)
  {
  }
}
