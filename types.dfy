/** The task record and the enumerations it is built from.

    Calendar dates are day numbers (day 0 is 1970-01-01) and instants are
    minute numbers on the same epoch; the clock is never read, callers pass
    `today` and `now` in. */
module Types {

  datatype Option<T> = None | Some(value: T)

  type Id = string

  /** A calendar date as a day number. */
  type Day = int

  /** An instant as a minute number. */
  type Minute = int

  datatype Priority = P1 | P2 | P3 | P4

  datatype Status = Open | Completed | Archived | Waiting

  /** Escalation stage; `NoStage` is the stage the system calls "none". */
  datatype Stage = NoStage | Warning | Alert | Intervention | AutoArchive

  /** What a reality-check event records as the decision taken. */
  datatype Decision = Keep | Downgrade | Someday | Archive | AutoArchived

  /** One task. The status type is a parameter: a row read from the
      database carries the status column as raw text (`TaskRow`), while the
      client works with the normalised enumeration (`Task`). */
  datatype TaskRecord<S> = TaskRecord(
    id: Id,
    title: string,
    description: Option<string>,
    urgency: Priority,
    status: S,
    dueDate: Option<Day>,
    rolloverCount: nat,
    rescheduleCount: nat,
    lastRolledOverAt: Option<Minute>,
    lastRescheduledAt: Option<Minute>,
    tags: Option<seq<string>>,
    context: Option<string>,
    projectId: Option<string>,
    urls: Option<seq<string>>,
    someday: bool,
    followUpItem: bool,
    notes: Option<string>,
    realityCheckStage: Stage,
    realityCheckDueAt: Option<Minute>,
    sortOrder: Option<int>,
    createdAt: Minute,
    updatedAt: Minute,
    completedAt: Option<Minute>)

  type Task = TaskRecord<Status>

  type TaskRow = TaskRecord<string>

  /** The same record with its status replaced by a value of another type. */
  function WithStatus<S, T>(t: TaskRecord<S>, s: T): (r: TaskRecord<T>)
    ensures r.status == s && r.id == t.id && r.dueDate == t.dueDate
  {
    TaskRecord(t.id, t.title, t.description, t.urgency, s, t.dueDate,
               t.rolloverCount, t.rescheduleCount, t.lastRolledOverAt,
               t.lastRescheduledAt, t.tags, t.context, t.projectId, t.urls,
               t.someday, t.followUpItem, t.notes, t.realityCheckStage,
               t.realityCheckDueAt, t.sortOrder, t.createdAt, t.updatedAt,
               t.completedAt)
  }

  /** A partial task (`Partial<Task>`): `None` is an absent field, and for a
      nullable field `Some(None)` is a field explicitly set to null. */
  datatype TaskPatch = TaskPatch(
    id: Option<Id>,
    title: Option<string>,
    description: Option<Option<string>>,
    urgency: Option<Priority>,
    status: Option<Status>,
    dueDate: Option<Option<Day>>,
    rolloverCount: Option<nat>,
    rescheduleCount: Option<nat>,
    lastRolledOverAt: Option<Option<Minute>>,
    lastRescheduledAt: Option<Option<Minute>>,
    tags: Option<Option<seq<string>>>,
    context: Option<Option<string>>,
    projectId: Option<Option<string>>,
    urls: Option<Option<seq<string>>>,
    someday: Option<bool>,
    followUpItem: Option<bool>,
    notes: Option<Option<string>>,
    realityCheckStage: Option<Stage>,
    realityCheckDueAt: Option<Option<Minute>>,
    sortOrder: Option<Option<int>>,
    createdAt: Option<Minute>,
    updatedAt: Option<Minute>,
    completedAt: Option<Option<Minute>>)

  const EmptyPatch: TaskPatch :=
    TaskPatch(None, None, None, None, None, None, None, None, None, None, None,
              None, None, None, None, None, None, None, None, None, None, None, None)

  /** A field after a write: the written value when there is one. */
  function Overwrite<T>(current: T, written: Option<T>): T {
    if written.Some? then written.value else current
  }

  /** `{ ...task, ...patch }`: every field the patch defines overwritten. */
  function Patched(t: Task, patch: TaskPatch): Task {
    TaskRecord(
      Overwrite(t.id, patch.id), Overwrite(t.title, patch.title),
      Overwrite(t.description, patch.description), Overwrite(t.urgency, patch.urgency),
      Overwrite(t.status, patch.status), Overwrite(t.dueDate, patch.dueDate),
      Overwrite(t.rolloverCount, patch.rolloverCount),
      Overwrite(t.rescheduleCount, patch.rescheduleCount),
      Overwrite(t.lastRolledOverAt, patch.lastRolledOverAt),
      Overwrite(t.lastRescheduledAt, patch.lastRescheduledAt),
      Overwrite(t.tags, patch.tags), Overwrite(t.context, patch.context),
      Overwrite(t.projectId, patch.projectId), Overwrite(t.urls, patch.urls),
      Overwrite(t.someday, patch.someday), Overwrite(t.followUpItem, patch.followUpItem),
      Overwrite(t.notes, patch.notes), Overwrite(t.realityCheckStage, patch.realityCheckStage),
      Overwrite(t.realityCheckDueAt, patch.realityCheckDueAt),
      Overwrite(t.sortOrder, patch.sortOrder), Overwrite(t.createdAt, patch.createdAt),
      Overwrite(t.updatedAt, patch.updatedAt), Overwrite(t.completedAt, patch.completedAt))
  }

  /** Patching with the empty patch changes nothing. */
  lemma PatchedEmpty(t: Task)
    ensures Patched(t, EmptyPatch) == t
  {
  }

  /** The parking rule: a someday task is waiting and has no due date. */
  predicate Parked(t: Task) {
    t.someday ==> t.status == Waiting && t.dueDate.None?
  }

  /** An update request sent to the task API for one task. */
  datatype Update = Update(id: Id, patch: TaskPatch)
}
