/** Row and patch mappers between the database columns and the task record
    (lib/supabase/mappers.ts). */
module Mappers {
  import opened Types
  import opened StatusUtil

  /** `taskRowToTask`: every column copied to the field of the same name,
      the status text normalised. */
  function TaskRowToTask(row: TaskRow): (t: Task)
    ensures WithStatus(t, row.status) == row
    ensures t.status == NormalizeStatus(Some(row.status))
  {
    NormalizeTask(row)
  }

  /** A row whose status column is a status name maps to that status. */
  lemma TaskRowToTaskOfNamed(row: TaskRow, s: Status)
    requires row.status == StatusName(s)
    ensures TaskRowToTask(row).status == s
    ensures WithStatus(TaskRowToTask(row), StatusName(s)) == row
  {
    NormalizeStatusName(s);
  }

  /** `rows.map(taskRowToTask)`. */
  function ToTasks(rows: seq<TaskRow>): (ts: seq<Task>)
    ensures |ts| == |rows|
    ensures forall j :: 0 <= j < |rows| ==> ts[j] == TaskRowToTask(rows[j])
  {
    seq(|rows|, j requires 0 <= j < |rows| => TaskRowToTask(rows[j]))
  }

  /** The object `taskToInsertRow` accepts. Optional properties are `Option`s;
      for the nullable ones an absent property and null are the same to the
      mapper, so one `None` stands for both. The declared parameter has no
      reality-check fields. */
  datatype InsertInput = InsertInput(
    title: string,
    description: Option<string>,
    urgency: Priority,
    status: Option<Status>,
    dueDate: Option<Day>,
    rolloverCount: Option<nat>,
    rescheduleCount: Option<nat>,
    tags: Option<seq<string>>,
    context: Option<string>,
    projectId: Option<string>,
    someday: Option<bool>,
    followUpItem: Option<bool>,
    notes: Option<string>,
    urls: Option<seq<string>>,
    sortOrder: Option<int>,
    completedAt: Option<Minute>)

  /** `TaskInsertRow`: `None` in a column that is not nullable means the
      column is left out of the insert and the database default applies. */
  datatype InsertRow = InsertRow(
    title: string,
    description: Option<string>,
    urgency: Priority,
    status: Option<Status>,
    dueDate: Option<Day>,
    rolloverCount: Option<nat>,
    rescheduleCount: Option<nat>,
    tags: Option<seq<string>>,
    context: Option<string>,
    projectId: Option<string>,
    someday: Option<bool>,
    followUpItem: Option<bool>,
    notes: Option<string>,
    realityCheckStage: Stage,
    realityCheckDueAt: Option<Minute>,
    sortOrder: Option<int>,
    completedAt: Option<Minute>,
    urls: Option<seq<string>>)

  /** `taskToInsertRow`: the input's fields carried to their columns, the
      reality-check stage "none" and its due time null. */
  function TaskToInsertRow(task: InsertInput): (row: InsertRow)
    ensures row.realityCheckStage == NoStage && row.realityCheckDueAt == None
    ensures row.title == task.title && row.urgency == task.urgency && row.dueDate == task.dueDate
    ensures row.status == task.status && row.someday == task.someday && row.followUpItem == task.followUpItem
    ensures row.rolloverCount == task.rolloverCount && row.rescheduleCount == task.rescheduleCount
    ensures row.description == task.description && row.tags == task.tags && row.context == task.context
    ensures row.projectId == task.projectId && row.notes == task.notes && row.urls == task.urls
    ensures row.sortOrder == task.sortOrder && row.completedAt == task.completedAt
  {
    InsertRow(task.title, task.description, task.urgency, task.status, task.dueDate,
              task.rolloverCount, task.rescheduleCount, task.tags, task.context,
              task.projectId, task.someday, task.followUpItem, task.notes,
              NoStage, None, task.sortOrder, task.completedAt, task.urls)
  }

  /** The row the database stores for an insert: it assigns the id and the
      audit timestamps and fills the column defaults (status open, counters
      0, flags false). */
  function StoredRow(row: InsertRow, id: Id, now: Minute): (r: TaskRow)
    ensures r.id == id && r.title == row.title && r.urgency == row.urgency
    ensures r.dueDate == row.dueDate && r.realityCheckStage == row.realityCheckStage
    ensures r.status == StatusName(if row.status.Some? then row.status.value else Open)
    ensures r.someday <==> row.someday == Some(true)
    ensures row.rolloverCount == Some(0) ==> r.rolloverCount == 0
    ensures r.createdAt == now && r.lastRolledOverAt == None
  {
    TaskRecord(id, row.title, row.description, row.urgency,
               StatusName(if row.status.Some? then row.status.value else Open),
               row.dueDate,
               if row.rolloverCount.Some? then row.rolloverCount.value else 0,
               if row.rescheduleCount.Some? then row.rescheduleCount.value else 0,
               None, None, row.tags, row.context, row.projectId, row.urls,
               row.someday == Some(true), row.followUpItem == Some(true), row.notes,
               row.realityCheckStage, row.realityCheckDueAt, row.sortOrder,
               now, now, row.completedAt)
  }

  /** `TaskUpdateRow`, a partial insert row: `None` leaves a column alone and,
      for a nullable column, `Some(None)` sets it to null. */
  datatype UpdateRow = UpdateRow(
    title: Option<string>,
    description: Option<Option<string>>,
    urgency: Option<Priority>,
    status: Option<Status>,
    dueDate: Option<Option<Day>>,
    rolloverCount: Option<nat>,
    rescheduleCount: Option<nat>,
    lastRolledOverAt: Option<Option<Minute>>,
    lastRescheduledAt: Option<Option<Minute>>,
    tags: Option<Option<seq<string>>>,
    context: Option<Option<string>>,
    projectId: Option<Option<string>>,
    someday: Option<bool>,
    followUpItem: Option<bool>,
    notes: Option<Option<string>>,
    urls: Option<Option<seq<string>>>,
    realityCheckStage: Option<Stage>,
    realityCheckDueAt: Option<Option<Minute>>,
    sortOrder: Option<Option<int>>,
    completedAt: Option<Option<Minute>>)

  const EmptyUpdate: UpdateRow :=
    UpdateRow(None, None, None, None, None, None, None, None, None, None,
              None, None, None, None, None, None, None, None, None, None)

  /** The patch with the fields no update may carry (the id and the two audit
      timestamps) taken out. */
  function Writable(patch: TaskPatch): TaskPatch {
    patch.(id := None, createdAt := None, updatedAt := None)
  }

  /** The columns a patch writes: exactly the fields it defines, each with
      its value (a defined null included). */
  predicate WritesExactly(update: UpdateRow, patch: TaskPatch) {
    update.title == patch.title && update.description == patch.description &&
    update.urgency == patch.urgency && update.status == patch.status &&
    update.dueDate == patch.dueDate && update.rolloverCount == patch.rolloverCount &&
    update.rescheduleCount == patch.rescheduleCount &&
    update.lastRolledOverAt == patch.lastRolledOverAt &&
    update.lastRescheduledAt == patch.lastRescheduledAt && update.tags == patch.tags &&
    update.context == patch.context && update.projectId == patch.projectId &&
    update.someday == patch.someday && update.followUpItem == patch.followUpItem &&
    update.notes == patch.notes && update.urls == patch.urls &&
    update.realityCheckStage == patch.realityCheckStage &&
    update.realityCheckDueAt == patch.realityCheckDueAt &&
    update.sortOrder == patch.sortOrder && update.completedAt == patch.completedAt
  }

  /** One step of `taskPatchToUpdateRow`: the column starts out unset and
      takes the field's value only when the field is defined, so the column
      is defined exactly when the field is, with the same value. */
  method CopyDefined<T>(field: Option<T>) returns (column: Option<T>)
    ensures column == field
  {
    column := None;
    if field.Some? {
      column := field;
    }
  }

  /** `taskPatchToUpdateRow`: every column is copied from the patch field of
      the same name when that field is defined. */
  method TaskPatchToUpdateRow(patch: TaskPatch) returns (update: UpdateRow)
    ensures WritesExactly(update, patch)
    ensures update == EmptyUpdate <==> Writable(patch) == EmptyPatch
  {
    var title := CopyDefined(patch.title);
    var description := CopyDefined(patch.description);
    var urgency := CopyDefined(patch.urgency);
    var status := CopyDefined(patch.status);
    var dueDate := CopyDefined(patch.dueDate);
    var rolloverCount := CopyDefined(patch.rolloverCount);
    var rescheduleCount := CopyDefined(patch.rescheduleCount);
    var lastRolledOverAt := CopyDefined(patch.lastRolledOverAt);
    var lastRescheduledAt := CopyDefined(patch.lastRescheduledAt);
    var tags := CopyDefined(patch.tags);
    var context := CopyDefined(patch.context);
    var projectId := CopyDefined(patch.projectId);
    var someday := CopyDefined(patch.someday);
    var followUpItem := CopyDefined(patch.followUpItem);
    var notes := CopyDefined(patch.notes);
    var urls := CopyDefined(patch.urls);
    var realityCheckStage := CopyDefined(patch.realityCheckStage);
    var realityCheckDueAt := CopyDefined(patch.realityCheckDueAt);
    var sortOrder := CopyDefined(patch.sortOrder);
    var completedAt := CopyDefined(patch.completedAt);
    update := UpdateRow(title, description, urgency, status, dueDate, rolloverCount,
                        rescheduleCount, lastRolledOverAt, lastRescheduledAt, tags,
                        context, projectId, someday, followUpItem, notes, urls,
                        realityCheckStage, realityCheckDueAt, sortOrder, completedAt);
    WritesNothingIff(update, patch);
  }

  /** An update writes no column exactly when its patch defines no writable
      field. */
  lemma WritesNothingIff(update: UpdateRow, patch: TaskPatch)
    requires WritesExactly(update, patch)
    ensures update == EmptyUpdate <==> Writable(patch) == EmptyPatch
  {
  }

  /** What an UPDATE with these columns does to a stored row: each written
      column takes its new value, the rest keep theirs. */
  function ApplyUpdate(row: TaskRow, u: UpdateRow): (r: TaskRow)
    ensures r.id == row.id && r.createdAt == row.createdAt
    ensures u.status.Some? ==> r.status == StatusName(u.status.value)
    ensures u.status.None? ==> r.status == row.status
    ensures u.dueDate.Some? ==> r.dueDate == u.dueDate.value
    ensures u.dueDate.None? ==> r.dueDate == row.dueDate
  {
    row.(title := Overwrite(row.title, u.title),
         description := Overwrite(row.description, u.description),
         urgency := Overwrite(row.urgency, u.urgency),
         status := if u.status.Some? then StatusName(u.status.value) else row.status,
         dueDate := Overwrite(row.dueDate, u.dueDate),
         rolloverCount := Overwrite(row.rolloverCount, u.rolloverCount),
         rescheduleCount := Overwrite(row.rescheduleCount, u.rescheduleCount),
         lastRolledOverAt := Overwrite(row.lastRolledOverAt, u.lastRolledOverAt),
         lastRescheduledAt := Overwrite(row.lastRescheduledAt, u.lastRescheduledAt),
         tags := Overwrite(row.tags, u.tags),
         context := Overwrite(row.context, u.context),
         projectId := Overwrite(row.projectId, u.projectId),
         someday := Overwrite(row.someday, u.someday),
         followUpItem := Overwrite(row.followUpItem, u.followUpItem),
         notes := Overwrite(row.notes, u.notes),
         urls := Overwrite(row.urls, u.urls),
         realityCheckStage := Overwrite(row.realityCheckStage, u.realityCheckStage),
         realityCheckDueAt := Overwrite(row.realityCheckDueAt, u.realityCheckDueAt),
         sortOrder := Overwrite(row.sortOrder, u.sortOrder),
         completedAt := Overwrite(row.completedAt, u.completedAt))
  }

  /** An empty update leaves the row as it was. */
  lemma ApplyEmptyUpdate(row: TaskRow)
    ensures ApplyUpdate(row, EmptyUpdate) == row
  {
  }
}
