/** The per-task quick actions (components/tasks/QuickActions.tsx):
    reschedule to tomorrow, next week or a chosen date, complete, park or
    unpark, and archive, each sending one update while `pendingAction`
    marks the action in flight. */
module QuickActions {
  import opened Types
  import opened TaskStore
  import opened DateHelpers
  import opened BulkActions

  // ------------------------------------------------------------ patches

  /** `applySchedule`'s patch: due on `due`, one more reschedule, open and
      not parked. */
  function SchedulePatch(t: Task, due: Day, now: Minute): TaskPatch {
    EmptyPatch.(dueDate := Some(Some(due)), rescheduleCount := Some(t.rescheduleCount + 1),
                lastRescheduledAt := Some(Some(now)), someday := Some(false), status := Some(Open))
  }

  /** A scheduled task is open, unparked, due on the chosen day, and has
      one more reschedule; nothing else about it changes. */
  lemma SchedulePatchFields(t: Task, due: Day, now: Minute)
    ensures var r := Patched(t, SchedulePatch(t, due, now));
      && r.dueDate == Some(due) && r.rescheduleCount == t.rescheduleCount + 1
      && !r.someday && r.status == Open && Parked(r)
      && r.(dueDate := t.dueDate, rescheduleCount := t.rescheduleCount,
            lastRescheduledAt := t.lastRescheduledAt, someday := t.someday, status := t.status) == t
  {
  }

  /** The bar's reschedule of a listed task and the quick action's
      schedule of the same task send the same patch. */
  lemma ScheduleAgreesWithBulk(ts: seq<Task>, i: nat, due: Day, now: Minute)
    requires i < |ts| && forall j :: 0 <= j < i ==> ts[j].id != ts[i].id
    ensures ReschedulePatch(ts, ts[i].id, due, now) == SchedulePatch(ts[i], due, now)
  {
    FindIndexUnique(ts, ts[i].id, i);
  }

  /** "Tomorrow": the day after the task's due date, or after today when
      it has none. */
  function TomorrowDay(t: Task, now: Minute): (d: Day)
    ensures t.dueDate.None? ==> d == Tomorrow(now)
    ensures t.dueDate.Some? ==> d == t.dueDate.value + 1
  {
    (if t.dueDate.Some? then t.dueDate.value else Today(now)) + 1
  }

  /** "Tomorrow" is counted from the due date, so a task more than a day
      overdue is still past due after it. */
  lemma TomorrowFromOverdue(t: Task, now: Minute)
    requires t.dueDate.Some? && t.dueDate.value < Today(now) - 1
    ensures IsPastDue(TomorrowDay(t, now), now)
  {
  }

  /** A task counts as parked when it is flagged someday or is waiting. */
  predicate IsSomedayTask(t: Task) {
    t.someday || t.status == Waiting
  }

  /** The someday toggle's patch: park a task that is not parked (waiting,
      no due date), unpark one that is (open, keeping its due date or
      taking today's). */
  function SomedayTogglePatch(t: Task, now: Minute): TaskPatch {
    var makeSomeday := !IsSomedayTask(t);
    EmptyPatch.(someday := Some(makeSomeday),
                status := Some(if makeSomeday then Waiting else Open),
                dueDate := Some(if makeSomeday then None
                                else Some(if t.dueDate.Some? then t.dueDate.value else Today(now))),
                lastRescheduledAt := Some(Some(now)))
  }

  /** The toggle flips whether the task is parked, always leaves it
      satisfying the parking rule, and an unparked task has a due date. */
  lemma SomedayToggleFlips(t: Task, now: Minute)
    ensures var r := Patched(t, SomedayTogglePatch(t, now));
      && IsSomedayTask(r) == !IsSomedayTask(t)
      && Parked(r)
      && (!IsSomedayTask(t) ==> r.someday && r.status == Waiting && r.dueDate.None?)
      && (IsSomedayTask(t) ==> !r.someday && r.status == Open &&
                               r.dueDate == Some(if t.dueDate.Some? then t.dueDate.value else Today(now)))
  {
  }

  /** Toggling twice brings a parked task back to parked, and an
      unparked one back to open at a due date. */
  lemma SomedayToggleTwice(t: Task, now: Minute, later: Minute)
    ensures var r := Patched(t, SomedayTogglePatch(t, now));
            var r2 := Patched(r, SomedayTogglePatch(r, later));
            IsSomedayTask(r2) == IsSomedayTask(t) && Parked(r2)
  {
    SomedayToggleFlips(t, now);
    SomedayToggleFlips(Patched(t, SomedayTogglePatch(t, now)), later);
  }

  /** The undo offered after completing: open again, completion cleared. */
  function UndoCompletionPatch(): TaskPatch {
    EmptyPatch.(status := Some(Open), completedAt := Some(None))
  }

  /** Undo restores an open, uncompleted task exactly. */
  lemma UndoRestoresOpen(t: Task, now: Minute)
    requires t.status == Open && t.completedAt.None?
    ensures Patched(Patched(t, CompletePatch(now)), UndoCompletionPatch()) == t
  {
  }

  /** Complete is offered only for open tasks. */
  predicate ShouldShowComplete(t: Task) {
    t.status == Open
  }

  /** Someday is offered unless the task is archived or completed. */
  predicate ShouldShowSomeday(t: Task) {
    t.status != Archived && t.status != Completed
  }

  /** Whenever Complete is offered, Someday is too; a waiting task is
      offered Someday (to unpark it) but not Complete. */
  lemma VisibilityNests(t: Task)
    ensures ShouldShowComplete(t) ==> ShouldShowSomeday(t)
    ensures t.status == Waiting ==> ShouldShowSomeday(t) && !ShouldShowComplete(t)
    ensures ShouldShowSomeday(t) <==> t.status == Open || t.status == Waiting
  {
  }

  // ------------------------------------------------------------ actions

  datatype QuickActionKey = RescheduleKey | CompleteKey | SomedayKey | ArchiveKey

  const ArchiveReason := "Archived via quick actions"

  /** The component's state for one task; `sent` logs the update requests
      and `archived` the archive requests (id and reason). Which request
      fails is a parameter of each action. */
  class QuickActionsPanel {
    const task: Task
    var pendingAction: Option<QuickActionKey>
    var customDateDialogOpen: bool
    var sent: seq<Update>
    var archived: seq<(Id, string)>

    constructor (task: Task)
      ensures this.task == task && pendingAction == None && !customDateDialogOpen
      ensures sent == [] && archived == []
    {
      this.task := task;
      pendingAction := None;
      customDateDialogOpen := false;
      sent := [];
      archived := [];
    }

    /** `applySchedule`: one update with the schedule patch; the pending
        action is cleared whether or not it succeeds. */
    method ApplySchedule(due: Day, now: Minute, fails: bool) returns (ok: bool)
      modifies this
      ensures ok <==> !fails
      ensures sent == old(sent) + [Update(task.id, SchedulePatch(task, due, now))]
      ensures pendingAction == None
      ensures customDateDialogOpen == old(customDateDialogOpen) && archived == old(archived)
    {
      pendingAction := Some(RescheduleKey);
      sent := sent + [Update(task.id, SchedulePatch(task, due, now))];
      ok := !fails;
      pendingAction := None;
    }

    method HandleTomorrow(now: Minute, fails: bool) returns (ok: bool)
      modifies this
      ensures ok <==> !fails
      ensures sent == old(sent) + [Update(task.id, SchedulePatch(task, TomorrowDay(task, now), now))]
      ensures pendingAction == None
      ensures customDateDialogOpen == old(customDateDialogOpen) && archived == old(archived)
    {
      ok := ApplySchedule(TomorrowDay(task, now), now, fails);
    }

    method HandleNextWeek(now: Minute, fails: bool) returns (ok: bool)
      modifies this
      ensures ok <==> !fails
      ensures sent == old(sent) + [Update(task.id, SchedulePatch(task, NextMonday(now), now))]
      ensures pendingAction == None
      ensures customDateDialogOpen == old(customDateDialogOpen) && archived == old(archived)
    {
      var date := NextMonday(now);
      ok := ApplySchedule(date, now, fails);
    }

    /** `handleCustomSave`: an empty date is rejected with nothing sent;
        otherwise the task is scheduled on it, and the dialog closes only
        when that succeeded. */
    method HandleCustomSave(customDate: Option<Day>, now: Minute, fails: bool)
      returns (rejected: bool, ok: bool)
      modifies this
      ensures rejected <==> customDate.None?
      ensures rejected ==> !ok && unchanged(this)
      ensures !rejected ==>
        && (ok <==> !fails)
        && sent == old(sent) + [Update(task.id, SchedulePatch(task, customDate.value, now))]
        && pendingAction == None && archived == old(archived)
        && customDateDialogOpen == (if ok then false else old(customDateDialogOpen))
    {
      if customDate.None? {
        return true, false;
      }
      rejected := false;
      ok := ApplySchedule(customDate.value, now, fails);
      if ok {
        customDateDialogOpen := false;
      }
    }

    method HandleComplete(now: Minute, fails: bool) returns (ok: bool)
      modifies this
      ensures ok <==> !fails
      ensures sent == old(sent) + [Update(task.id, CompletePatch(now))]
      ensures pendingAction == None
      ensures customDateDialogOpen == old(customDateDialogOpen) && archived == old(archived)
    {
      pendingAction := Some(CompleteKey);
      sent := sent + [Update(task.id, CompletePatch(now))];
      ok := !fails;
      pendingAction := None;
    }

    method HandleSomedayToggle(now: Minute, fails: bool) returns (ok: bool)
      modifies this
      ensures ok <==> !fails
      ensures sent == old(sent) + [Update(task.id, SomedayTogglePatch(task, now))]
      ensures pendingAction == None
      ensures customDateDialogOpen == old(customDateDialogOpen) && archived == old(archived)
    {
      pendingAction := Some(SomedayKey);
      sent := sent + [Update(task.id, SomedayTogglePatch(task, now))];
      ok := !fails;
      pendingAction := None;
    }

    /** `handleArchive`: refused while another action is in flight or when
        the confirmation is declined (it is only asked when nothing is in
        flight); otherwise one archive request, and the pending action is
        cleared afterwards. */
    method HandleArchive(confirmed: bool, fails: bool) returns (started: bool, ok: bool)
      modifies this
      ensures started <==> old(pendingAction).None? && confirmed
      ensures !started ==> !ok && unchanged(this)
      ensures started ==>
        && (ok <==> !fails)
        && archived == old(archived) + [(task.id, ArchiveReason)]
        && pendingAction == None && sent == old(sent)
        && customDateDialogOpen == old(customDateDialogOpen)
    {
      if pendingAction.Some? || !confirmed {
        return false, false;
      }
      started := true;
      pendingAction := Some(ArchiveKey);
      archived := archived + [(task.id, ArchiveReason)];
      ok := !fails;
      pendingAction := None;
    }
  }
}
