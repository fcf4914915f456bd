# Task discipline rules, modelled in Dafny

This project models the rule engine of a personal task manager that
replaced an AppSheet app. Each task has a priority from P1 to P4 and a
status (open, completed, archived or waiting). A daily rollover sweep
moves every overdue open task to today and counts how often that has
happened. The rollover count drives a "reality check" stage machine:
none, warning, alert, intervention, auto_archive. Once a task is in a
warning-to-intervention stage, the client prompts the user about it, and
at the auto-archive stage the sweep archives it. The priorities P1 to P3
have caps (3, 5 and 10 open tasks). Four places apply the same cap: the
create endpoint, the usage probe, the bulk re-prioritisation bar and the
creation form. A one-off script imports legacy tasks from an AppSheet
export.

Dates are day numbers (day 0 is 1970-01-01) and instants are minute
numbers. The clock is never read: `today` and `now` are parameters.
Database tables are sequences held in a class (`Database.Db`). Each store
call that can fail takes a fault parameter saying whether, or at which
position, it fails.

Modules, one per source file:

- `Types`: the task record, patches, priorities, statuses, stages.
- `Text`: trimming, ASCII lower-casing, splitting, `parseInt`.
- `RealityCheck`, `RolloverHelpers`, `StatusUtil`, `DateHelpers`,
  `PriorityHelpers`: the pure utility rules.
- `Mappers`: row and patch mappers.
- `TaskStore`: the client store, as a class.
- `RolloverRoute`, `TasksRoute`, `PriorityCheckRoute`: the three server
  handlers.
- `BulkActions`, `QuickActions`, `TaskForm`, `RealityCheckManager`: the
  client components, with their state as classes.
- `ImportTasks`: the import script.

## Model

| member | source | states |
|---|---|---|
| RealityCheck.StageBands | lib/utils/realityCheck.ts:4-17 | each stage holds exactly one count band: auto_archive for n ≥ 10, intervention for 7–9, alert for 5–6, warning for 3–4, none below 3 |
| RealityCheck.StageMonotone | lib/utils/realityCheck.ts:11-17 | a larger rollover count never maps to an earlier stage |
| RealityCheck.GetLowerPriority | lib/utils/realityCheck.ts:19-30 | the result is one tier lower than the input, except that P4 stays P4 |
| RealityCheck.LowerPriorityNeverRaises | lib/utils/realityCheck.ts:19-30 | downgrading never raises a priority, and P4 is its only fixed point |
| RealityCheck.TriggerCases | lib/utils/realityCheck.ts:32-37 | no re-arm for none or auto_archive; a re-arm when the stage changes or no due time is set; otherwise a re-arm exactly when the due time is strictly before now |
| RolloverHelpers.IncrementRollover | lib/utils/rolloverHelpers.ts:11-16 | the task is due on the reference day, has one more rollover and is stamped with the reference instant; every other field is unchanged |
| RolloverHelpers.IncrementRolloverSettles | lib/utils/rolloverHelpers.ts:4-16 | a task rolled at some instant is no longer due for rollover on that day |
| RolloverHelpers.ShouldRolloverIgnoresParking | lib/utils/rolloverHelpers.ts:4-9 | unlike the sweep, the client predicate ignores the someday and follow-up flags |
| RolloverHelpers.ThresholdsMatchStages | lib/utils/rolloverHelpers.ts:18-24 | requiresRealityCheck holds iff the count's stage is warning, alert or intervention; isAutoArchiveThreshold holds iff it is auto_archive; the two never hold together |
| StatusUtil.StatusNamed | lib/utils/status.ts:3-8 | the known status whose name equals the text, or none when no status has that name |
| StatusUtil.NormalizeStatus | lib/utils/status.ts:5-9 | any result other than open is the status named by the lower-cased input |
| StatusUtil.NormalizeStatusName | lib/utils/status.ts:3-8 | every known status name normalises to that status |
| StatusUtil.NormalizeStatusCaseInsensitive | lib/utils/status.ts:7-8 | a case-insensitive match of a known name gives that status, and the result depends only on the lower-cased text |
| StatusUtil.NormalizeStatusIdempotent | lib/utils/status.ts:5-9 | normalising the name of a normalised status changes nothing |
| StatusUtil.NormalizeTask | lib/utils/status.ts:11-14 | only the status changes, and it becomes the normalised status |
| StatusUtil.NormalizeTaskOfNamed | lib/utils/status.ts:11-14 | a task whose status text already names its status comes back unchanged |
| DateHelpers.Tomorrow | lib/utils/dateHelpers.ts:5 | tomorrow is exactly one day after today |
| DateHelpers.NextMonday | lib/utils/dateHelpers.ts:7-12 | the result is 1 to 7 days ahead and is a Monday; no Monday lies in between; from a Monday it is exactly 7 days ahead |
| DateHelpers.PastDueStrict | lib/utils/dateHelpers.ts:16 | today is not past due, and yesterday is |
| PriorityHelpers.PriorityNamed | app/api/priority-check/route.ts:8-16 | the priority whose name equals the text, or none when the text is not one of P1 to P4 |
| PriorityHelpers.GetPriorityUsage | lib/utils/priorityHelpers.ts:34-46 | each priority's entry is the number of open tasks at that priority, and the four entries sum to the number of open tasks |
| PriorityHelpers.UsageIgnoresNonOpen | lib/utils/priorityHelpers.ts:37-45 | inserting a task that is not open anywhere in the list leaves the usage unchanged |
| PriorityHelpers.AdmissionRule | lib/utils/priorityHelpers.ts:48-55 | P4 is always admitted; P1 to P3 are admitted exactly while usage is below the limit, so usage equal to the limit is refused |
| PriorityHelpers.AdmissionKeepsCap | lib/utils/priorityHelpers.ts:3-55 | adding an open task only when canAddTaskAtPriority allows it keeps every capped priority within its limit |
| PriorityHelpers.RefusalIsStable | lib/utils/priorityHelpers.ts:48-55 | once a priority is refused, adding more tasks of any kind keeps it refused |
| PriorityHelpers.DescribePrioritySlotReadsBack | lib/utils/priorityHelpers.ts:57-66 | the leading number of the slot text is the usage count |
| PriorityHelpers.DescribePrioritySlotLimit | lib/utils/priorityHelpers.ts:57-66 | for a capped priority, the number after "N / " is the priority's limit |
| PriorityHelpers.DescribePrioritySlotForm | lib/utils/priorityHelpers.ts:57-66 | the slot text ends in "active" exactly when the priority has no limit |
| Mappers.TaskRowToTask | lib/supabase/mappers.ts:55-79 | every column is carried to the field of the same name; only the status differs, and it is the normalised status text |
| Mappers.TaskRowToTaskOfNamed | lib/supabase/mappers.ts:55-79 | a row whose status text names a status maps to that status, and mapping back gives the row |
| Mappers.ToTasks | app/api/tasks/route.ts:52 | the result has one task per row, each mapped by taskRowToTask |
| Mappers.TaskToInsertRow | lib/supabase/mappers.ts:81-117 | each field of the input goes unchanged to its column, an absent one staying absent; the reality-check stage is "none" and its due time null |
| Mappers.TaskPatchToUpdateRow | lib/supabase/mappers.ts:119-142 | a column is written exactly when the patch defines that field, with the field's value, a defined null included; the update is empty iff the patch defines no writable field |
| Mappers.WritesNothingIff | lib/supabase/mappers.ts:119-142 | an update that copies exactly the defined fields writes no column iff the patch defines no writable field |
| TaskStore.FindIndex | lib/store/taskStore.ts:48 | the first position holding the id, or -1 exactly when no task has that id |
| TaskStore.UpsertedHolds | lib/store/taskStore.ts:46-56 | afterwards the task is the first one with its id; the ids gained are exactly its id; a new id puts the task in front of the unchanged list; a known id keeps the length and every entry except the first one with that id |
| TaskStore.UpsertIdempotent | lib/store/taskStore.ts:46-56 | upserting the same task twice equals upserting it once |
| TaskStore.Store.UpsertTask | lib/store/taskStore.ts:46-56 | the list becomes the upserted list; selection and queue are unchanged |
| TaskStore.Removed | lib/store/taskStore.ts:57-60 | no task with the id remains, and every other task does |
| TaskStore.DropMembers | lib/store/taskStore.ts:57-60 | a task survives the filter iff it was present and its id is not given |
| TaskStore.DropAppend | lib/store/taskStore.ts:57-60 | the filter works piece by piece, so survivors keep their relative order |
| TaskStore.Store.RemoveTask | lib/store/taskStore.ts:57-60 | the list becomes the filtered list; selection and queue are unchanged |
| TaskStore.MutatedOnlyThere | lib/store/taskStore.ts:63-74 | an unknown id changes nothing; otherwise the task at the first index with the id (`FindIndex`) becomes the updater's result and every other position, later tasks with the same id included, is unchanged; the length stays |
| TaskStore.Store.MutateTask | lib/store/taskStore.ts:63-74 | the list becomes the mutated list; selection and queue are unchanged |
| TaskStore.Toggled | lib/store/taskStore.ts:75-84 | membership of the id flips and every other id keeps its membership |
| TaskStore.ToggleTwice | lib/store/taskStore.ts:75-84 | toggling the same id twice restores the selection |
| TaskStore.Store.ToggleTaskSelection | lib/store/taskStore.ts:75-84 | the selection becomes the toggled set; tasks and queue are unchanged |
| TaskStore.Store.ClearSelection | lib/store/taskStore.ts:85 | the selection becomes empty; nothing else changes |
| TaskStore.Store.SelectAll | lib/store/taskStore.ts:86 | the selection becomes exactly the given ids |
| TaskStore.LastWithId | lib/store/taskStore.ts:92 | the task at the last position holding the id, as the id-to-task map keeps it; none exactly when no task has it |
| TaskStore.Placed | lib/store/taskStore.ts:93-99 | each placed task is the stored task with its id, its sort order is the index of its id among the given ids, and placed tasks follow that order |
| TaskStore.PlacedComplete | lib/store/taskStore.ts:93-99 | every given id that names a task is placed, at its own index |
| TaskStore.PlacedIds | lib/store/taskStore.ts:90-99 | the placed tasks carry exactly the ids that are both given and stored |
| TaskStore.ReorderedIds | lib/store/taskStore.ts:90-105 | reordering neither loses an id nor invents one |
| TaskStore.ReorderedOfNone | lib/store/taskStore.ts:90-105 | an empty ordering leaves the list unchanged |
| TaskStore.Store.ReorderTasks | lib/store/taskStore.ts:90-105 | the list becomes the placed tasks followed by the unmentioned tasks in their original order |
| TaskStore.Shifted | lib/store/taskStore.ts:108-112 | the head of a non-empty queue is removed; an empty queue stays empty |
| TaskStore.Store.ShiftRealityQueue | lib/store/taskStore.ts:108-112 | the queue becomes the shifted queue; nothing else changes |
| TaskStore.Store.SetPendingRealityTaskIds | lib/store/taskStore.ts:107 | the queue becomes the given ids; nothing else changes |
| TaskStore.Store.SetActiveRealityTaskId | lib/store/taskStore.ts:113 | the active id becomes the given id; nothing else changes |
| RolloverRoute.AuthorizedBearer | app/api/rollover/route.ts:12-18 | "Bearer <secret>" is accepted iff the secret is non-empty; nothing is accepted without a configured secret |
| RolloverRoute.AuthorizedBearerToken | app/api/rollover/route.ts:12-18 | "Bearer <token>" is accepted iff a non-empty secret is configured and the token equals it |
| RolloverRoute.Selection | app/api/rollover/route.ts:24-30 | the positions of exactly the rows that are open, not someday, not follow-up and due on or before yesterday, in table order |
| RolloverRoute.RolledFields | app/api/rollover/route.ts:46-66 | a swept row is due today, has one more rollover and is stamped now; it is archived with stage auto_archive and no due time at 10 or more; it has stage none and no due time below 3; in between it takes the new stage, with due time now if the trigger holds and otherwise unchanged; every other column is unchanged |
| RolloverRoute.RolledIsArmed | app/api/rollover/route.ts:50-58 | in the prompting bands the swept row always has a due time, which is now or an earlier-armed time not before now; a stage change always arms it at now |
| RolloverRoute.RolledNotSelected | app/api/rollover/route.ts:24-62 | a swept row is never selected again on the same day |
| RolloverRoute.SweepSettles | app/api/rollover/route.ts:24-66 | after a complete sweep, a second sweep on the same day selects nothing |
| RolloverRoute.RollPrefixAt | app/api/rollover/route.ts:45-77 | after the first m updates, exactly the first m selected rows are rolled and every other row is as it was |
| RolloverRoute.HistoriesAt | app/api/rollover/route.ts:79-85 | the j-th history record is for the j-th processed task: from its old due date, to today, its priority, automatic |
| RolloverRoute.ArchivedCountMatchesLogs | app/api/rollover/route.ts:91-103 | when no graveyard or event insert fails, each log gains exactly one record per archived task |
| RolloverRoute.RolledRowsAt | app/api/rollover/route.ts:45-77 | the j-th returned row is the j-th selected row after its update |
| RolloverRoute.ArchivedCountIsArchivedRows | app/api/rollover/route.ts:65-92 | autoArchived equals the number of returned rows whose status is archived |
| RolloverRoute.FirstFault | app/api/rollover/route.ts:75-89 | the first position whose update or history insert fails, or the selection size when none does |
| RolloverRoute.FirstFaultAt | app/api/rollover/route.ts:75-89 | the sweep stops exactly at the first failing position and passes every earlier one |
| RolloverRoute.RolloverPayload | app/api/rollover/route.ts:46-66 | the update built step by step is the sweep's update for the row |
| RolloverRoute.RolledIsUpdate | app/api/rollover/route.ts:46-73 | applying the sweep's update to a row gives exactly the rolled row |
| RolloverRoute.NextRealityTriggers | app/api/rollover/route.ts:50-58 | in the prompting bands the due time is reset to now exactly when shouldTriggerRealityCheck holds for the row at the new stage (or it already is now) |
| RolloverRoute.StopsAt | app/api/rollover/route.ts:69-89 | when the sweep stops at position k, the updates that went through are those before k, and k's own when only its history insert failed |
| RolloverRoute.AppendLogs | app/api/rollover/route.ts:79-103 | one history record is appended; for an archived task, a graveyard record and an auto_archive event are also appended unless that insert fails; the task table is unchanged |
| RolloverRoute.RollOne | app/api/rollover/route.ts:45-106 | one loop iteration: it succeeds iff neither the update nor the history insert fails; on success the next task is rolled and logged and returned as rolled; on failure the table holds the row rolled only if its update went through, and the logs are unchanged |
| RolloverRoute.RollAll | app/api/rollover/route.ts:42-106 | the loop stops at the first failure; the table has the rows before it rolled (plus the failing row when only its history insert failed); the logs have the records before it; on completion it returns every rolled row and the archive count |
| RolloverRoute.Sweep | app/api/rollover/route.ts:11-113 | 401 with nothing written unless authorised; 500 with nothing written when the selection query fails; otherwise 500 at the first failure, keeping earlier commits, or the counts and the rolled tasks |
| TasksRoute.Filtered | app/api/tasks/route.ts:30-44 | the listed rows are exactly those matching the status filter (known statuses only), the archive exclusion and the due-date bounds |
| TasksRoute.ListTasks | app/api/tasks/route.ts:46-53 | 500 iff the query fails; otherwise the filtered rows mapped to tasks |
| TasksRoute.UnknownStatusIgnored | app/api/tasks/route.ts:30-32 | a status parameter that names no status is ignored |
| TasksRoute.ArchivedOnlyOnRequest | app/api/tasks/route.ts:34-36 | without includeArchived=true no archived task is listed, even when status=archived is asked for |
| TasksRoute.CreateDue | app/api/tasks/route.ts:80-85 | the trimmed due date when it is not blank; otherwise null for a someday task and today for any other |
| TasksRoute.CreateProjectId | app/api/tasks/route.ts:86-89 | the trimmed project id, or null exactly when it is absent or blank |
| TasksRoute.CreateUrls | app/api/tasks/route.ts:90-94 | a URL list is sent exactly when one was given |
| TasksRoute.CreateUrlsClean | app/api/tasks/route.ts:90-94 | every kept URL is trimmed and non-empty, and every non-blank given URL is kept, trimmed |
| TasksRoute.ValidateCreate | app/api/tasks/route.ts:72-102 | 400 "Invalid JSON payload" iff there is no body; 400 "Task title is required" iff the trimmed title is empty; 400 "Invalid priority value" iff the title is present and the urgency (P3 when absent or null) is not one of the strings P1 to P4, a non-string urgency included; otherwise the trimmed title and the priority |
| TasksRoute.CreateInput | app/api/tasks/route.ts:130-145 | the insert is waiting iff someday, has zero counters, the someday flag, the cleaned project id and the cleaned URLs |
| TasksRoute.CreatedRowFields | app/api/tasks/route.ts:130-151 | the stored row has the new id, trimmed title, priority and due date, status waiting iff someday, zero counters and no reality check |
| TasksRoute.CreateOutcome | app/api/tasks/route.ts:71-159 | only a created task changes the table, by appending exactly one row, which is the task returned |
| TasksRoute.CreateRefusedAtCapacity | app/api/tasks/route.ts:105-128 | a valid unforced body at a full capped priority gets 409 with the limit and the current count, and nothing is inserted |
| TasksRoute.LimitReachedOnlyAtCapacity | app/api/tasks/route.ts:105-128 | a 409 happens only for a valid body whose capped priority is full and which is not forced |
| TasksRoute.CreateKeepsCap | app/api/tasks/route.ts:105-128 | an unforced create never takes a capped priority over its limit |
| TasksRoute.CreateUncappedOrForcedAdmitted | app/api/tasks/route.ts:105-107 | a P4 or forced body never gets 409 |
| TasksRoute.ServerCountIsClientUsage | app/api/tasks/route.ts:108-112 | on rows with known status names, the server's open count at a priority equals the client's usage for it |
| TasksRoute.RowCountIsTaskCount | app/api/tasks/route.ts:108-112 | on rows with known status names, counting rows whose status text is "open" counts the same rows as counting mapped tasks whose status is open |
| TasksRoute.CapacityAgreesWithClient | app/api/tasks/route.ts:105-118 | the server refuses an unforced create exactly when canAddTaskAtPriority refuses |
| TasksRoute.CreateTask | app/api/tasks/route.ts:71-159 | the response and the new table are the create outcome; the logs are unchanged |
| PriorityCheckRoute.OpenAt | app/api/priority-check/route.ts:21-31 | exactly the open rows at the priority, as many as the count query reports |
| PriorityCheckRoute.SortByDue | app/api/priority-check/route.ts:32 | the rows ordered by due date ascending, with missing dates last, as a permutation |
| PriorityCheckRoute.CheckPriority | app/api/priority-check/route.ts:10-52 | 400 iff the priority is missing or unknown; 500 iff either query fails; otherwise the open count, the limit (null when uncapped) and the listing |
| PriorityCheckRoute.AllowedAgreesWithAdmission | app/api/priority-check/route.ts:48-51 | allowed iff canAddTaskAtPriority admits, iff the create endpoint would not refuse; the limit is null iff P4 |
| PriorityCheckRoute.ListingIsEarliest | app/api/priority-check/route.ts:27-33 | the listing has min(count, 25) open rows at the priority, sorted by due date, and none of the omitted rows is due earlier than a listed one |
| PriorityCheckRoute.ListedTasksOpenAt | app/api/priority-check/route.ts:27-47 | every listed task is open and at the requested priority |
| BulkActions.SomedayPatchParks | components/tasks/controls/BulkActionsBar.tsx:73-81 | moving to someday leaves any task parked, waiting and undated, with id, title, priority and reschedule count unchanged |
| BulkActions.ReschedulePatchUnparks | components/tasks/controls/BulkActionsBar.tsx:83-93 | a rescheduled listed task is open, unparked, due on the chosen day, rescheduled one more time and stamped now |
| BulkActions.ReschedulePatchUnknown | components/tasks/controls/BulkActionsBar.tsx:83-93 | an id missing from the list gets reschedule count 1 |
| BulkActions.PatchesAndParking | components/tasks/controls/BulkActionsBar.tsx:64-107 | a priority change keeps the parking rule and sets the priority; completing keeps it iff the task was not flagged someday |
| BulkActions.Retargeted | components/tasks/controls/BulkActionsBar.tsx:95-107 | selected tasks take the new priority and unselected ones are unchanged |
| BulkActions.RetargetedCount | components/tasks/controls/BulkActionsBar.tsx:95-107 | a batch change adds at most one open task at the target per selected task |
| BulkActions.BatchFitsKeepsCap | components/tasks/controls/BulkActionsBar.tsx:95-107 | when the batch check passes, the target stays within its cap after the change |
| BulkActions.UncappedBatchFits | components/tasks/controls/BulkActionsBar.tsx:96-97 | a change to P4 is never refused |
| BulkActions.SelectedAtTargetCountedTwice | components/tasks/controls/BulkActionsBar.tsx:98-99 | selected tasks already open at the target are counted twice, so a change that alters nothing and keeps the cap can still be refused |
| BulkActions.BulkActionsBar.PerformBulkUpdate | components/tasks/controls/BulkActionsBar.tsx:43-62 | one update per selected id with its patch; the selection is cleared iff no update fails; the processing flag ends false |
| BulkActions.BulkActionsBar.CompleteTasks | components/tasks/controls/BulkActionsBar.tsx:64-71 | a bulk update with the completion patch |
| BulkActions.BulkActionsBar.MoveToSomeday | components/tasks/controls/BulkActionsBar.tsx:73-81 | a bulk update with the someday patch |
| BulkActions.BulkActionsBar.RescheduleTomorrow | components/tasks/controls/BulkActionsBar.tsx:83-93 | a bulk update with each task's reschedule to tomorrow |
| BulkActions.BulkActionsBar.ChangePriority | components/tasks/controls/BulkActionsBar.tsx:95-108 | refused, with nothing sent or changed, iff the target is capped and open tasks there plus the selection size exceed the cap; otherwise a bulk priority update |
| BulkActions.BulkActionsBar.RescheduleToDate | components/tasks/controls/BulkActionsBar.tsx:110-126 | an empty date is rejected with nothing changed; otherwise a bulk reschedule to it, and the dialog closes |
| RealityCheckManager.PendingPositions | components/providers/RealityCheckManager.tsx:29-35 | the positions of exactly the pending tasks, increasing |
| RealityCheckManager.PendingIds | components/providers/RealityCheckManager.tsx:29-35 | the ids of the pending tasks in list order |
| RealityCheckManager.PendingIdsMembers | components/providers/RealityCheckManager.tsx:29-35 | an id is queued iff some pending task carries it |
| RealityCheckManager.PendingIdsAppend | components/providers/RealityCheckManager.tsx:29-35 | the queue of a concatenated list is the concatenation of the queues, so the filter preserves order |
| RealityCheckManager.PendingIdsSnoc | components/providers/RealityCheckManager.tsx:29-35 | one more task at the end adds its id exactly when it is pending |
| RealityCheckManager.RolledTaskIsPrompted | components/providers/RealityCheckManager.tsx:29-34 | a task the sweep moves into a prompting band is pending from its due time on, and at once when its stage changed |
| RealityCheckManager.ReconciledHolds | components/providers/RealityCheckManager.tsx:39-47 | a non-empty queue ends with an active id from the queue; a queued active id stays; an empty queue leaves no active id; running the effect again changes nothing |
| RealityCheckManager.NextHeadAfterDecision | components/providers/RealityCheckManager.tsx:86-90 | after a decision clears the active id, the queue head becomes active |
| RealityCheckManager.ActiveTask | components/providers/RealityCheckManager.tsx:49-52 | a task exactly when some task has the active id, and then the first task in the list with that id |
| RealityCheckManager.AvailableActions | components/providers/RealityCheckManager.tsx:96-120 | downgrade is offered iff the priority is not P4; keep, someday and archive always are |
| RealityCheckManager.DismissAction | components/providers/RealityCheckManager.tsx:141 | dismissing is available iff the stage is warning, and it sends keep |
| RealityCheckManager.SyncPending | components/providers/RealityCheckManager.tsx:27-37 | the queue becomes the pending ids of the list; nothing else changes |
| RealityCheckManager.ReconcileActive | components/providers/RealityCheckManager.tsx:39-47 | the active id becomes the reconciled id; nothing else changes |
| RealityCheckManager.HandleDecision | components/providers/RealityCheckManager.tsx:86-90 | a request is sent iff there is an active task, for that task's id; on success the reply is upserted and the active id cleared; on failure nothing changes |
| QuickActions.SchedulePatchFields | components/tasks/QuickActions.tsx:90-102 | a scheduled task is open, unparked, due on the chosen day, rescheduled one more time; nothing else changes |
| QuickActions.ScheduleAgreesWithBulk | components/tasks/QuickActions.tsx:90-102 | the quick action and the bulk bar send the same reschedule patch for the same listed task |
| QuickActions.TomorrowDay | components/tasks/QuickActions.tsx:81-109 | the day after the task's due date, or after today when it has none |
| QuickActions.TomorrowFromOverdue | components/tasks/QuickActions.tsx:81-109 | a task more than a day overdue is still past due after "tomorrow" |
| QuickActions.SomedayToggleFlips | components/tasks/QuickActions.tsx:158-173 | the toggle flips whether the task is parked and keeps the parking rule: parking makes it waiting and undated; unparking makes it open with its due date or today |
| QuickActions.SomedayToggleTwice | components/tasks/QuickActions.tsx:158-173 | toggling twice restores whether the task is parked |
| QuickActions.UndoRestoresOpen | components/tasks/QuickActions.tsx:125-147 | undo after complete gives back the open, uncompleted task exactly |
| QuickActions.VisibilityNests | components/tasks/QuickActions.tsx:192-193 | someday is offered iff the task is open or waiting; whenever complete is offered someday is too; a waiting task gets someday but not complete |
| QuickActions.QuickActionsPanel.ApplySchedule | components/tasks/QuickActions.tsx:90-107 | one update with the schedule patch; succeeds iff the request does; pending action cleared either way |
| QuickActions.QuickActionsPanel.HandleTomorrow | components/tasks/QuickActions.tsx:109 | schedules on the "tomorrow" day |
| QuickActions.QuickActionsPanel.HandleNextWeek | components/tasks/QuickActions.tsx:111-114 | schedules on next Monday |
| QuickActions.QuickActionsPanel.HandleCustomSave | components/tasks/QuickActions.tsx:116-123 | an empty date is rejected with nothing changed; otherwise schedules on it, and the dialog closes only if that succeeded |
| QuickActions.QuickActionsPanel.HandleComplete | components/tasks/QuickActions.tsx:125-156 | one update with the completion patch; pending action cleared |
| QuickActions.QuickActionsPanel.HandleSomedayToggle | components/tasks/QuickActions.tsx:161-178 | one update with the toggle patch; pending action cleared |
| QuickActions.QuickActionsPanel.HandleArchive | components/tasks/QuickActions.tsx:180-190 | starts iff no action is pending and the user confirms; a refusal changes nothing; otherwise one archive request with the fixed reason, pending action cleared |
| TaskForm.OpenTasksAt | components/tasks/TaskForm.tsx:40-45 | exactly the open tasks at the priority |
| TaskForm.FormUsageIsPriorityUsage | components/tasks/TaskForm.tsx:40-45 | the form's per-priority count equals getPriorityUsage's |
| TaskForm.ConfirmationIffFull | components/tasks/TaskForm.tsx:98-109 | the form asks for confirmation iff canAddTaskAtPriority refuses, and never for P4 |
| TaskForm.PayloadFields | components/tasks/TaskForm.tsx:92-121 | the body has the trimmed title and the chosen priority; no due date when someday; force only when confirmed; each optional text field iff it is not blank |
| TaskForm.PayloadLists | components/tasks/TaskForm.tsx:123-133 | tags and URLs are sent only when non-empty, and each is trimmed and non-blank |
| TaskForm.TagsKept | components/tasks/TaskForm.tsx:123-127 | every non-blank comma-separated piece is sent as a tag, trimmed |
| TaskForm.PayloadValid | components/tasks/TaskForm.tsx:92-96 | a body from a non-blank title always passes the create endpoint's validation with that title and priority |
| TaskForm.PayloadDue | components/tasks/TaskForm.tsx:92-96 | the server stores no due date for a someday task, the trimmed date when one is typed, and today when the date is blank |
| TaskForm.FormAgreesWithServer | components/tasks/TaskForm.tsx:98-109 | a body forced exactly when the form asks never gets 409 from the create endpoint |
| TaskForm.Submit | components/tasks/TaskForm.tsx:70-147 | a submission goes out iff the trimmed title is non-blank and the priority is not full or the user confirmed; a blank title changes nothing; a declined confirmation only sets the capacity error; a submission sends exactly one body, forced iff full, then resets the form on success or keeps the fields and shows the failure |
| TaskForm.Form.HandleSubmit | components/tasks/TaskForm.tsx:70-147 | the new fields, error and sent bodies are Submit's outcome from the old form state and the capacity of the chosen priority |
| TaskForm.BuildPayload | components/tasks/TaskForm.tsx:79-136 | the body built field by field is the form's body |
| TaskForm.WithOptionalFields | components/tasks/TaskForm.tsx:111-133 | each optional field is set exactly when its trimmed text or list is non-empty |
| ImportTasks.StripQuotes | scripts/import-appsheet-tasks.mjs:24 | removing the quotes never lengthens the value |
| ImportTasks.StripQuotesInverse | scripts/import-appsheet-tasks.mjs:24 | one pair of surrounding quotes is removed; an unquoted value is unchanged |
| ImportTasks.EnvEntry | scripts/import-appsheet-tasks.mjs:17-24 | an assignment comes only from a non-blank line that is not a comment, and has a non-empty trimmed key without "=" |
| ImportTasks.EnvEntryOfAssignment | scripts/import-appsheet-tasks.mjs:17-24 | a line KEY=VALUE, with a trimmed key free of "=" and not starting with "#", assigns the unquoted value to the key |
| ImportTasks.EnvNeverOverwrites | scripts/import-appsheet-tasks.mjs:22 | a variable that is already set keeps its value |
| ImportTasks.EnvFirstAssignmentWins | scripts/import-appsheet-tasks.mjs:16-25 | a newly set variable has the value of its first assignment in the file |
| ImportTasks.EnvNoKey | scripts/import-appsheet-tasks.mjs:16-25 | a variable left unset was assigned on no line |
| ImportTasks.ParseEnvLine | scripts/import-appsheet-tasks.mjs:17-24 | the step-by-step parse of one line gives that line's assignment |
| ImportTasks.Environment.LoadEnvFile | scripts/import-appsheet-tasks.mjs:12-31 | the variables become those after the file's assignments in order; a missing file changes nothing |
| ImportTasks.FirstSet | scripts/import-appsheet-tasks.mjs:36-39 | the value of the first key, in order, that is set to a non-empty value; none when every set key is empty |
| ImportTasks.LimitArg | scripts/import-appsheet-tasks.mjs:58-62 | a limit comes only from a "--limit=" argument and is positive |
| ImportTasks.LimitArgOfNumber | scripts/import-appsheet-tasks.mjs:58-62 | "--limit=N" sets N for every positive N |
| ImportTasks.LimitOf | scripts/import-appsheet-tasks.mjs:57-64 | a limit is set iff some argument gives a valid one, and it is one of those values |
| ImportTasks.LimitOfIsLast | scripts/import-appsheet-tasks.mjs:57-64 | the limit is the one of the last argument that gives a valid limit |
| ImportTasks.ParseOptions | scripts/import-appsheet-tasks.mjs:50-64 | dry run iff "--dry-run" is given, open only iff "--open-only" is given, and the limit of the arguments |
| ImportTasks.HeaderIndex | scripts/import-appsheet-tasks.mjs:98 | the last column with the header, or none when no column has it |
| ImportTasks.LegacyStatus | scripts/import-appsheet-tasks.mjs:78-112 | any text other than the four capitalised names maps to open |
| ImportTasks.LegacyUrgency | scripts/import-appsheet-tasks.mjs:116-118 | the trimmed urgency when it is P1 to P4, otherwise P3 |
| ImportTasks.LegacyFollowUpYes | scripts/import-appsheet-tasks.mjs:122-130 | "YES" counts as a follow-up, since the text is lower-cased first |
| ImportTasks.LegacyFollowUpNormalised | scripts/import-appsheet-tasks.mjs:122-130 | the flag of a text is the flag of its trimmed lower-case form, so case and surrounding blanks never matter |
| ImportTasks.LegacyFollowUpNo | scripts/import-appsheet-tasks.mjs:122-130 | "no", the empty string and a non-string cell do not count |
| ImportTasks.LegacyTaskOf | scripts/import-appsheet-tasks.mjs:107-131 | the title is the trimmed Title cell; a missing or unparsable due date becomes today; URLs are trimmed and non-empty |
| ImportTasks.TitledRows | scripts/import-appsheet-tasks.mjs:105-106 | exactly the rows with a non-blank title |
| ImportTasks.TitledRowsAppend | scripts/import-appsheet-tasks.mjs:105-106 | the filter keeps sheet order |
| ImportTasks.MapSeq | scripts/import-appsheet-tasks.mjs:107-131 | the j-th mapped task is the j-th row's |
| ImportTasks.LegacyTasks | scripts/import-appsheet-tasks.mjs:105-131 | at most one task per row, each with a non-empty trimmed title, and every row with a non-blank title yields its legacy task |
| ImportTasks.LegacyTasksAppend | scripts/import-appsheet-tasks.mjs:105-131 | the tasks of rows appended below follow the tasks of the rows above, so sheet order is kept |
| ImportTasks.OpenOnly | scripts/import-appsheet-tasks.mjs:134-136 | exactly the open tasks |
| ImportTasks.OpenOnlyAppend | scripts/import-appsheet-tasks.mjs:134-136 | the filter keeps order |
| ImportTasks.Selected | scripts/import-appsheet-tasks.mjs:133-139 | the first min(limit, n) tasks of the list, open-filtered when asked; the input itself without options |
| ImportTasks.KeySet | scripts/import-appsheet-tasks.mjs:150-152 | the set of the table's keys |
| ImportTasks.DedupedDistinct | scripts/import-appsheet-tasks.mjs:154-161 | kept tasks come from the input, have keys not already in the table, and have pairwise distinct keys |
| ImportTasks.DedupedCovers | scripts/import-appsheet-tasks.mjs:154-161 | every input task's key is already known or is carried by a kept task |
| ImportTasks.DedupedAllKnown | scripts/import-appsheet-tasks.mjs:154-161 | when every key is known, nothing is kept |
| ImportTasks.DedupedSnoc | scripts/import-appsheet-tasks.mjs:154-161 | a task appended to the input is kept exactly when its key is not in the table and no earlier task carries it |
| ImportTasks.DedupedIsFirstOfEachKey | scripts/import-appsheet-tasks.mjs:154-161 | the filter with the growing key set equals the reference `FirstOfEachKey`: exactly the tasks that are the first with a new key, in input order |
| ImportTasks.Dedupe | scripts/import-appsheet-tasks.mjs:150-161 | the loop with the growing key set returns the filter, hence the first task of each key not already in the table, in input order |
| ImportTasks.Truncated | scripts/import-appsheet-tasks.mjs:168-175 | at most 200 characters, a prefix of the title, unchanged when the title is short enough |
| ImportTasks.PreparedRowFresh | scripts/import-appsheet-tasks.mjs:184-207 | a prepared row has zero counters, no reality check, is not parked, has a completion time only when completed, a title of at most 200 characters, and the import key |
| ImportTasks.Warnings | scripts/import-appsheet-tasks.mjs:171-182 | every warning is for a title over 200 characters and carries its truncation |
| ImportTasks.WarningsComplete | scripts/import-appsheet-tasks.mjs:171-182 | every title over 200 characters has a warning |
| ImportTasks.PreparedRowsAt | scripts/import-appsheet-tasks.mjs:171-208 | the j-th prepared row is the j-th task's |
| ImportTasks.PrepareRows | scripts/import-appsheet-tasks.mjs:171-208 | the loop yields the prepared rows of the tasks, in order, and their warnings |
| ImportTasks.PlanKeys | scripts/import-appsheet-tasks.mjs:150-208 | each planned row's stored key is the import key of the task it came from |
| ImportTasks.PlanDistinct | scripts/import-appsheet-tasks.mjs:150-208 | the rows to insert have keys pairwise distinct and not already in the table |
| ImportTasks.PlanIdempotent | scripts/import-appsheet-tasks.mjs:150-208 | re-running the import after its rows are stored inserts nothing |
| ImportTasks.KeyAsWrittenDuplicates | scripts/import-appsheet-tasks.mjs:150-182 | with the key on the untruncated title, a 201-character title is inserted again on a re-run, and two titles that differ after character 200 are both inserted with equal stored keys |
| ImportTasks.ChunksFlatten | scripts/import-appsheet-tasks.mjs:227-235 | the chunks, concatenated, are the rows in order |
| ImportTasks.ChunkAt | scripts/import-appsheet-tasks.mjs:227-229 | there are ceil(n/50) chunks, and chunk b is rows 50b up to 50(b+1) or the end |
| ImportTasks.InsertChunks | scripts/import-appsheet-tasks.mjs:227-235 | all rows are inserted iff no batch fails; otherwise the import stops at the first failing batch with the earlier batches inserted |
| ImportTasks.TasksSheet | scripts/import-appsheet-tasks.mjs:91-95 | the first sheet of the export named "Tasks", or none when no sheet has that name |
| ImportTasks.ImportSelected | scripts/import-appsheet-tasks.mjs:154-237 | "nothing to insert" iff de-duplication keeps nothing; otherwise a dry run yields the planned rows; otherwise it stops at the first failing batch, with the rows before it inserted, and all planned rows are inserted, with the warnings, iff no batch fails |
| ImportTasks.RunImport | scripts/import-appsheet-tasks.mjs:33-237 | the two env files load in order; missing credentials, a missing Tasks sheet and a failed fetch each stop the script; otherwise the outcome is the one the de-duplication, the dry-run flag and the insert give for the selected legacy tasks |

## Left out

- The reality-check decision endpoint and PATCH/DELETE on a single task are not part of this model. Only the client side of a decision is modelled; the endpoint's reply is a parameter.
- I/O is left out. Supabase queries and `fetch` become sequences with fault parameters, and JSON parsing becomes an `Option` body. Reads of the `.env` files become `Option` texts, `process.exit` becomes an outcome value, and console output and toasts are dropped.
- Wall-clock time and dayjs are replaced by day and minute numbers. `today`, `now` and the date and time parsers (`parseDay`, `parseTime`) are parameters. Time zones and date formatting are not modelled.
- `Promise.all` in the bulk bar and the priority probe is modelled as sequential requests. The bulk bar visits the selection in an unspecified order (a `Set`), and concurrency is not modelled.
- The react-query cache and optimistic updates (useTasks) are not modelled. Client requests are logged as `sent` and not applied to the store.
- GET /api/tasks returns rows in table order. The database's ordering by due date and creation time is not modelled. The usage probe's sort leaves the order of equal due dates unspecified.
- Text handling covers ASCII only: lower-casing, whitespace, and no Unicode case folding or normalisation.
- TasksRoute.CreateUrls: a non-string array entry is modelled as `None` and dropped, as in the source. A non-string title is modelled as an absent one (`None`).
- Mappers.TaskToInsertRow: the declared parameter type has no reality-check fields, so the stage is always "none" and its due time null.
- TaskForm.Form.HandleSubmit: the asynchronous `onSuccess`/`onError` callbacks are folded into the call, through a `failure` parameter. `onCreated` and focus handling are UI.
- QuickActions `handleDetails` only navigates the UI and is not modelled. Neither are icon sizes, layout and tooltips.
- Rendering components, reporting views, keyboard shortcuts and modals hold no rules and are not modelled.
- ImportTasks: a non-string Title cell would make `.trim()` throw. The model trims the cell's text instead.
- ImportTasks: an export whose Tasks sheet has no data row would crash on destructuring. The model takes headers and rows separately.
- ImportTasks: `STATUS_MAP` lookups of inherited object keys (such as "constructor") are not modelled. Only the four names map to statuses.
- ImportTasks: the dedupe key is modelled as a tuple rather than the "title::due::urgency" text. They agree because a due date and a priority never contain "::".
- ImportTasks: the dry-run preview table, the console warnings (first ten) and the 1-based batch number in messages are output only. The model's batch index is 0-based.
- ImportTasks.Dedupe: de-duplicates on the corrected key `ImportKey` (the stored, truncated title), not on the untruncated title the script keys on (scripts/import-appsheet-tasks.mjs:155). The two differ only for titles over 200 characters; the Findings table has the script's behaviour.
- ImportTasks.ImportSelected: built on `Dedupe`, so it uses the corrected key `ImportKey` too.
- ImportTasks.RunImport: built on `ImportSelected`, so it uses the corrected key `ImportKey` too.
- ImportTasks.RunImport: migration.json is taken as readable, well-formed JSON and its sheets are a parameter; a failed read or parse (scripts/import-appsheet-tasks.mjs:87-89) throws out of the script and is not modelled.
- RealityCheckManager.HandleDecision: the optional `notes` argument is not modelled. No action of the panel passes one.
- QuickActions.QuickActionsPanel: actions interleaved while another is still pending are not modelled, as for the bulk bar. Each method completes its request before returning, so the "refused while pending" guard of `HandleArchive` is stated but never reached between calls.
- RolloverRoute.Authorized: `replace("Bearer ", "")` also accepts a header that is the bare secret. The model keeps this, and `AuthorizedBareSecret` states it.
- ImportTasks: `split(/\r?\n/)` is modelled as a split on '\n' followed by trimming, which removes a trailing '\r'. `split(/\n+/)` in the form is modelled as a split on '\n' with blanks dropped.

## Findings

| source | as written | input that shows it | evidently intended | confidence | as-written member | corrected member |
|---|---|---|---|---|---|---|
| scripts/import-appsheet-tasks.mjs:150-182 | the dedupe key uses the untruncated legacy title, but the stored title is cut to 200 characters | a legacy title of 201 'a's: a second run keys it by 201 characters, finds only the stored 200-character key, and inserts it again; two titles of 200 'a's followed by "b" and by "c" are both inserted with the same stored key | re-running the import inserts nothing new, and inserted rows have distinct stored keys | not executed | ImportTasks.KeyAsWrittenDuplicates | ImportTasks.PlanIdempotent |

The rest of the import model (`Dedupe`, `Plan`, `RunImport`) uses the
corrected key `ImportKey`, which is the key of the stored, truncated title.
`ImportTasks.PlanDistinct` proves that the planned rows' stored keys are
distinct and new.
