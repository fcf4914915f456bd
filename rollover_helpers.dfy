/** Client-side rollover predicates (lib/utils/rolloverHelpers.ts). */
module RolloverHelpers {
  import opened Types
  import opened RealityCheck
  import opened DateHelpers

  /** `shouldRolloverTask`: an open task whose due day is before the day of
      the reference instant. */
  predicate ShouldRolloverTask(task: Task, reference: Minute) {
    if task.status != Open then false
    else if task.dueDate.None? then false
    else task.dueDate.value < Today(reference)
  }

  /** `incrementRollover`: due today, one more rollover, stamped now. */
  function IncrementRollover(task: Task, reference: Minute): (r: Task)
    ensures r.(dueDate := task.dueDate, rolloverCount := task.rolloverCount,
               lastRolledOverAt := task.lastRolledOverAt) == task
    ensures r.rolloverCount == task.rolloverCount + 1
    ensures r.dueDate == Some(Today(reference)) && r.lastRolledOverAt == Some(reference)
  {
    task.(dueDate := Some(Today(reference)), rolloverCount := task.rolloverCount + 1,
          lastRolledOverAt := Some(reference))
  }

  /** A task rolled at some instant is no longer due for rollover that day. */
  lemma IncrementRolloverSettles(task: Task, reference: Minute, later: Minute)
    requires Today(later) == Today(reference)
    ensures !ShouldRolloverTask(IncrementRollover(task, reference), later)
  {
  }

  /** Someday and follow-up tasks are not excluded here. */
  lemma ShouldRolloverIgnoresParking(task: Task, reference: Minute, someday: bool, followUp: bool)
    ensures ShouldRolloverTask(task, reference) ==
            ShouldRolloverTask(task.(someday := someday, followUpItem := followUp), reference)
  {
  }

  predicate RequiresRealityCheck(task: Task) {
    task.rolloverCount >= 3 && task.rolloverCount < 10
  }

  predicate IsAutoArchiveThreshold(task: Task) {
    task.rolloverCount >= 10
  }

  /** Both predicates agree with the stage machine and exclude each other. */
  lemma ThresholdsMatchStages(task: Task)
    ensures RequiresRealityCheck(task) <==>
            DetermineRealityStage(task.rolloverCount) in {Warning, Alert, Intervention}
    ensures IsAutoArchiveThreshold(task) <==> DetermineRealityStage(task.rolloverCount) == AutoArchive
    ensures !(RequiresRealityCheck(task) && IsAutoArchiveThreshold(task))
  {
  }
}
