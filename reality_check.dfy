/** The reality-check stage machine (lib/utils/realityCheck.ts). */
module RealityCheck {
  import opened Types

  const WarningThreshold := 3
  const AlertThreshold := 5
  const InterventionThreshold := 7
  const AutoArchiveThreshold := 10

  /** Position of a stage in the escalation order none < warning < alert <
      intervention < auto_archive. */
  function StageRank(s: Stage): nat {
    match s
    case NoStage => 0
    case Warning => 1
    case Alert => 2
    case Intervention => 3
    case AutoArchive => 4
  }

  /** `determineRealityStage`. */
  function DetermineRealityStage(rolloverCount: int): Stage {
    if rolloverCount >= AutoArchiveThreshold then AutoArchive
    else if rolloverCount >= InterventionThreshold then Intervention
    else if rolloverCount >= AlertThreshold then Alert
    else if rolloverCount >= WarningThreshold then Warning
    else NoStage
  }

  /** The count bands of each stage. */
  lemma StageBands(n: int)
    ensures DetermineRealityStage(n) == AutoArchive <==> n >= 10
    ensures DetermineRealityStage(n) == Intervention <==> 7 <= n < 10
    ensures DetermineRealityStage(n) == Alert <==> 5 <= n < 7
    ensures DetermineRealityStage(n) == Warning <==> 3 <= n < 5
    ensures DetermineRealityStage(n) == NoStage <==> n < 3
  {
  }

  /** A higher count never maps to a lower stage. */
  lemma StageMonotone(m: int, n: int)
    requires m <= n
    ensures StageRank(DetermineRealityStage(m)) <= StageRank(DetermineRealityStage(n))
  {
  }

  function PriorityRank(p: Priority): nat {
    match p
    case P1 => 1
    case P2 => 2
    case P3 => 3
    case P4 => 4
  }

  /** `getLowerPriority`: one tier down, floored at P4. */
  function GetLowerPriority(p: Priority): (r: Priority)
    ensures PriorityRank(r) == if p == P4 then 4 else PriorityRank(p) + 1
  {
    match p
    case P1 => P2
    case P2 => P3
    case P3 => P4
    case P4 => P4
  }

  /** Downgrading never raises a priority and P4 is its only fixed point. */
  lemma LowerPriorityNeverRaises(p: Priority)
    ensures PriorityRank(GetLowerPriority(p)) >= PriorityRank(p)
    ensures GetLowerPriority(p) == p <==> p == P4
  {
  }

  /** `shouldTriggerRealityCheck`: whether the escalation timestamp is re-armed
      for a task heading to `nextStage` at instant `now`. */
  predicate ShouldTriggerRealityCheck(task: Task, nextStage: Stage, now: Minute) {
    if nextStage == NoStage || nextStage == AutoArchive then false
    else if task.realityCheckStage != nextStage then true
    else if task.realityCheckDueAt.None? then true
    else task.realityCheckDueAt.value < now
  }

  lemma TriggerCases(task: Task, nextStage: Stage, now: Minute)
    ensures nextStage == NoStage || nextStage == AutoArchive ==> !ShouldTriggerRealityCheck(task, nextStage, now)
    ensures nextStage in {Warning, Alert, Intervention} &&
            (task.realityCheckStage != nextStage || task.realityCheckDueAt.None?) ==>
              ShouldTriggerRealityCheck(task, nextStage, now)
    ensures nextStage in {Warning, Alert, Intervention} && task.realityCheckStage == nextStage &&
            task.realityCheckDueAt.Some? ==>
              (ShouldTriggerRealityCheck(task, nextStage, now) <==> task.realityCheckDueAt.value < now)
  {
  }
}
