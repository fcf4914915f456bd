/** The Supabase tables the server routes read and write: the task table and
    the three append-only logs. Store calls that can fail are modelled by the
    routes with a fault parameter. */
module Database {
  import opened Types

  /** A `rollover_history` record. */
  datatype HistoryRecord = HistoryRecord(taskId: Id, fromDate: Option<Day>, toDate: Day,
                                         priority: Priority, automatic: bool)

  /** A `graveyard` record. */
  datatype GraveyardRecord = GraveyardRecord(taskId: Id, reason: GraveReason)

  /** The reasons a task is buried; the rollover sweep writes the only one. */
  datatype GraveReason = RolloverLimit

  /** The text stored in the `reason` column. */
  function ReasonText(r: GraveReason): string {
    match r
    case RolloverLimit => "Auto-archived after 10 rollovers"
  }

  /** A `reality_check_events` record. */
  datatype EventRecord = EventRecord(taskId: Id, stage: Stage, decision: Decision, decisionAt: Minute)

  /** The task table (rows in storage order) and the logs. */
  class Db {
    var tasks: seq<TaskRow>
    var history: seq<HistoryRecord>
    var graveyard: seq<GraveyardRecord>
    var events: seq<EventRecord>

    constructor (rows: seq<TaskRow>)
      ensures tasks == rows && history == [] && graveyard == [] && events == []
    {
      tasks := rows;
      history := [];
      graveyard := [];
      events := [];
    }
  }
}
