/** The daily rollover sweep (app/api/rollover/route.ts): every overdue open
    task is moved to today, its rollover count raised, its reality-check stage
    advanced, and chronic tasks are archived. The database is the `Db`
    class holding the task table and the three append-only logs; which store calls fail is
    a parameter. */
module RolloverRoute {
  import opened Types
  import opened Text
  import opened StatusUtil
  import opened Mappers
  import opened RealityCheck
  import opened DateHelpers
  import opened Database

  const GraveyardReason: GraveReason := RolloverLimit

  /** Which store calls fail: the selection query, and by position in the
      selection the task update, the history insert and the two unchecked
      inserts. */
  datatype Faults = Faults(selectFails: bool, updateFails: set<nat>, historyFails: set<nat>,
                           graveyardFails: set<nat>, eventFails: set<nat>)

  datatype SweepResponse =
    | Unauthorized
    | Failed
    | Swept(rolledOver: nat, autoArchived: nat, tasks: seq<Task>)

  /** The bearer check: a non-empty secret is configured and the header with
      its first "Bearer " removed equals it (an absent header reads as ""). */
  predicate Authorized(secret: Option<string>, header: Option<string>) {
    var token := ReplaceFirst(if header.Some? then header.value else "", "Bearer ", "");
    secret.Some? && secret.value != [] && token == secret.value
  }

  lemma AuthorizedBearer(secret: string)
    ensures secret != [] <==> Authorized(Some(secret), Some("Bearer " + secret))
    ensures !Authorized(None, Some("Bearer " + secret))
  {
    ReplaceFirstOfPrefixed("Bearer ", secret);
  }

  /** A "Bearer " header is accepted exactly when it carries the secret. */
  lemma AuthorizedBearerToken(secret: string, token: string)
    ensures Authorized(Some(secret), Some("Bearer " + token)) <==> secret != [] && token == secret
  {
    ReplaceFirstOfPrefixed("Bearer ", token);
  }

  /** `replace` also accepts the bare secret as the whole header, when the
      secret does not contain "Bearer " itself. */
  lemma AuthorizedBareSecret(secret: string)
    requires secret != [] && IndexOf(secret, "Bearer ").None?
    ensures Authorized(Some(secret), Some(secret))
  {
  }

  /** The selection query: open, not parked, not a follow-up, due yesterday
      or earlier. */
  predicate Selected(row: TaskRow, today: Day) {
    row.status == "open" && !row.someday && !row.followUpItem &&
    row.dueDate.Some? && row.dueDate.value <= today - 1
  }

  /** The positions of the selected rows, in table order. */
  function Selection(rows: seq<TaskRow>, today: Day): (sel: seq<nat>)
    ensures forall j :: 0 <= j < |sel| ==> sel[j] < |rows| && Selected(rows[sel[j]], today)
    ensures forall j, l :: 0 <= j < l < |sel| ==> sel[j] < sel[l]
    ensures forall i :: 0 <= i < |rows| && Selected(rows[i], today) ==> i in sel
  {
    if rows == [] then []
    else
      var n := |rows| - 1;
      var front := Selection(rows[..n], today);
      assert forall j :: 0 <= j < |front| ==> rows[front[j]] == rows[..n][front[j]];
      front + (if Selected(rows[n], today) then [n] else [])
  }

  /** The reality-check stage and due time a rolled task gets: archive at
      the top band, none below the warning band, and in between the new
      stage, re-armed at `now` when the stage changes or the kept due time
      is missing or already past (the stage machine's trigger rule, read on
      the row's own columns). */
  function NextReality(row: TaskRow, now: Minute): (Stage, Option<Minute>) {
    var nextStage := DetermineRealityStage(row.rolloverCount + 1);
    if nextStage == AutoArchive then (AutoArchive, None)
    else if nextStage == NoStage then (NoStage, None)
    else if row.realityCheckStage != nextStage || row.realityCheckDueAt.None? ||
            row.realityCheckDueAt.value < now then (nextStage, Some(now))
    else (nextStage, row.realityCheckDueAt)
  }

  /** The rule above is the stage machine's `shouldTriggerRealityCheck` on
      the mapped task. */
  lemma NextRealityTriggers(row: TaskRow, now: Minute)
    ensures var nextStage := DetermineRealityStage(row.rolloverCount + 1);
      nextStage != AutoArchive && nextStage != NoStage ==>
        (NextReality(row, now).1 == Some(now) <==>
         ShouldTriggerRealityCheck(TaskRowToTask(row), nextStage, now) ||
         row.realityCheckDueAt == Some(now))
  {
    var t := TaskRowToTask(row);
    assert t.realityCheckStage == row.realityCheckStage && t.realityCheckDueAt == row.realityCheckDueAt by {
      assert WithStatus(t, row.status) == row;
    }
  }

  /** The update the sweep sends for one task. */
  function Payload(row: TaskRow, today: Day, now: Minute): UpdateRow {
    var (stage, dueAt) := NextReality(row, now);
    EmptyUpdate.(dueDate := Some(Some(today)), rolloverCount := Some(row.rolloverCount + 1),
                 lastRolledOverAt := Some(Some(now)), realityCheckStage := Some(stage),
                 realityCheckDueAt := Some(dueAt),
                 status := if stage == AutoArchive then Some(Archived) else None)
  }

  /** A row after the sweep's update: due today, one more rollover stamped
      now, the next reality-check stage and due time, archived at the top
      band. */
  function Rolled(row: TaskRow, today: Day, now: Minute): TaskRow {
    var (stage, dueAt) := NextReality(row, now);
    row.(dueDate := Some(today), rolloverCount := row.rolloverCount + 1, lastRolledOverAt := Some(now),
         realityCheckStage := stage, realityCheckDueAt := dueAt,
         status := if stage == AutoArchive then StatusName(Archived) else row.status)
  }

  /** Applying the update payload to the row gives the rolled row. */
  lemma RolledIsUpdate(row: TaskRow, today: Day, now: Minute)
    ensures ApplyUpdate(row, Payload(row, today, now)) == Rolled(row, today, now)
  {
  }

  /** What the sweep does to one row: due today, one more rollover stamped
      now, the stage of the new count with its due time, archived at the top
      band; every other column is left alone. */
  lemma RolledFields(row: TaskRow, today: Day, now: Minute)
    ensures var r := Rolled(row, today, now);
      && r.id == row.id && r.urgency == row.urgency
      && r.dueDate == Some(today) && r.rolloverCount == row.rolloverCount + 1
      && r.lastRolledOverAt == Some(now)
      && r.(dueDate := row.dueDate, rolloverCount := row.rolloverCount,
            lastRolledOverAt := row.lastRolledOverAt, status := row.status,
            realityCheckStage := row.realityCheckStage,
            realityCheckDueAt := row.realityCheckDueAt) == row
    ensures var r := Rolled(row, today, now);
      row.rolloverCount + 1 >= 10 ==>
        r.status == "archived" && r.realityCheckStage == AutoArchive && r.realityCheckDueAt == None
    ensures var r := Rolled(row, today, now);
      row.rolloverCount + 1 < 10 ==> r.status == row.status
    ensures var r := Rolled(row, today, now);
      row.rolloverCount + 1 < 3 ==> r.realityCheckStage == NoStage && r.realityCheckDueAt == None
    ensures var r := Rolled(row, today, now);
      3 <= row.rolloverCount + 1 < 10 ==>
        r.realityCheckStage == DetermineRealityStage(row.rolloverCount + 1) &&
        r.realityCheckDueAt ==
          if ShouldTriggerRealityCheck(TaskRowToTask(row), r.realityCheckStage, now) then Some(now)
          else row.realityCheckDueAt
  {
    StageBands(row.rolloverCount + 1);
  }

  /** In the escalation bands the rolled task is always armed: its due time
      is present, and it is `now` unless a same-stage due time that is not
      yet past was kept. A changed stage is always re-armed at `now`. */
  lemma RolledIsArmed(row: TaskRow, today: Day, now: Minute)
    requires 3 <= row.rolloverCount + 1 < 10
    ensures Rolled(row, today, now).realityCheckDueAt.Some?
    ensures var d := Rolled(row, today, now).realityCheckDueAt.value;
            d == now || (d >= now && row.realityCheckDueAt == Some(d))
    ensures Rolled(row, today, now).realityCheckStage != row.realityCheckStage ==>
            Rolled(row, today, now).realityCheckDueAt == Some(now)
  {
    RolledFields(row, today, now);
    StageBands(row.rolloverCount + 1);
    TriggerCases(TaskRowToTask(row), DetermineRealityStage(row.rolloverCount + 1), now);
  }

  /** A rolled row is not selected again the same day. */
  lemma RolledNotSelected(row: TaskRow, today: Day, now: Minute)
    ensures !Selected(Rolled(row, today, now), today)
  {
    RolledFields(row, today, now);
  }

  predicate InRange(rows: seq<TaskRow>, sel: seq<nat>) {
    forall j :: 0 <= j < |sel| ==> sel[j] < |rows|
  }

  /** The table with the first `m` selected rows rolled, one update after
      the other. */
  function RollPrefix(rows: seq<TaskRow>, sel: seq<nat>, m: nat, today: Day, now: Minute): (r: seq<TaskRow>)
    requires m <= |sel| && InRange(rows, sel)
    ensures |r| == |rows|
  {
    if m == 0 then rows
    else RollPrefix(rows, sel, m - 1, today, now)[sel[m - 1] := Rolled(rows[sel[m - 1]], today, now)]
  }

  /** With distinct positions, each processed row is rolled once from its
      selected state and every other row is untouched. */
  lemma {:induction false} RollPrefixAt(rows: seq<TaskRow>, sel: seq<nat>, m: nat, today: Day, now: Minute, i: nat)
    requires m <= |sel| && InRange(rows, sel) && i < |rows|
    requires forall j, l :: 0 <= j < l < |sel| ==> sel[j] < sel[l]
    ensures RollPrefix(rows, sel, m, today, now)[i] ==
            if i in sel[..m] then Rolled(rows[i], today, now) else rows[i]
  {
    if m > 0 {
      RollPrefixAt(rows, sel, m - 1, today, now, i);
      assert sel[..m] == sel[..m - 1] + [sel[m - 1]];
      var front := sel[..m - 1];
      forall j | 0 <= j < |front| ensures front[j] != sel[m - 1] {
        assert front[j] == sel[j] < sel[m - 1];
      }
    }
  }

  function HistoryOf(row: TaskRow, today: Day): HistoryRecord {
    HistoryRecord(row.id, row.dueDate, today, row.urgency, true)
  }

  /** One history record per processed row, in processing order. */
  function Histories(rows: seq<TaskRow>, sel: seq<nat>, m: nat, today: Day): (h: seq<HistoryRecord>)
    requires m <= |sel| && InRange(rows, sel)
    ensures |h| == m
  {
    if m == 0 then [] else Histories(rows, sel, m - 1, today) + [HistoryOf(rows[sel[m - 1]], today)]
  }

  /** The `j`-th history record is the one for the `j`-th processed row:
      from its old due date to today, at its priority, marked automatic. */
  lemma {:induction false} HistoriesAt(rows: seq<TaskRow>, sel: seq<nat>, m: nat, today: Day)
    requires m <= |sel| && InRange(rows, sel)
    ensures forall j :: 0 <= j < m ==>
      Histories(rows, sel, m, today)[j] == HistoryRecord(rows[sel[j]].id, rows[sel[j]].dueDate, today,
                                                         rows[sel[j]].urgency, true)
  {
    if m > 0 {
      HistoriesAt(rows, sel, m - 1, today);
    }
  }

  /** Whether the sweep archives this row: its new count reaches the
      auto-archive band. */
  predicate Archives(row: TaskRow) {
    DetermineRealityStage(row.rolloverCount + 1) == AutoArchive
  }

  /** Graveyard records for the archived rows among the first `m` processed,
      less those whose insert failed. */
  function Graves(rows: seq<TaskRow>, sel: seq<nat>, m: nat, faults: Faults): seq<GraveyardRecord>
    requires m <= |sel| && InRange(rows, sel)
  {
    if m == 0 then []
    else
      var row := rows[sel[m - 1]];
      Graves(rows, sel, m - 1, faults) +
      (if Archives(row) && m - 1 !in faults.graveyardFails
       then [GraveyardRecord(row.id, GraveyardReason)] else [])
  }

  /** Reality-check events for the archived rows among the first `m`
      processed, less those whose insert failed. */
  function Events(rows: seq<TaskRow>, sel: seq<nat>, m: nat, now: Minute, faults: Faults): seq<EventRecord>
    requires m <= |sel| && InRange(rows, sel)
  {
    if m == 0 then []
    else
      var row := rows[sel[m - 1]];
      Events(rows, sel, m - 1, now, faults) +
      (if Archives(row) && m - 1 !in faults.eventFails
       then [EventRecord(row.id, AutoArchive, AutoArchived, now)] else [])
  }

  /** The number of archived rows among the first `m` processed. */
  function ArchivedCount(rows: seq<TaskRow>, sel: seq<nat>, m: nat): (n: nat)
    requires m <= |sel| && InRange(rows, sel)
    ensures n <= m
  {
    if m == 0 then 0
    else ArchivedCount(rows, sel, m - 1) + (if Archives(rows[sel[m - 1]]) then 1 else 0)
  }

  /** With no failed graveyard insert there is one graveyard record, and one
      event, per archived task. */
  lemma {:induction false} ArchivedCountMatchesLogs(rows: seq<TaskRow>, sel: seq<nat>, m: nat,
                                                    now: Minute, faults: Faults)
    requires m <= |sel| && InRange(rows, sel)
    requires faults.graveyardFails == {} && faults.eventFails == {}
    ensures |Graves(rows, sel, m, faults)| == ArchivedCount(rows, sel, m)
    ensures |Events(rows, sel, m, now, faults)| == ArchivedCount(rows, sel, m)
  {
    if m > 0 {
      ArchivedCountMatchesLogs(rows, sel, m - 1, now, faults);
    }
  }

  /** The rows the response lists: the first `m` selected rows, rolled. */
  function RolledRows(rows: seq<TaskRow>, sel: seq<nat>, m: nat, today: Day, now: Minute): (r: seq<TaskRow>)
    requires m <= |sel| && InRange(rows, sel)
    ensures |r| == m
  {
    if m == 0 then [] else RolledRows(rows, sel, m - 1, today, now) + [Rolled(rows[sel[m - 1]], today, now)]
  }

  /** The rows rolled so far, extended by the next one rolled. */
  lemma RolledRowsStep(rows: seq<TaskRow>, sel: seq<nat>, k: nat, today: Day, now: Minute,
                       done: seq<TaskRow>, row: TaskRow)
    requires k < |sel| && InRange(rows, sel)
    requires done == RolledRows(rows, sel, k, today, now) && row == Rolled(rows[sel[k]], today, now)
    ensures RolledRows(rows, sel, k + 1, today, now) == done + [row]
  {
  }

  /** The response lists the processed rows in processing order, each as the
      update left it. */
  lemma {:induction false} RolledRowsAt(rows: seq<TaskRow>, sel: seq<nat>, m: nat, today: Day, now: Minute)
    requires m <= |sel| && InRange(rows, sel)
    ensures forall j :: 0 <= j < m ==> RolledRows(rows, sel, m, today, now)[j] == Rolled(rows[sel[j]], today, now)
  {
    if m > 0 {
      var front := RolledRows(rows, sel, m - 1, today, now);
      var r := RolledRows(rows, sel, m, today, now);
      var x := Rolled(rows[sel[m - 1]], today, now);
      RolledRowsAt(rows, sel, m - 1, today, now);
      assert r == front + [x];
      forall j | 0 <= j < m
        ensures r[j] == Rolled(rows[sel[j]], today, now)
      {
        if j < m - 1 {
          assert r[j] == front[j];
        } else {
          assert j == m - 1 && r[j] == x;
        }
      }
    }
  }

  /** The archive count is the number of listed rows that came back archived. */
  lemma {:induction false} ArchivedCountIsArchivedRows(rows: seq<TaskRow>, sel: seq<nat>, m: nat,
                                                       today: Day, now: Minute)
    requires m <= |sel| && InRange(rows, sel)
    requires forall j :: 0 <= j < |sel| ==> rows[sel[j]].status == "open"
    ensures ArchivedCount(rows, sel, m) ==
            |ArchivedRows(RolledRows(rows, sel, m, today, now))|
  {
    if m > 0 {
      var row := rows[sel[m - 1]];
      var front := RolledRows(rows, sel, m - 1, today, now);
      var x := Rolled(row, today, now);
      ArchivedCountIsArchivedRows(rows, sel, m - 1, today, now);
      assert (front + [x])[..|front|] == front;
      StageBands(row.rolloverCount + 1);
      RolledFields(row, today, now);
    }
  }

  function ArchivedRows(rs: seq<TaskRow>): seq<TaskRow> {
    if rs == [] then []
    else ArchivedRows(rs[..|rs| - 1]) + (if rs[|rs| - 1].status == "archived" then [rs[|rs| - 1]] else [])
  }

  /** The first position at or after `k` where the task update or the
      history insert fails, or `n` when none does. */
  function FirstFault(faults: Faults, k: nat, n: nat): (r: nat)
    requires k <= n
    ensures k <= r <= n
    ensures forall j :: k <= j < r ==> j !in faults.updateFails && j !in faults.historyFails
    ensures r < n ==> r in faults.updateFails || r in faults.historyFails
    decreases n - k
  {
    if k == n then n
    else if k in faults.updateFails || k in faults.historyFails then k
    else FirstFault(faults, k + 1, n)
  }

  /** How many of `n` selected rows the sweep updated: those before the
      first failure, and the failing one too when only its history insert
      failed. */
  function UpdatedCount(faults: Faults, n: nat): (r: nat)
    ensures FirstFault(faults, 0, n) <= r <= n
  {
    var stop := FirstFault(faults, 0, n);
    if stop < n && stop !in faults.updateFails then stop + 1 else stop
  }

  lemma FirstFaultAt(faults: Faults, n: nat, k: nat)
    requires k < n && k <= FirstFault(faults, 0, n)
    ensures k in faults.updateFails || k in faults.historyFails ==> FirstFault(faults, 0, n) == k
    ensures k !in faults.updateFails && k !in faults.historyFails ==> k < FirstFault(faults, 0, n)
  {
  }

  /** Where the sweep stops at `k`, the updates that went through are those
      before `k`, and the one at `k` when only its history insert failed. */
  lemma StopsAt(faults: Faults, n: nat, k: nat)
    requires k < n && k <= FirstFault(faults, 0, n)
    requires k in faults.updateFails || k in faults.historyFails
    ensures FirstFault(faults, 0, n) == k
    ensures UpdatedCount(faults, n) == if k in faults.updateFails then k else k + 1
  {
    FirstFaultAt(faults, n, k);
  }

  /** After a complete sweep nothing is selected any more that day. */
  lemma SweepSettles(rows: seq<TaskRow>, today: Day, now: Minute)
    ensures var sel := Selection(rows, today);
            Selection(RollPrefix(rows, sel, |sel|, today, now), today) == []
  {
    var sel := Selection(rows, today);
    var after := RollPrefix(rows, sel, |sel|, today, now);
    assert sel[..|sel|] == sel;
    var again := Selection(after, today);
    if again != [] {
      var i := again[0];
      RollPrefixAt(rows, sel, |sel|, today, now, i);
      assert false;
    }
  }

  /** The update payload the sweep computes for one task, step by step as
      the route does it. */
  method RolloverPayload(task: TaskRow, today: Day, now: Minute) returns (updatePayload: UpdateRow)
    ensures updatePayload == Payload(task, today, now)
  {
    var newRolloverCount := task.rolloverCount + 1;
    var nextStage := DetermineRealityStage(newRolloverCount);
    var shouldArchive := nextStage == AutoArchive;
    var currentTask := TaskRowToTask(task);
    var triggerRealityCheck := ShouldTriggerRealityCheck(currentTask, nextStage, now);
    var realityStage := if shouldArchive then AutoArchive else nextStage;
    var realityDueAt := if shouldArchive then None else task.realityCheckDueAt;
    if !shouldArchive && nextStage == NoStage {
      realityDueAt := None;
      realityStage := NoStage;
    } else if triggerRealityCheck {
      realityDueAt := Some(now);
    }
    updatePayload := EmptyUpdate.(
      dueDate := Some(Some(today)), rolloverCount := Some(newRolloverCount),
      lastRolledOverAt := Some(Some(now)), realityCheckStage := Some(realityStage),
      realityCheckDueAt := Some(realityDueAt),
      status := if shouldArchive then Some(Archived) else None);
  }

  /** The state after the first `u` selected rows were updated and the
      logs written for the first `k`, starting from `rows` and the logs
      `h0`, `g0`, `e0`. */
  ghost predicate Processed(db: Db, rows: seq<TaskRow>, sel: seq<nat>, u: nat, k: nat, today: Day, now: Minute,
                            faults: Faults, h0: seq<HistoryRecord>, g0: seq<GraveyardRecord>,
                            e0: seq<EventRecord>)
    reads db
    requires u <= |sel| && k <= |sel| && InRange(rows, sel)
  {
    && db.tasks == RollPrefix(rows, sel, u, today, now)
    && db.history == h0 + Histories(rows, sel, k, today)
    && db.graveyard == g0 + Graves(rows, sel, k, faults)
    && db.events == e0 + Events(rows, sel, k, now, faults)
  }

  /** One pass of the sweep's loop: update the row, append its history
      record, and for an archived row the graveyard record and the event.
      It stops after the update when that fails, and after the history
      insert when that fails. */
  method RollOne(db: Db, rows: seq<TaskRow>, sel: seq<nat>, k: nat, today: Day, now: Minute, faults: Faults,
                 ghost h0: seq<HistoryRecord>, ghost g0: seq<GraveyardRecord>,
                 ghost e0: seq<EventRecord>)
    returns (ok: bool, updatedRow: TaskRow, archived: bool)
    requires k < |sel| && InRange(rows, sel)
    requires Processed(db, rows, sel, k, k, today, now, faults, h0, g0, e0)
    modifies db
    ensures ok <==> k !in faults.updateFails && k !in faults.historyFails
    ensures ok ==> Processed(db, rows, sel, k + 1, k + 1, today, now, faults, h0, g0, e0)
    ensures ok ==> updatedRow == Rolled(rows[sel[k]], today, now)
    ensures ok ==> (archived <==> Archives(rows[sel[k]]))
    ensures !ok ==> Processed(db, rows, sel, if k in faults.updateFails then k else k + 1, k,
                              today, now, faults, h0, g0, e0)
  {
    var task := rows[sel[k]];
    var updatePayload := RolloverPayload(task, today, now);
    archived := updatePayload.realityCheckStage == Some(AutoArchive);
    if k in faults.updateFails {
      return false, task, archived;
    }
    updatedRow := ApplyUpdate(task, updatePayload);
    RolledIsUpdate(task, today, now);
    db.tasks := db.tasks[sel[k] := updatedRow];
    assert db.tasks == RollPrefix(rows, sel, k + 1, today, now);
    if k in faults.historyFails {
      return false, updatedRow, archived;
    }
    assert archived == Archives(task);
    AppendLogs(db, task, today, now, archived, k !in faults.graveyardFails, k !in faults.eventFails);
    ok := true;
  }

  /** The inserts after a successful update: the history record, and for an
      archived task the graveyard record and the event when those succeed. */
  method AppendLogs(db: Db, task: TaskRow, today: Day, now: Minute, archived: bool,
                    graveOk: bool, eventOk: bool)
    modifies db
    ensures db.tasks == old(db.tasks)
    ensures db.history == old(db.history) + [HistoryOf(task, today)]
    ensures db.graveyard == old(db.graveyard) +
      (if archived && graveOk then [GraveyardRecord(task.id, GraveyardReason)] else [])
    ensures db.events == old(db.events) +
      (if archived && eventOk then [EventRecord(task.id, AutoArchive, AutoArchived, now)] else [])
  {
    db.history := db.history + [HistoryOf(task, today)];
    if archived && graveOk {
      db.graveyard := db.graveyard + [GraveyardRecord(task.id, GraveyardReason)];
    }
    if archived && eventOk {
      db.events := db.events + [EventRecord(task.id, AutoArchive, AutoArchived, now)];
    }
  }

  /** The sweep's loop over the selected rows, in order; it stops at the
      first failed update or history insert. */
  method RollAll(db: Db, rows: seq<TaskRow>, sel: seq<nat>, today: Day, now: Minute, faults: Faults)
    returns (completed: bool, rolledTasks: seq<TaskRow>, autoArchived: nat)
    requires InRange(rows, sel)
    requires db.tasks == rows
    modifies db
    ensures completed ==> FirstFault(faults, 0, |sel|) == |sel|
    ensures !completed ==> FirstFault(faults, 0, |sel|) < |sel|
    ensures Processed(db, rows, sel, UpdatedCount(faults, |sel|), FirstFault(faults, 0, |sel|), today, now, faults,
                      old(db.history), old(db.graveyard), old(db.events))
    ensures completed ==>
      rolledTasks == RolledRows(rows, sel, |sel|, today, now) &&
      autoArchived == ArchivedCount(rows, sel, |sel|)
  {
    assert db.tasks == RollPrefix(rows, sel, 0, today, now);
    rolledTasks := [];
    autoArchived := 0;
    var k := 0;
    while k < |sel|
      invariant 0 <= k <= |sel| && k <= FirstFault(faults, 0, |sel|)
      invariant Processed(db, rows, sel, k, k, today, now, faults, old(db.history), old(db.graveyard), old(db.events))
      invariant rolledTasks == RolledRows(rows, sel, k, today, now)
      invariant autoArchived == ArchivedCount(rows, sel, k)
    {
      var ok, updatedRow, archived :=
        RollOne(db, rows, sel, k, today, now, faults, old(db.history), old(db.graveyard), old(db.events));
      FirstFaultAt(faults, |sel|, k);
      if !ok {
        StopsAt(faults, |sel|, k);
        return false, rolledTasks, autoArchived;
      }
      RolledRowsStep(rows, sel, k, today, now, rolledTasks, updatedRow);
      if archived {
        autoArchived := autoArchived + 1;
      }
      rolledTasks := rolledTasks + [updatedRow];
      k := k + 1;
    }
    assert UpdatedCount(faults, |sel|) == |sel|;
    completed := true;
  }

  /** `POST /api/rollover` at instant `now`. */
  method Sweep(db: Db, secret: Option<string>, header: Option<string>, now: Minute, faults: Faults)
    returns (response: SweepResponse)
    modifies db
    ensures !Authorized(secret, header) ==>
      response == Unauthorized && db.tasks == old(db.tasks) && db.history == old(db.history) &&
      db.graveyard == old(db.graveyard) && db.events == old(db.events)
    ensures Authorized(secret, header) && faults.selectFails ==>
      response == Failed && db.tasks == old(db.tasks) && db.history == old(db.history) &&
      db.graveyard == old(db.graveyard) && db.events == old(db.events)
    ensures Authorized(secret, header) && !faults.selectFails ==>
      var today := Today(now);
      var sel := Selection(old(db.tasks), today);
      var stop := FirstFault(faults, 0, |sel|);
      && (response == if stop < |sel| then Failed
                      else Swept(|sel|, ArchivedCount(old(db.tasks), sel, |sel|),
                                 ToTasks(RolledRows(old(db.tasks), sel, |sel|, today, now))))
      && Processed(db, old(db.tasks), sel, UpdatedCount(faults, |sel|), stop, today, now, faults,
                   old(db.history), old(db.graveyard), old(db.events))
  {
    if !Authorized(secret, header) {
      return Unauthorized;
    }
    var today := Today(now);
    if faults.selectFails {
      return Failed;
    }
    var rows := db.tasks;
    var sel := Selection(rows, today);
    if |sel| == 0 {
      assert db.tasks == RollPrefix(rows, sel, 0, today, now);
      return Swept(0, 0, []);
    }
    var completed, rolledTasks, autoArchived := RollAll(db, rows, sel, today, now, faults);
    if !completed {
      return Failed;
    }
    response := Swept(|rolledTasks|, autoArchived, ToTasks(rolledTasks));
  }
}
