/** The reality-check prompt queue (components/providers/RealityCheckManager.tsx):
    which tasks are due a prompt, which one is on screen, and what a
    decision does to the queue. The two effects and the decision handler
    rewrite the store's queue fields. */
module RealityCheckManager {
  import opened Types
  import opened TaskStore
  import opened Mappers
  import opened RolloverRoute
  import opened RealityCheck

  /** A task is due a prompt when it is at an escalation stage short of
      auto-archive and its prompt time is unset or has come. */
  predicate IsPending(t: Task, now: Minute) {
    t.realityCheckStage != NoStage && t.realityCheckStage != AutoArchive &&
    (t.realityCheckDueAt.None? || t.realityCheckDueAt.value <= now)
  }

  /** The positions of the pending tasks, in list order. */
  function PendingPositions(ts: seq<Task>, now: Minute): (pos: seq<nat>)
    ensures forall k :: 0 <= k < |pos| ==> pos[k] < |ts| && IsPending(ts[pos[k]], now)
    ensures forall k, l :: 0 <= k < l < |pos| ==> pos[k] < pos[l]
    ensures forall i :: 0 <= i < |ts| && IsPending(ts[i], now) ==> i in pos
  {
    if ts == [] then []
    else
      var n := |ts| - 1;
      var front := PendingPositions(ts[..n], now);
      assert forall k :: 0 <= k < |front| ==> ts[front[k]] == ts[..n][front[k]];
      front + (if IsPending(ts[n], now) then [n] else [])
  }

  /** The pending-id effect's value: the ids of the pending tasks, in list
      order. */
  function PendingIds(ts: seq<Task>, now: Minute): (ids: seq<Id>)
    ensures |ids| == |PendingPositions(ts, now)|
    ensures forall k :: 0 <= k < |ids| ==> ids[k] == ts[PendingPositions(ts, now)[k]].id
  {
    var pos := PendingPositions(ts, now);
    seq(|pos|, k requires 0 <= k < |pos| => ts[pos[k]].id)
  }

  /** An id is queued exactly when a pending task carries it. */
  lemma PendingIdsMembers(ts: seq<Task>, now: Minute, id: Id)
    ensures id in PendingIds(ts, now) <==> exists i :: 0 <= i < |ts| && ts[i].id == id && IsPending(ts[i], now)
  {
    var pos := PendingPositions(ts, now);
    var ids := PendingIds(ts, now);
    if id in ids {
      var k :| 0 <= k < |ids| && ids[k] == id;
      assert ts[pos[k]].id == id;
    }
    if exists i :: 0 <= i < |ts| && ts[i].id == id && IsPending(ts[i], now) {
      var i :| 0 <= i < |ts| && ts[i].id == id && IsPending(ts[i], now);
      var k :| 0 <= k < |pos| && pos[k] == i;
      assert ids[k] == id;
    }
  }

  /** The queue follows the list: appending tasks appends their pending
      ids. */
  lemma {:induction false} PendingIdsAppend(a: seq<Task>, b: seq<Task>, now: Minute)
    ensures PendingIds(a + b, now) == PendingIds(a, now) + PendingIds(b, now)
    decreases |b|
  {
    if b == [] {
      assert a + b == a;
    } else {
      var front, x := b[..|b| - 1], b[|b| - 1];
      var tail := if IsPending(x, now) then [x.id] else [];
      assert b == front + [x];
      assert a + b == (a + front) + [x];
      PendingIdsAppend(a, front, now);
      PendingIdsSnoc(a + front, x, now);
      PendingIdsSnoc(front, x, now);
      calc {
        PendingIds(a + b, now);
        PendingIds(a + front, now) + tail;
        (PendingIds(a, now) + PendingIds(front, now)) + tail;
        PendingIds(a, now) + (PendingIds(front, now) + tail);
        PendingIds(a, now) + PendingIds(b, now);
      }
    }
  }

  /** One more task at the end adds its id when it is pending. */
  lemma PendingIdsSnoc(ts: seq<Task>, t: Task, now: Minute)
    ensures PendingIds(ts + [t], now) == PendingIds(ts, now) + (if IsPending(t, now) then [t.id] else [])
  {
    var s := ts + [t];
    assert s[..|s| - 1] == ts;
    var pos := PendingPositions(s, now);
    assert pos == PendingPositions(ts, now) + (if IsPending(t, now) then [|ts|] else []);
  }

  /** A sweep that moves a task into an escalation band queues it for a
      prompt once its prompt time comes, and at once when the stage
      changed. */
  lemma RolledTaskIsPrompted(row: TaskRow, today: Day, now: Minute)
    requires 3 <= row.rolloverCount + 1 < 10
    ensures var t := TaskRowToTask(Rolled(row, today, now));
      && IsPending(t, t.realityCheckDueAt.value)
      && (t.realityCheckStage != row.realityCheckStage ==> IsPending(t, now))
  {
    var r := Rolled(row, today, now);
    var t := TaskRowToTask(r);
    RolledIsArmed(row, today, now);
    RolledFields(row, today, now);
    StageBands(row.rolloverCount + 1);
    assert t.realityCheckStage == r.realityCheckStage && t.realityCheckDueAt == r.realityCheckDueAt by {
      assert WithStatus(t, r.status) == r;
    }
  }

  /** A truthy id: present and not the empty string. */
  predicate IsSet(active: Option<Id>) {
    active.Some? && active.value != []
  }

  /** The active-prompt effect's outcome. An empty queue clears a set
      active id; otherwise a set id still in the queue is kept and anything
      else is replaced by the head of the queue. */
  function Reconciled(pending: seq<Id>, active: Option<Id>): Option<Id> {
    if pending == [] then (if IsSet(active) then None else active)
    else if !IsSet(active) || active.value !in pending then Some(pending[0])
    else active
  }

  /** A non-empty queue always ends with an active id from the queue, a set
      id still queued stays, an empty queue leaves no set id, and running
      the effect again changes nothing. */
  lemma ReconciledHolds(pending: seq<Id>, active: Option<Id>)
    ensures pending != [] ==> Reconciled(pending, active).Some? && Reconciled(pending, active).value in pending
    ensures IsSet(active) && active.value in pending ==> Reconciled(pending, active) == active
    ensures pending == [] ==> !IsSet(Reconciled(pending, active))
    ensures Reconciled(pending, Reconciled(pending, active)) == Reconciled(pending, active)
  {
  }

  /** After a decision clears the active id, the head of the queue is
      prompted next. */
  lemma NextHeadAfterDecision(pending: seq<Id>)
    ensures Reconciled(pending, None) == if pending == [] then None else Some(pending[0])
  {
  }

  /** `activeTask`: the first task whose id is the active id. */
  function ActiveTask(ts: seq<Task>, active: Option<Id>): (r: Option<Task>)
    ensures r.Some? <==> active.Some? && active.value in Ids(ts)
    ensures r.Some? ==> r.value.id == active.value && r.value in ts
    ensures active.Some? ==> forall i ::
      (0 <= i < |ts| && ts[i].id == active.value && forall j :: 0 <= j < i ==> ts[j].id != active.value)
      ==> r == Some(ts[i])
  {
    if active.None? then None
    else
      var i := FindIndex(ts, active.value);
      if i == -1 then None else Some(ts[i])
  }

  /** The decisions the prompt offers: keep, downgrade unless already P4,
      someday, archive. */
  function AvailableActions(t: Task): (r: seq<Decision>)
    ensures Downgrade in r <==> t.urgency != P4
    ensures Keep in r && Someday in r && Archive in r && AutoArchived !in r
  {
    [Keep] + (if t.urgency != P4 then [Downgrade] else []) + [Someday, Archive]
  }

  /** Dismissing is offered only at the warning stage and records "keep". */
  function DismissAction(t: Task): (r: Option<Decision>)
    ensures r.Some? <==> t.realityCheckStage == Warning
    ensures r.Some? ==> r.value == Keep
  {
    if t.realityCheckStage == Warning then Some(Keep) else None
  }

  /** The pending-id effect at instant `now`. */
  method SyncPending(store: Store, now: Minute)
    modifies store
    ensures store.pendingRealityTaskIds == PendingIds(old(store.tasks), now)
    ensures store.tasks == old(store.tasks) && store.selectedTaskIds == old(store.selectedTaskIds)
    ensures store.activeRealityTaskId == old(store.activeRealityTaskId)
  {
    var pendingIds := PendingIds(store.tasks, now);
    store.SetPendingRealityTaskIds(pendingIds);
  }

  /** The active-prompt effect. */
  method ReconcileActive(store: Store)
    modifies store
    ensures store.activeRealityTaskId ==
            Reconciled(old(store.pendingRealityTaskIds), old(store.activeRealityTaskId))
    ensures store.tasks == old(store.tasks) && store.selectedTaskIds == old(store.selectedTaskIds)
    ensures store.pendingRealityTaskIds == old(store.pendingRealityTaskIds)
  {
    var pending := store.pendingRealityTaskIds;
    var active := store.activeRealityTaskId;
    if |pending| == 0 {
      if IsSet(active) {
        store.SetActiveRealityTaskId(None);
      }
      return;
    }
    if !IsSet(active) || active.value !in pending {
      store.SetActiveRealityTaskId(Some(pending[0]));
    }
  }

  /** `handleDecision`: without an active task nothing is sent. Otherwise
      the decision is sent for the active task; `reply` is the task the
      endpoint answers with, `None` when the request fails. On success the
      returned task is upserted and the active id cleared; on failure the
      prompt stays. The panel sends only the four user decisions. */
  method HandleDecision(store: Store, decision: Decision, reply: Option<Task>)
    returns (request: Option<(Id, Decision)>)
    requires decision != AutoArchived
    modifies store
    ensures var active := ActiveTask(old(store.tasks), old(store.activeRealityTaskId));
      && (request.Some? <==> active.Some?)
      && (request.Some? ==> request.value == (active.value.id, decision))
    ensures request.None? || reply.None? ==>
      store.tasks == old(store.tasks) && store.activeRealityTaskId == old(store.activeRealityTaskId)
    ensures request.Some? && reply.Some? ==>
      store.tasks == Upserted(old(store.tasks), reply.value) && store.activeRealityTaskId == None
    ensures store.selectedTaskIds == old(store.selectedTaskIds)
    ensures store.pendingRealityTaskIds == old(store.pendingRealityTaskIds)
  {
    var activeTask := ActiveTask(store.tasks, store.activeRealityTaskId);
    if activeTask.None? {
      return None;
    }
    request := Some((activeTask.value.id, decision));
    if reply.None? {
      return;
    }
    store.UpsertTask(reply.value);
    store.SetActiveRealityTaskId(None);
  }
}
