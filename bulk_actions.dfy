/** The bulk action bar (components/tasks/controls/BulkActionsBar.tsx): one
    patch sent for every selected task, the selection cleared when all of
    them succeed, and the batch capacity rule for a priority change. */
module BulkActions {
  import opened Types
  import opened TaskStore
  import opened PriorityHelpers
  import opened DateHelpers

  // ------------------------------------------------------------ patches

  /** "Complete": status completed, completed at `now`. */
  function CompletePatch(now: Minute): TaskPatch {
    EmptyPatch.(status := Some(Completed), completedAt := Some(Some(now)))
  }

  /** "Move to Someday": parked, waiting, no due date. */
  function SomedayPatch(): TaskPatch {
    EmptyPatch.(someday := Some(true), status := Some(Waiting), dueDate := Some(None))
  }

  /** A reschedule to `due`: open again, not parked, one more reschedule
      than the task with that id in the list has (1 for an unknown id). */
  function ReschedulePatch(ts: seq<Task>, id: Id, due: Day, now: Minute): TaskPatch {
    var i := FindIndex(ts, id);
    var previous := if i == -1 then 0 else ts[i].rescheduleCount;
    EmptyPatch.(dueDate := Some(Some(due)), rescheduleCount := Some(previous + 1),
                lastRescheduledAt := Some(Some(now)), status := Some(Open),
                someday := Some(false))
  }

  /** A priority change. */
  function PriorityPatch(p: Priority): TaskPatch {
    EmptyPatch.(urgency := Some(p))
  }

  /** Moving to someday parks any task and changes nothing else about it
      but its status and due date. */
  lemma SomedayPatchParks(t: Task)
    ensures var r := Patched(t, SomedayPatch());
      && r.someday && r.status == Waiting && r.dueDate.None? && Parked(r)
      && r.id == t.id && r.title == t.title && r.urgency == t.urgency
      && r.rescheduleCount == t.rescheduleCount
  {
  }

  /** A reschedule unparks the task, opens it at the new date, and counts
      one more reschedule for the task found under its id. */
  lemma ReschedulePatchUnparks(ts: seq<Task>, i: nat, due: Day, now: Minute)
    requires i < |ts| && forall j :: 0 <= j < i ==> ts[j].id != ts[i].id
    ensures var r := Patched(ts[i], ReschedulePatch(ts, ts[i].id, due, now));
      && !r.someday && r.status == Open && r.dueDate == Some(due) && Parked(r)
      && r.rescheduleCount == ts[i].rescheduleCount + 1
      && r.lastRescheduledAt == Some(now) && r.id == ts[i].id
  {
    FindIndexUnique(ts, ts[i].id, i);
  }

  /** An unknown id is rescheduled for the first time. */
  lemma ReschedulePatchUnknown(ts: seq<Task>, id: Id, due: Day, now: Minute)
    requires id !in Ids(ts)
    ensures ReschedulePatch(ts, id, due, now).rescheduleCount == Some(1)
  {
  }

  /** A priority change keeps the parking rule; completing keeps it
      exactly for tasks that are not parked. */
  lemma PatchesAndParking(t: Task, p: Priority, now: Minute)
    ensures Parked(t) ==> Parked(Patched(t, PriorityPatch(p)))
    ensures Patched(t, PriorityPatch(p)).urgency == p
    ensures Parked(Patched(t, CompletePatch(now))) <==> !t.someday
  {
  }

  // ------------------------------------------------------- batch capacity

  /** The batch capacity rule of `changePriority`: a capped target admits
      the batch only if its open tasks plus the selection fit the limit. */
  predicate BatchFits(ts: seq<Task>, p: Priority, selectedCount: nat) {
    PriorityLimit(p).None? || CountOpenAt(ts, p, Open) + selectedCount <= PriorityLimit(p).value
  }

  /** The list after every selected task has been moved to priority `p`. */
  function Retargeted(ts: seq<Task>, selection: set<Id>, p: Priority): (r: seq<Task>)
    ensures |r| == |ts|
    ensures forall j :: 0 <= j < |ts| ==>
      r[j] == if ts[j].id in selection then Patched(ts[j], PriorityPatch(p)) else ts[j]
  {
    seq(|ts|, j requires 0 <= j < |ts| =>
          if ts[j].id in selection then Patched(ts[j], PriorityPatch(p)) else ts[j])
  }

  /** How many tasks of the list are selected. */
  function CountIn(ts: seq<Task>, selection: set<Id>): nat {
    if ts == [] then 0
    else CountIn(ts[..|ts| - 1], selection) + (if ts[|ts| - 1].id in selection then 1 else 0)
  }

  predicate DistinctIds(ts: seq<Task>) {
    forall i, j :: 0 <= i < j < |ts| ==> ts[i].id != ts[j].id
  }

  /** Moving the selection to `p` adds at most one open task at `p` per
      selected task. */
  lemma {:induction false} RetargetedCount(ts: seq<Task>, selection: set<Id>, p: Priority)
    ensures CountOpenAt(Retargeted(ts, selection, p), p, Open) <= CountOpenAt(ts, p, Open) + CountIn(ts, selection)
  {
    if ts != [] {
      var front := ts[..|ts| - 1];
      RetargetedCount(front, selection, p);
      assert Retargeted(ts, selection, p)[..|ts| - 1] == Retargeted(front, selection, p);
    }
  }

  /** With distinct ids, the selected tasks are no more than the
      selection. */
  lemma {:induction false} CountInBound(ts: seq<Task>, selection: set<Id>)
    requires DistinctIds(ts)
    ensures CountIn(ts, selection) == |Ids(ts) * selection|
  {
    if ts != [] {
      var front := ts[..|ts| - 1];
      var last := ts[|ts| - 1];
      assert DistinctIds(front);
      CountInBound(front, selection);
      LastIdFresh(ts);
      IdsSnoc(ts);
      MeetFresh(Ids(front), last.id, selection);
      assert CountIn(ts, selection) == CountIn(front, selection) + if last.id in selection then 1 else 0;
    }
  }

  lemma IdsSnoc(ts: seq<Task>)
    requires ts != []
    ensures Ids(ts) == Ids(ts[..|ts| - 1]) + {ts[|ts| - 1].id}
  {
    var front, last := ts[..|ts| - 1], ts[|ts| - 1];
    assert ts == front + [last];
    IdsAppend(front, [last]);
    assert Ids([last]) == {last.id};
  }

  lemma MeetFresh<T>(a: set<T>, x: T, b: set<T>)
    requires x !in a
    ensures |(a + {x}) * b| == |a * b| + if x in b then 1 else 0
  {
    if x in b {
      assert (a + {x}) * b == a * b + {x};
    } else {
      assert (a + {x}) * b == a * b;
    }
  }

  /** With distinct ids, the last task's id is not among the others. */
  lemma LastIdFresh(ts: seq<Task>)
    requires ts != [] && DistinctIds(ts)
    ensures ts[|ts| - 1].id !in Ids(ts[..|ts| - 1])
  {
  }

  /** A batch the rule admits never takes a capped priority past its limit
      (over tasks with distinct ids). */
  lemma BatchFitsKeepsCap(ts: seq<Task>, selection: set<Id>, p: Priority)
    requires DistinctIds(ts) && PriorityLimit(p).Some?
    requires BatchFits(ts, p, |selection|)
    ensures CountOpenAt(Retargeted(ts, selection, p), p, Open) <= PriorityLimit(p).value
  {
    RetargetedCount(ts, selection, p);
    CountInBound(ts, selection);
    assert Ids(ts) * selection <= selection;
    SubsetCard(Ids(ts) * selection, selection);
  }

  lemma SubsetCard<T>(a: set<T>, b: set<T>)
    requires a <= b
    ensures |a| <= |b|
  {
    assert b == a + (b - a);
  }

  /** P4 batches always fit. */
  lemma UncappedBatchFits(ts: seq<Task>, n: nat)
    ensures BatchFits(ts, P4, n)
  {
  }

  /** The rule counts selected tasks already open at the target twice: a
      batch made only of such tasks leaves the count unchanged, and is
      still refused when that count plus the selection exceeds the limit. */
  lemma {:induction false} SelectedAtTargetCountedTwice(ts: seq<Task>, selection: set<Id>, p: Priority)
    requires forall j :: 0 <= j < |ts| && ts[j].id in selection ==> ts[j].status == Open && ts[j].urgency == p
    ensures Retargeted(ts, selection, p) == ts
    ensures PriorityLimit(p).Some? && CountOpenAt(ts, p, Open) <= PriorityLimit(p).value <
            CountOpenAt(ts, p, Open) + |selection| ==>
            !BatchFits(ts, p, |selection|) &&
            CountOpenAt(Retargeted(ts, selection, p), p, Open) <= PriorityLimit(p).value
  {
    var r := Retargeted(ts, selection, p);
    forall j | 0 <= j < |ts| ensures r[j] == ts[j] {
      if ts[j].id in selection {
        assert Patched(ts[j], PriorityPatch(p)) == ts[j];
      }
    }
  }

  // ------------------------------------------------------------ the bar

  /** The request log after one more request, for a fresh id. */
  lemma SentLog(base: seq<Update>, before: seq<Update>, after: seq<Update>, issued: set<Id>, id: Id,
                updates: Id -> TaskPatch)
    requires |base| <= |before| && before[..|base|] == base
    requires forall u :: u in before[|base|..] <==> u.id in issued && u.patch == updates(u.id)
    requires after == before + [Update(id, updates(id))]
    ensures |after| == |before| + 1 && after[..|base|] == base
    ensures forall u :: u in after[|base|..] <==> u.id in issued + {id} && u.patch == updates(u.id)
  {
    assert after[|base|..] == before[|base|..] + [Update(id, updates(id))];
  }

  /** The bar's own state, over the shared store; `sent` is the log of the
      update requests it has issued. */
  class BulkActionsBar {
    const store: Store
    var isProcessing: bool
    var isDateDialogOpen: bool
    var sent: seq<Update>

    constructor (store: Store)
      ensures this.store == store && !isProcessing && !isDateDialogOpen && sent == []
    {
      this.store := store;
      isProcessing := false;
      isDateDialogOpen := false;
      sent := [];
    }

    /** What `performBulkUpdate` leaves behind: one request per selected id
      with that id's patch, the selection cleared exactly when none failed,
      the processing flag down, and nothing else changed. */
    twostate predicate BulkDone(ok: bool, updates: Id -> TaskPatch, fails: set<Id>)
      reads this, store
    {
      var selection := old(store.selectedTaskIds);
      var before := old(sent);
      && (ok <==> selection * fails == {})
      && store.selectedTaskIds == (if ok then {} else selection)
      && store.tasks == old(store.tasks)
      && store.pendingRealityTaskIds == old(store.pendingRealityTaskIds)
      && store.activeRealityTaskId == old(store.activeRealityTaskId)
      && !isProcessing
      && |sent| == |before| + |selection| && sent[..|before|] == before
      && (forall u :: u in sent[|before|..] <==> u.id in selection && u.patch == updates(u.id))
    }

    /** `performBulkUpdate`: the requests go out one per selected id (in an
      order the model leaves open); a request for an id in `fails` is
      rejected. */
    method PerformBulkUpdate(updates: Id -> TaskPatch, fails: set<Id>) returns (ok: bool)
      modifies this, store
      ensures BulkDone(ok, updates, fails)
      ensures isDateDialogOpen == old(isDateDialogOpen)
    {
      isProcessing := true;
      var remaining := store.selectedTaskIds;
      var failed := false;
      ghost var issued: set<Id> := {};
      while remaining != {}
        invariant remaining + issued == old(store.selectedTaskIds) && remaining * issued == {}
        invariant |sent| == |old(sent)| + |issued| && sent[..|old(sent)|] == old(sent)
        invariant forall u :: u in sent[|old(sent)|..] <==> u.id in issued && u.patch == updates(u.id)
        invariant failed <==> issued * fails != {}
        invariant unchanged(store) && isDateDialogOpen == old(isDateDialogOpen)
        decreases |remaining|
      {
        var id :| id in remaining;
        ghost var before := sent;
        Send(Update(id, updates(id)));
        SentLog(old(sent), before, sent, issued, id, updates);
        IssueStep(remaining, issued, id, fails);
        if id in fails {
          failed := true;
        }
        remaining := remaining - {id};
        issued := issued + {id};
      }
      if !failed {
        store.ClearSelection();
      }
      isProcessing := false;
      ok := !failed;
    }

    /** Moving one id from the remaining set to the issued set keeps the
        two a partition, and it fails the batch exactly when it fails. */
    static lemma IssueStep(remaining: set<Id>, issued: set<Id>, id: Id, fails: set<Id>)
      requires id in remaining && remaining * issued == {}
      ensures (remaining - {id}) + (issued + {id}) == remaining + issued
      ensures (remaining - {id}) * (issued + {id}) == {}
      ensures |issued + {id}| == |issued| + 1
      ensures (issued + {id}) * fails != {} <==> issued * fails != {} || id in fails
    {
      assert id !in issued;
      if id in fails {
        assert id in (issued + {id}) * fails;
      }
    }

    /** Issue one update request. */
    method Send(u: Update)
      modifies this
      ensures sent == old(sent) + [u]
      ensures isProcessing == old(isProcessing) && isDateDialogOpen == old(isDateDialogOpen)
    {
      sent := sent + [u];
    }

    method CompleteTasks(now: Minute, fails: set<Id>) returns (ok: bool)
      modifies this, store
      ensures BulkDone(ok, _ => CompletePatch(now), fails)
      ensures isDateDialogOpen == old(isDateDialogOpen)
    {
      ok := PerformBulkUpdate(_ => CompletePatch(now), fails);
    }

    method MoveToSomeday(fails: set<Id>) returns (ok: bool)
      modifies this, store
      ensures BulkDone(ok, _ => SomedayPatch(), fails)
      ensures isDateDialogOpen == old(isDateDialogOpen)
    {
      ok := PerformBulkUpdate(_ => SomedayPatch(), fails);
    }

    /** "Tomorrow": every selected task rescheduled to the day after today. */
    method RescheduleTomorrow(now: Minute, fails: set<Id>) returns (ok: bool)
      modifies this, store
      ensures var tasks := old(store.tasks);
              BulkDone(ok, id => ReschedulePatch(tasks, id, Tomorrow(now), now), fails)
      ensures isDateDialogOpen == old(isDateDialogOpen)
    {
      var tasks := store.tasks;
      ok := PerformBulkUpdate(id => ReschedulePatch(tasks, id, Tomorrow(now), now), fails);
    }

    /** `changePriority`: refused with nothing sent when the batch does not
      fit, otherwise the priority patch for every selected task. */
    method ChangePriority(p: Priority, fails: set<Id>) returns (refused: bool, ok: bool)
      modifies this, store
      ensures refused <==> !BatchFits(old(store.tasks), p, |old(store.selectedTaskIds)|)
      ensures refused ==> !ok && unchanged(this) && unchanged(store)
      ensures !refused ==> BulkDone(ok, _ => PriorityPatch(p), fails)
      ensures isDateDialogOpen == old(isDateDialogOpen)
    {
      var limit := PriorityLimit(p);
      if limit.Some? {
        var openAtPriority := CountOpenAt(store.tasks, p, Open);
        if openAtPriority + |store.selectedTaskIds| > limit.value {
          return true, false;
        }
      }
      refused := false;
      ok := PerformBulkUpdate(_ => PriorityPatch(p), fails);
    }

    /** `rescheduleToDate`: an empty date is rejected with nothing sent;
      otherwise every selected task is rescheduled to it and the dialog
      closes, whether or not the requests succeeded. */
    method RescheduleToDate(customDate: Option<Day>, now: Minute, fails: set<Id>)
      returns (rejected: bool, ok: bool)
      modifies this, store
      ensures rejected <==> customDate.None?
      ensures rejected ==> !ok && unchanged(this) && unchanged(store)
      ensures !rejected ==>
        var tasks := old(store.tasks);
        BulkDone(ok, id => ReschedulePatch(tasks, id, customDate.value, now), fails) &&
        !isDateDialogOpen
    {
      if customDate.None? {
        return true, false;
      }
      rejected := false;
      var tasks := store.tasks;
      ok := PerformBulkUpdate(id => ReschedulePatch(tasks, id, customDate.value, now), fails);
      isDateDialogOpen := false;
    }
  }
}
