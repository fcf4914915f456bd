/** The client task store (lib/store/taskStore.ts): the task list, the
    selection and the queue of pending reality checks, with the list
    operations that replace them. Each operation is specified by a function
    of the old list, and the lemmas below state what those functions keep. */
module TaskStore {
  import opened Types

  /** The ids of a task list. */
  function Ids(ts: seq<Task>): set<Id> {
    set t | t in ts :: t.id
  }

  /** `findIndex` on the id: the first position holding a task with that id,
      or -1 when there is none. */
  function FindIndex(ts: seq<Task>, id: Id): (r: int)
    ensures -1 <= r < |ts|
    ensures r == -1 <==> id !in Ids(ts)
    ensures r >= 0 ==> ts[r].id == id && forall i :: 0 <= i < r ==> ts[i].id != id
  {
    if ts == [] then -1
    else if ts[0].id == id then 0
    else
      var k := FindIndex(ts[1..], id);
      assert Ids(ts) == {ts[0].id} + Ids(ts[1..]) by {
        assert ts == [ts[0]] + ts[1..];
      }
      if k == -1 then -1 else k + 1
  }

  /** The first position holding the id is the one `FindIndex` gives. */
  lemma FindIndexUnique(ts: seq<Task>, id: Id, i: int)
    requires 0 <= i < |ts| && ts[i].id == id
    requires forall j :: 0 <= j < i ==> ts[j].id != id
    ensures FindIndex(ts, id) == i
  {
    assert ts[i] in ts;
  }

  /** `upsertTask`: a task with a new id goes to the front, one with a known
      id replaces the first task with that id. */
  function Upserted(ts: seq<Task>, task: Task): seq<Task> {
    var i := FindIndex(ts, task.id);
    if i == -1 then [task] + ts else ts[i := task]
  }

  /** After an upsert the task is the first one with its id, the ids gained
      are exactly its id, and the list grew by one only if the id was new. */
  lemma UpsertedHolds(ts: seq<Task>, task: Task)
    ensures FindIndex(Upserted(ts, task), task.id) >= 0
    ensures Upserted(ts, task)[FindIndex(Upserted(ts, task), task.id)] == task
    ensures Ids(Upserted(ts, task)) == Ids(ts) + {task.id}
    ensures |Upserted(ts, task)| == if task.id in Ids(ts) then |ts| else |ts| + 1
    ensures task.id !in Ids(ts) ==> Upserted(ts, task) == [task] + ts
    ensures task.id in Ids(ts) ==>
      forall j :: 0 <= j < |ts| && j != FindIndex(ts, task.id) ==> Upserted(ts, task)[j] == ts[j]
  {
    var i := FindIndex(ts, task.id);
    var r := Upserted(ts, task);
    if i == -1 {
      assert r[0] == task;
      assert Ids(r) == Ids(ts) + {task.id} by {
        assert forall t :: t in r <==> t == task || t in ts;
      }
    } else {
      FindIndexUnique(r, task.id, i);
      ReplacedIds(ts, i, task);
    }
  }

  /** Replacing a task by one with the same id keeps the ids. */
  lemma ReplacedIds(ts: seq<Task>, i: nat, task: Task)
    requires i < |ts| && ts[i].id == task.id
    ensures Ids(ts[i := task]) == Ids(ts)
  {
    var r := ts[i := task];
    forall x | x in Ids(ts) ensures x in Ids(r) {
      var t :| t in ts && t.id == x;
      var j :| 0 <= j < |ts| && ts[j] == t;
      if j == i { assert r[j] == task; } else { assert r[j] == t; }
    }
    forall x | x in Ids(r) ensures x in Ids(ts) {
      var t :| t in r && t.id == x;
      var j :| 0 <= j < |r| && r[j] == t;
      if j != i { assert ts[j] == t; }
    }
  }

  /** Upserting the same task twice is upserting it once. */
  lemma UpsertIdempotent(ts: seq<Task>, task: Task)
    ensures Upserted(Upserted(ts, task), task) == Upserted(ts, task)
  {
    UpsertedHolds(ts, task);
  }

  /** The tasks whose id is not in `ids`, in their original order: `filter`
      with `!ids.includes(task.id)`. */
  function Drop(ts: seq<Task>, ids: seq<Id>): (r: seq<Task>)
    ensures |r| <= |ts|
  {
    if ts == [] then []
    else (if ts[0].id in ids then [] else [ts[0]]) + Drop(ts[1..], ids)
  }

  /** The survivors are exactly the tasks whose id is not given. */
  lemma {:induction false} DropMembers(ts: seq<Task>, ids: seq<Id>)
    ensures forall t :: t in Drop(ts, ids) <==> t in ts && t.id !in ids
  {
    if ts != [] {
      DropMembers(ts[1..], ids);
      assert ts == [ts[0]] + ts[1..];
    }
  }

  /** Dropping works piece by piece, so the survivors keep their relative
      order. */
  lemma {:induction false} DropAppend(a: seq<Task>, b: seq<Task>, ids: seq<Id>)
    ensures Drop(a + b, ids) == Drop(a, ids) + Drop(b, ids)
  {
    if a == [] {
      assert a + b == b;
    } else {
      DropAppend(a[1..], b, ids);
      assert (a + b)[0] == a[0];
      assert (a + b)[1..] == a[1..] + b;
      var head := if a[0].id in ids then [] else [a[0]];
      calc {
        Drop(a + b, ids);
        head + Drop(a[1..] + b, ids);
        head + (Drop(a[1..], ids) + Drop(b, ids));
        (head + Drop(a[1..], ids)) + Drop(b, ids);
      }
    }
  }

  /** A list with none of the ids loses nothing. */
  lemma {:induction false} DropNothing(ts: seq<Task>, ids: seq<Id>)
    requires forall t :: t in ts ==> t.id !in ids
    ensures Drop(ts, ids) == ts
  {
    if ts != [] {
      DropNothing(ts[1..], ids);
      assert ts == [ts[0]] + ts[1..];
    }
  }

  /** `removeTask`: no task with that id remains, every other task does. */
  function Removed(ts: seq<Task>, id: Id): (r: seq<Task>)
    ensures id !in Ids(r)
    ensures forall t :: t in r <==> t in ts && t.id != id
  {
    DropMembers(ts, [id]);
    Drop(ts, [id])
  }

  /** `mutateTask`: the first task with that id replaced by what the updater
      makes of it; an unknown id changes nothing. */
  function Mutated(ts: seq<Task>, id: Id, updater: Task -> Task): seq<Task> {
    var i := FindIndex(ts, id);
    if i == -1 then ts else ts[i := updater(ts[i])]
  }

  lemma MutatedOnlyThere(ts: seq<Task>, id: Id, updater: Task -> Task)
    ensures id !in Ids(ts) ==> Mutated(ts, id, updater) == ts
    ensures |Mutated(ts, id, updater)| == |ts|
    ensures forall j :: 0 <= j < |ts| && ts[j].id != id ==> Mutated(ts, id, updater)[j] == ts[j]
    ensures forall j :: 0 <= j < |ts| && j != FindIndex(ts, id) ==> Mutated(ts, id, updater)[j] == ts[j]
    ensures id in Ids(ts) ==>
      Mutated(ts, id, updater)[FindIndex(ts, id)] == updater(ts[FindIndex(ts, id)])
  {
  }

  /** `toggleTaskSelection`. */
  function Toggled(selection: set<Id>, id: Id): (r: set<Id>)
    ensures id in r <==> id !in selection
    ensures forall x :: x != id ==> (x in r <==> x in selection)
  {
    if id in selection then selection - {id} else selection + {id}
  }

  /** Toggling twice restores the selection. */
  lemma ToggleTwice(selection: set<Id>, id: Id)
    ensures Toggled(Toggled(selection, id), id) == selection
  {
  }

  /** The last task with that id: `new Map(tasks.map(t => [t.id, t]))` keeps
      the latest entry for a repeated key. */
  function LastWithId(ts: seq<Task>, id: Id): (r: Option<Task>)
    ensures r.Some? ==> r.value in ts && r.value.id == id
    ensures r.None? <==> id !in Ids(ts)
    ensures forall i :: 0 <= i < |ts| && ts[i].id == id && (forall j :: i < j < |ts| ==> ts[j].id != id) ==>
      r == Some(ts[i])
  {
    if ts == [] then None
    else if ts[|ts| - 1].id == id then Some(ts[|ts| - 1])
    else
      assert Ids(ts) == Ids(ts[..|ts| - 1]) + {ts[|ts| - 1].id} by {
        assert ts == ts[..|ts| - 1] + [ts[|ts| - 1]];
      }
      LastWithId(ts[..|ts| - 1], id)
  }

  /** A task placed at position `i` of the ordering: its sort order is `i`
      and it is the stored task with that id. */
  predicate PlacedFrom(t: Task, ts: seq<Task>, ids: seq<Id>) {
    t.sortOrder.Some? && 0 <= t.sortOrder.value < |ids| && ids[t.sortOrder.value] == t.id &&
    LastWithId(ts, t.id).Some? && t == LastWithId(ts, t.id).value.(sortOrder := t.sortOrder)
  }

  function Position(t: Task): int {
    if t.sortOrder.Some? then t.sortOrder.value else -1
  }

  /** The first part of `reorderTasks`: for each ordered id that names a
      task, that task with its sort order set to the id's index; the others
      are dropped. */
  function Placed(ts: seq<Task>, ids: seq<Id>): (r: seq<Task>)
    ensures |r| <= |ids|
    ensures forall k :: 0 <= k < |r| ==> PlacedFrom(r[k], ts, ids)
    ensures forall k, l :: 0 <= k < l < |r| ==> Position(r[k]) < Position(r[l])
  {
    if ids == [] then []
    else
      var front := Placed(ts, ids[..|ids| - 1]);
      var i := |ids| - 1;
      assert forall k :: 0 <= k < |front| ==> PlacedFrom(front[k], ts, ids) by {
        forall k | 0 <= k < |front| ensures PlacedFrom(front[k], ts, ids) {
          assert PlacedFrom(front[k], ts, ids[..i]);
        }
      }
      match LastWithId(ts, ids[i])
      case None => front
      case Some(t) => front + [t.(sortOrder := Some(i))]
  }

  /** Every ordered id that names a task is placed, at its own index. */
  lemma {:induction false} PlacedComplete(ts: seq<Task>, ids: seq<Id>, i: nat)
    requires i < |ids| && ids[i] in Ids(ts)
    ensures exists k :: 0 <= k < |Placed(ts, ids)| && Position(Placed(ts, ids)[k]) == i
  {
    var n := |ids| - 1;
    var front := Placed(ts, ids[..n]);
    var r := Placed(ts, ids);
    PlacedStep(ts, ids);
    if i == n {
      assert Position(r[|r| - 1]) == i;
    } else {
      PlacedComplete(ts, ids[..n], i);
      var k :| 0 <= k < |front| && Position(front[k]) == i;
      assert r[k] == front[k];
    }
  }

  /** One more ordered id places one more task when it names a task. */
  lemma PlacedStep(ts: seq<Task>, ids: seq<Id>)
    requires ids != []
    ensures var n := |ids| - 1;
      Placed(ts, ids) ==
        Placed(ts, ids[..n]) +
        (if LastWithId(ts, ids[n]).Some? then [LastWithId(ts, ids[n]).value.(sortOrder := Some(n))] else [])
  {
  }

  /** `reorderTasks`: the placed tasks in the given order, then every task
      whose id was not given, in its original order. */
  function Reordered(ts: seq<Task>, ids: seq<Id>): seq<Task> {
    Placed(ts, ids) + Drop(ts, ids)
  }

  lemma IdsAppend(a: seq<Task>, b: seq<Task>)
    ensures Ids(a + b) == Ids(a) + Ids(b)
  {
    assert forall t :: t in a + b <==> t in a || t in b;
  }

  /** The placed ids are the given ids that name a task. */
  lemma PlacedIds(ts: seq<Task>, ids: seq<Id>)
    ensures Ids(Placed(ts, ids)) == Ids(ts) * set x | x in ids
  {
    var p := Placed(ts, ids);
    forall x | x in Ids(p) ensures x in Ids(ts) && x in ids {
      var t :| t in p && t.id == x;
      var k :| 0 <= k < |p| && p[k] == t;
      assert PlacedFrom(p[k], ts, ids);
    }
    forall x | x in Ids(ts) && x in ids ensures x in Ids(p) {
      var i :| 0 <= i < |ids| && ids[i] == x;
      PlacedComplete(ts, ids, i);
      var k :| 0 <= k < |p| && Position(p[k]) == i;
      assert PlacedFrom(p[k], ts, ids);
      assert p[k] in p;
    }
  }

  /** Reordering neither loses an id nor invents one. */
  lemma ReorderedIds(ts: seq<Task>, ids: seq<Id>)
    ensures Ids(Reordered(ts, ids)) == Ids(ts)
  {
    var d := Drop(ts, ids);
    IdsAppend(Placed(ts, ids), d);
    PlacedIds(ts, ids);
    DropMembers(ts, ids);
    assert Ids(d) == Ids(ts) - set x | x in ids by {
      forall x | x in Ids(ts) && x !in ids ensures x in Ids(d) {
        var t :| t in ts && t.id == x;
        assert t in d;
      }
    }
  }

  /** An empty ordering leaves the list as it is. */
  lemma ReorderedOfNone(ts: seq<Task>)
    ensures Reordered(ts, []) == ts
  {
    DropNothing(ts, []);
  }

  /** `shiftRealityQueue`: the queue without its head; an empty queue stays
      empty. */
  function Shifted(queue: seq<Id>): (r: seq<Id>)
    ensures queue != [] ==> [queue[0]] + r == queue
    ensures queue == [] ==> r == []
  {
    if queue == [] then [] else queue[1..]
  }

  /** The store state and the operations that replace it. */
  class Store {
    var tasks: seq<Task>
    var selectedTaskIds: set<Id>
    var pendingRealityTaskIds: seq<Id>
    var activeRealityTaskId: Option<Id>

    constructor ()
      ensures tasks == [] && selectedTaskIds == {} && pendingRealityTaskIds == []
      ensures activeRealityTaskId == None
    {
      tasks := [];
      selectedTaskIds := {};
      pendingRealityTaskIds := [];
      activeRealityTaskId := None;
    }

    method SetTasks(ts: seq<Task>)
      modifies this
      ensures tasks == ts
      ensures selectedTaskIds == old(selectedTaskIds)
      ensures pendingRealityTaskIds == old(pendingRealityTaskIds)
      ensures activeRealityTaskId == old(activeRealityTaskId)
    {
      tasks := ts;
    }

    method UpsertTask(task: Task)
      modifies this
      ensures tasks == Upserted(old(tasks), task)
      ensures selectedTaskIds == old(selectedTaskIds)
      ensures pendingRealityTaskIds == old(pendingRealityTaskIds)
      ensures activeRealityTaskId == old(activeRealityTaskId)
    {
      var existingIndex := FindIndex(tasks, task.id);
      if existingIndex == -1 {
        tasks := [task] + tasks;
      } else {
        var nextTasks := tasks;
        nextTasks := nextTasks[existingIndex := task];
        tasks := nextTasks;
      }
    }

    method RemoveTask(id: Id)
      modifies this
      ensures tasks == Removed(old(tasks), id)
      ensures selectedTaskIds == old(selectedTaskIds)
      ensures pendingRealityTaskIds == old(pendingRealityTaskIds)
      ensures activeRealityTaskId == old(activeRealityTaskId)
    {
      tasks := Drop(tasks, [id]);
    }

    method MutateTask(id: Id, updater: Task -> Task)
      modifies this
      ensures tasks == Mutated(old(tasks), id, updater)
      ensures selectedTaskIds == old(selectedTaskIds)
      ensures pendingRealityTaskIds == old(pendingRealityTaskIds)
      ensures activeRealityTaskId == old(activeRealityTaskId)
    {
      var index := FindIndex(tasks, id);
      if index == -1 {
        return;
      }
      var nextTasks := tasks;
      var original := nextTasks[index];
      var updatedTask := updater(original);
      nextTasks := nextTasks[index := updatedTask];
      tasks := nextTasks;
    }

    method ToggleTaskSelection(id: Id)
      modifies this
      ensures selectedTaskIds == Toggled(old(selectedTaskIds), id)
      ensures tasks == old(tasks)
      ensures pendingRealityTaskIds == old(pendingRealityTaskIds)
      ensures activeRealityTaskId == old(activeRealityTaskId)
    {
      var next := selectedTaskIds;
      if id in next {
        next := next - {id};
      } else {
        next := next + {id};
      }
      selectedTaskIds := next;
    }

    method ClearSelection()
      modifies this
      ensures selectedTaskIds == {}
      ensures tasks == old(tasks)
      ensures pendingRealityTaskIds == old(pendingRealityTaskIds)
      ensures activeRealityTaskId == old(activeRealityTaskId)
    {
      selectedTaskIds := {};
    }

    method SelectAll(ids: seq<Id>)
      modifies this
      ensures forall x :: x in selectedTaskIds <==> x in ids
      ensures tasks == old(tasks)
      ensures pendingRealityTaskIds == old(pendingRealityTaskIds)
      ensures activeRealityTaskId == old(activeRealityTaskId)
    {
      selectedTaskIds := set x | x in ids;
    }

    method ReorderTasks(orderedIds: seq<Id>)
      modifies this
      ensures tasks == Reordered(old(tasks), orderedIds)
      ensures selectedTaskIds == old(selectedTaskIds)
      ensures pendingRealityTaskIds == old(pendingRealityTaskIds)
      ensures activeRealityTaskId == old(activeRealityTaskId)
    {
      var reordered := Placed(tasks, orderedIds);
      var untouched := Drop(tasks, orderedIds);
      tasks := reordered + untouched;
    }

    method SetPendingRealityTaskIds(ids: seq<Id>)
      modifies this
      ensures pendingRealityTaskIds == ids
      ensures tasks == old(tasks) && selectedTaskIds == old(selectedTaskIds)
      ensures activeRealityTaskId == old(activeRealityTaskId)
    {
      pendingRealityTaskIds := ids;
    }

    method ShiftRealityQueue()
      modifies this
      ensures pendingRealityTaskIds == Shifted(old(pendingRealityTaskIds))
      ensures tasks == old(tasks) && selectedTaskIds == old(selectedTaskIds)
      ensures activeRealityTaskId == old(activeRealityTaskId)
    {
      if pendingRealityTaskIds != [] {
        pendingRealityTaskIds := pendingRealityTaskIds[1..];
      }
    }

    method SetActiveRealityTaskId(id: Option<Id>)
      modifies this
      ensures activeRealityTaskId == id
      ensures tasks == old(tasks) && selectedTaskIds == old(selectedTaskIds)
      ensures pendingRealityTaskIds == old(pendingRealityTaskIds)
    {
      activeRealityTaskId := id;
    }
  }
}
