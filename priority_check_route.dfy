/** The priority usage probe (app/api/priority-check/route.ts): for one
    priority, how many open tasks use it, whether one more is allowed, the
    cap, and the earliest-due open tasks at that priority. */
module PriorityCheckRoute {
  import opened Types
  import opened StatusUtil
  import opened Mappers
  import opened PriorityHelpers
  import opened TasksRoute

  /** The listing query's `limit(25)`. */
  const ListLimit: nat := 25

  datatype CheckResponse =
    | InvalidPriority
    | CheckFailed
    | Probe(allowed: bool, current: nat, limit: Option<nat>, tasksAtPriority: seq<Task>)

  /** The open rows at priority `p`, in table order. */
  function OpenAt(rows: seq<TaskRow>, p: Priority): (r: seq<TaskRow>)
    ensures forall row :: row in r <==> row in rows && row.status == "open" && row.urgency == p
    ensures |r| == CountOpenAt(rows, p, "open")
  {
    if rows == [] then []
    else
      var last := rows[|rows| - 1];
      assert rows == rows[..|rows| - 1] + [last];
      OpenAt(rows[..|rows| - 1], p) + (if last.status == "open" && last.urgency == p then [last] else [])
  }

  /** `order("due_date", { ascending: true })`: earlier dates first, rows
      without a due date last. */
  predicate DueLe(a: TaskRow, b: TaskRow) {
    b.dueDate.None? || (a.dueDate.Some? && a.dueDate.value <= b.dueDate.value)
  }

  predicate SortedByDue(s: seq<TaskRow>) {
    forall i, j :: 0 <= i < j < |s| ==> DueLe(s[i], s[j])
  }

  function InsertByDue(x: TaskRow, s: seq<TaskRow>): (r: seq<TaskRow>)
    requires SortedByDue(s)
    ensures SortedByDue(r)
    ensures multiset(r) == multiset(s) + multiset{x}
  {
    if s == [] then [x]
    else if DueLe(x, s[0]) then
      SortedCons(x, s);
      [x] + s
    else
      var rest := InsertByDue(x, s[1..]);
      assert s == [s[0]] + s[1..];
      forall j | 0 <= j < |rest| ensures DueLe(s[0], rest[j]) {
        var y := rest[j];
        assert y in multiset(s[1..]) + multiset{x} by {
          assert y in multiset(rest);
        }
        if y == x {
          assert DueLe(s[0], x);
        } else {
          assert y in s[1..];
          var k :| 0 <= k < |s[1..]| && s[1..][k] == y;
          assert s[k + 1] == y;
        }
      }
      SortedCons(s[0], rest);
      [s[0]] + rest
  }

  /** A row due no later than every row of a sorted list can go in front. */
  lemma SortedCons(a: TaskRow, t: seq<TaskRow>)
    requires SortedByDue(t)
    requires forall j :: 0 <= j < |t| ==> DueLe(a, t[j])
    ensures SortedByDue([a] + t)
  {
    var r := [a] + t;
    forall i, j | 0 <= i < j < |r| ensures DueLe(r[i], r[j]) {
      if i == 0 {
        assert r[j] == t[j - 1];
      } else {
        assert r[i] == t[i - 1] && r[j] == t[j - 1];
      }
    }
  }

  /** The rows in due-date order (ties in an order the database is free to
      choose; this model keeps one of them). */
  function SortByDue(s: seq<TaskRow>): (r: seq<TaskRow>)
    ensures SortedByDue(r)
    ensures multiset(r) == multiset(s)
  {
    if s == [] then []
    else
      assert s == [s[0]] + s[1..];
      InsertByDue(s[0], SortByDue(s[1..]))
  }

  /** The rows the listing query returns. */
  function Listing(rows: seq<TaskRow>, p: Priority): seq<TaskRow> {
    var sorted := SortByDue(OpenAt(rows, p));
    if |sorted| <= ListLimit then sorted else sorted[..ListLimit]
  }

  /** `GET /api/priority-check?priority=…` over the table `rows`; either
      query may fail. */
  function CheckPriority(param: Option<string>, rows: seq<TaskRow>, countFails: bool,
                         listFails: bool): (r: CheckResponse)
    ensures r == InvalidPriority <==> param.None? || PriorityNamed(param.value).None?
    ensures r == CheckFailed <==> r != InvalidPriority && (countFails || listFails)
    ensures r.Probe? ==>
      var p := PriorityNamed(param.value).value;
      && r.current == CountOpenAt(rows, p, "open")
      && r.limit == PriorityLimit(p)
      && r.tasksAtPriority == ToTasks(Listing(rows, p))
  {
    if param.None? || PriorityNamed(param.value).None? then InvalidPriority
    else
      var p := PriorityNamed(param.value).value;
      var limit := PriorityLimit(p);
      if countFails || listFails then CheckFailed
      else
        var current := CountOpenAt(rows, p, "open");
        Probe(limit.None? || current < limit.value, current, limit, ToTasks(Listing(rows, p)))
  }

  /** `allowed` is the answer `canAddTaskAtPriority` gives on the same rows,
      and it holds exactly when an unforced creation at that priority
      would pass the capacity check. */
  lemma AllowedAgreesWithAdmission(param: string, rows: seq<TaskRow>)
    requires PriorityNamed(param).Some?
    requires forall j :: 0 <= j < |rows| ==> StatusNamed(rows[j].status).Some?
    ensures var r := CheckPriority(Some(param), rows, false, false);
            var p := PriorityNamed(param).value;
            && (r.allowed <==> CanAddTaskAtPriority(p, GetPriorityUsage(ToTasks(rows))))
            && (r.allowed <==> !AtCapacity(p, None, r.current))
            && (r.limit.None? <==> p == P4)
  {
    var p := PriorityNamed(param).value;
    var r := CheckPriority(Some(param), rows, false, false);
    assert r.Probe? && r.current == CountOpenAt(rows, p, "open") && r.limit == PriorityLimit(p);
    CapacityAgreesWithClient(rows, p);
  }

  /** A sorted sequence cut anywhere: the front is sorted and every row of
      the front is due no later than every row of the back. */
  lemma SortedCut(sorted: seq<TaskRow>, cut: nat)
    requires SortedByDue(sorted) && cut <= |sorted|
    ensures SortedByDue(sorted[..cut])
    ensures forall a, b :: a in sorted[..cut] && b in sorted[cut..] ==> DueLe(a, b)
  {
    forall a, b | a in sorted[..cut] && b in sorted[cut..] ensures DueLe(a, b) {
      var i :| 0 <= i < cut && sorted[..cut][i] == a;
      var j :| 0 <= j < |sorted| - cut && sorted[cut..][j] == b;
      assert sorted[i] == a && sorted[cut + j] == b;
    }
  }

  /** A prefix of a sorted rearrangement of `candidates` is sorted, holds
      only candidates, and is due no later than every candidate it leaves
      out. */
  lemma SortedPrefixIsEarliest(sorted: seq<TaskRow>, candidates: seq<TaskRow>, cut: nat)
    requires SortedByDue(sorted) && multiset(sorted) == multiset(candidates) && cut <= |sorted|
    ensures SortedByDue(sorted[..cut])
    ensures forall row :: row in sorted[..cut] ==> row in candidates
    ensures exists rest: seq<TaskRow> :: multiset(sorted[..cut]) + multiset(rest) == multiset(candidates) &&
              forall a, b :: a in sorted[..cut] && b in rest ==> DueLe(a, b)
  {
    var rest := sorted[cut..];
    assert sorted == sorted[..cut] + rest;
    SortedCut(sorted, cut);
    forall row | row in sorted[..cut] ensures row in candidates {
      assert row in multiset(sorted);
    }
    assert multiset(sorted[..cut]) + multiset(rest) == multiset(candidates);
  }

  /** The listed tasks are open tasks at the priority, at most 25, in
      due-date order, and they are the earliest-due ones: every open task
      at the priority left off the list is due no earlier than each listed
      one. */
  lemma ListingIsEarliest(rows: seq<TaskRow>, p: Priority)
    ensures var l := Listing(rows, p);
      && |l| == (if CountOpenAt(rows, p, "open") < ListLimit then CountOpenAt(rows, p, "open") else ListLimit)
      && SortedByDue(l)
      && (forall row :: row in l ==> row in rows && row.status == "open" && row.urgency == p)
      && exists rest: seq<TaskRow> :: multiset(l) + multiset(rest) == multiset(OpenAt(rows, p)) &&
                        forall a, b :: a in l && b in rest ==> DueLe(a, b)
  {
    var candidates := OpenAt(rows, p);
    var sorted := SortByDue(candidates);
    assert |sorted| == |candidates| by {
      assert |multiset(sorted)| == |multiset(candidates)|;
    }
    var cut := if |sorted| <= ListLimit then |sorted| else ListLimit;
    assert Listing(rows, p) == sorted[..cut];
    SortedPrefixIsEarliest(sorted, candidates, cut);
  }

  /** Every listed task is open at the priority. */
  lemma ListedTasksOpenAt(param: string, rows: seq<TaskRow>)
    requires PriorityNamed(param).Some?
    ensures var r := CheckPriority(Some(param), rows, false, false);
            forall t :: t in r.tasksAtPriority ==> t.status == Open && t.urgency == PriorityNamed(param).value
  {
    var p := PriorityNamed(param).value;
    var l := Listing(rows, p);
    ListingIsEarliest(rows, p);
    forall t | t in ToTasks(l) ensures t.status == Open && t.urgency == p {
      var j :| 0 <= j < |l| && ToTasks(l)[j] == t;
      assert l[j] in l;
      TaskRowToTaskOfNamed(l[j], Open);
    }
  }
}
