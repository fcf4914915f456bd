/** The priority cap table and usage counting (lib/utils/priorityHelpers.ts). */
module PriorityHelpers {
  import opened Types
  import opened Text

  /** `PRIORITY_LIMITS`: P1 3, P2 5, P3 10, P4 uncapped. */
  function PriorityLimit(p: Priority): Option<nat> {
    match p
    case P1 => Some(3)
    case P2 => Some(5)
    case P3 => Some(10)
    case P4 => None
  }

  /** The wire name of a priority (`TaskPriority`). */
  function PriorityName(p: Priority): string {
    match p
    case P1 => "P1"
    case P2 => "P2"
    case P3 => "P3"
    case P4 => "P4"
  }

  /** `priorityLabels`: the display name of each priority. */
  function PriorityLabel(p: Priority): string {
    match p
    case P1 => "Critical"
    case P2 => "High"
    case P3 => "Medium"
    case P4 => "Low"
  }

  /** Membership in `ALLOWED_PRIORITIES` (both API routes): the priority
      whose name is exactly `text`, if any. */
  function PriorityNamed(text: string): (r: Option<Priority>)
    ensures r.Some? ==> PriorityName(r.value) == text
    ensures r.None? ==> forall p :: PriorityName(p) != text
  {
    if text == "P1" then Some(P1)
    else if text == "P2" then Some(P2)
    else if text == "P3" then Some(P3)
    else if text == "P4" then Some(P4)
    else None
  }

  /** Open tasks per priority (`Record<TaskPriority, number>`). */
  datatype Usage = Usage(p1: nat, p2: nat, p3: nat, p4: nat) {
    function Of(p: Priority): nat {
      match p
      case P1 => p1
      case P2 => p2
      case P3 => p3
      case P4 => p4
    }

    function Bump(p: Priority): (u: Usage)
      ensures u.Of(p) == Of(p) + 1
      ensures forall q :: q != p ==> u.Of(q) == Of(q)
    {
      match p
      case P1 => this.(p1 := p1 + 1)
      case P2 => this.(p2 := p2 + 1)
      case P3 => this.(p3 := p3 + 1)
      case P4 => this.(p4 := p4 + 1)
    }

    function Total(): nat {
      p1 + p2 + p3 + p4
    }
  }

  const ZeroUsage := Usage(0, 0, 0, 0)

  /** Number of tasks at priority `p` whose status is `open` (the client
      compares the enumeration, the server the raw column text). */
  function CountOpenAt<S(==)>(ts: seq<TaskRecord<S>>, p: Priority, open: S): nat {
    if ts == [] then 0
    else CountOpenAt(ts[..|ts| - 1], p, open) +
         (if ts[|ts| - 1].status == open && ts[|ts| - 1].urgency == p then 1 else 0)
  }

  function CountOpen(ts: seq<Task>): nat {
    if ts == [] then 0
    else CountOpen(ts[..|ts| - 1]) + (if ts[|ts| - 1].status == Open then 1 else 0)
  }

  lemma {:induction false} CountOpenAtAppend<S>(a: seq<TaskRecord<S>>, b: seq<TaskRecord<S>>, p: Priority, open: S)
    ensures CountOpenAt(a + b, p, open) == CountOpenAt(a, p, open) + CountOpenAt(b, p, open)
    decreases |b|
  {
    if b != [] {
      assert (a + b)[..|a + b| - 1] == a + b[..|b| - 1];
      CountOpenAtAppend(a, b[..|b| - 1], p, open);
    } else {
      assert a + b == a;
    }
  }

  /** `getPriorityUsage`: the left fold that bumps the counter of every open
      task's priority. */
  function GetPriorityUsage(ts: seq<Task>): (u: Usage)
    ensures forall p :: u.Of(p) == CountOpenAt(ts, p, Open)
    ensures u.Total() == CountOpen(ts)
  {
    if ts == [] then ZeroUsage
    else
      var acc := GetPriorityUsage(ts[..|ts| - 1]);
      var t := ts[|ts| - 1];
      if t.status == Open then acc.Bump(t.urgency) else acc
  }

  /** Tasks that are not open never change the usage, wherever they sit. */
  lemma UsageIgnoresNonOpen(a: seq<Task>, t: Task, b: seq<Task>)
    requires t.status != Open
    ensures GetPriorityUsage(a + [t] + b) == GetPriorityUsage(a + b)
  {
    var u, v := GetPriorityUsage(a + [t] + b), GetPriorityUsage(a + b);
    forall p ensures u.Of(p) == v.Of(p) {
      CountOpenAtAppend(a + [t], b, p, Open);
      CountOpenAtAppend(a, [t], p, Open);
      CountOpenAtAppend(a, b, p, Open);
      assert CountOpenAt([t], p, Open) == 0 by {
        assert [t][..0] == [];
      }
    }
    UsageExt(u, v);
  }

  /** Two usages that agree on every priority are equal. */
  lemma UsageExt(u: Usage, v: Usage)
    requires forall p :: u.Of(p) == v.Of(p)
    ensures u == v
  {
    assert u.Of(P1) == v.Of(P1) && u.Of(P2) == v.Of(P2) && u.Of(P3) == v.Of(P3) && u.Of(P4) == v.Of(P4);
  }

  /** `canAddTaskAtPriority`. */
  predicate CanAddTaskAtPriority(p: Priority, usage: Usage) {
    var limit := PriorityLimit(p);
    if limit.None? then true else usage.Of(p) < limit.value
  }

  /** P4 is always admitted; a capped priority is admitted exactly below
      its limit, so it is refused at usage == limit. */
  lemma AdmissionRule(p: Priority, usage: Usage)
    ensures p == P4 ==> CanAddTaskAtPriority(p, usage)
    ensures p != P4 ==> (CanAddTaskAtPriority(p, usage) <==> usage.Of(p) < PriorityLimit(p).value)
  {
  }

  /** Admitting only what `canAddTaskAtPriority` allows keeps every capped
      priority within its limit. */
  lemma {:induction false} AdmissionKeepsCap(ts: seq<Task>, t: Task, p: Priority)
    requires PriorityLimit(p).Some? && CountOpenAt(ts, p, Open) <= PriorityLimit(p).value
    requires t.status == Open ==> CanAddTaskAtPriority(t.urgency, GetPriorityUsage(ts))
    ensures CountOpenAt(ts + [t], p, Open) <= PriorityLimit(p).value
  {
    assert (ts + [t])[..|ts|] == ts;
  }

  /** A refusal stays a refusal however many tasks are added afterwards
      (forcing one in does not raise the limit). */
  lemma {:induction false} RefusalIsStable(ts: seq<Task>, more: seq<Task>, p: Priority)
    requires !CanAddTaskAtPriority(p, GetPriorityUsage(ts))
    ensures !CanAddTaskAtPriority(p, GetPriorityUsage(ts + more))
  {
    CountOpenAtAppend(ts, more, p, Open);
  }

  /** `describePrioritySlot`: "N active" when uncapped, "N / L used" when capped. */
  function DescribePrioritySlot(p: Priority, usage: Usage): string {
    var limit := PriorityLimit(p);
    if limit.None? then NatToString(usage.Of(p)) + " active"
    else NatToString(usage.Of(p)) + " / " + NatToString(limit.value) + " used"
  }

  lemma {:induction false} LeadingDigitsStops(ds: string, rest: string)
    requires forall i :: 0 <= i < |ds| ==> IsDigit(ds[i])
    requires rest != [] && !IsDigit(rest[0])
    ensures LeadingDigits(ds + rest) == ds
  {
    if ds != [] {
      assert (ds + rest)[1..] == ds[1..] + rest;
      LeadingDigitsStops(ds[1..], rest);
    }
  }

  /** `parseInt` of a number's text followed by a non-digit is the number. */
  lemma ParseIntOfNumberThen(x: nat, rest: string)
    requires rest != [] && !IsDigit(rest[0])
    ensures ParseInt(NatToString(x) + rest) == Some(x)
  {
    var n := NatToString(x);
    assert (n + rest)[0] == n[0];
    TrimStartFixed(n + rest);
    LeadingDigitsStops(n, rest);
    DigitsValueOfNatToString(x);
  }

  /** The slot text reads back as the usage count. */
  lemma DescribePrioritySlotReadsBack(p: Priority, usage: Usage)
    ensures ParseInt(DescribePrioritySlot(p, usage)) == Some(usage.Of(p))
  {
    var n := NatToString(usage.Of(p));
    var d := DescribePrioritySlot(p, usage);
    var rest := d[|n|..];
    assert d == n + rest;
    ParseIntOfNumberThen(usage.Of(p), rest);
  }

  /** For a capped priority, the text after "N / " reads back as the limit. */
  lemma DescribePrioritySlotLimit(p: Priority, usage: Usage)
    requires PriorityLimit(p).Some?
    ensures var d := DescribePrioritySlot(p, usage);
            var k := |NatToString(usage.Of(p))| + 3;
            k <= |d| && ParseInt(d[k..]) == Some(PriorityLimit(p).value)
  {
    var n := NatToString(usage.Of(p));
    var m := NatToString(PriorityLimit(p).value);
    var d := DescribePrioritySlot(p, usage);
    assert d == (n + " / ") + (m + " used");
    assert d[|n| + 3..] == m + " used";
    ParseIntOfNumberThen(PriorityLimit(p).value, " used");
  }

  /** The slot text ends in "active" exactly when the priority is uncapped. */
  lemma DescribePrioritySlotForm(p: Priority, usage: Usage)
    ensures var d := DescribePrioritySlot(p, usage);
            |d| >= 6 && (d[|d| - 6..] == "active" <==> PriorityLimit(p).None?)
  {
    var d := DescribePrioritySlot(p, usage);
    var n := NatToString(usage.Of(p));
    if PriorityLimit(p).Some? {
      var tail := NatToString(PriorityLimit(p).value) + " used";
      assert d == (n + " / ") + tail;
      assert d[|d| - 6..] == tail[|tail| - 6..];
      assert tail[|tail| - 5] == ' ';
    } else {
      assert d == n + " active";
    }
  }
}
