/** The task creation form (components/tasks/TaskForm.tsx): the per-priority
    usage it shows, the capacity confirmation, and the request body it
    builds for `POST /api/tasks`. */
module TaskForm {
  import opened Types
  import opened Text
  import opened StatusUtil
  import opened Mappers
  import opened PriorityHelpers
  import opened TaskStore
  import opened TasksRoute

  /** The form's inputs; `dueDate` is the date field's text. */
  datatype FormFields = FormFields(
    title: string,
    priority: Priority,
    dueDate: string,
    description: string,
    projectId: string,
    context: string,
    tagsInput: string,
    urlsInput: string,
    notes: string,
    followUp: bool,
    someday: bool)

  /** The initial and reset state: blank, P3, due today (`todayText`). */
  function DefaultFields(todayText: string): FormFields {
    FormFields("", P3, todayText, "", "", "", "", "", "", false, false)
  }

  // ---------------------------------------------------------- usage

  /** `tasks.filter(task.urgency === value && task.status === "open")`. */
  function OpenTasksAt(ts: seq<Task>, p: Priority): (r: seq<Task>)
    ensures forall t :: t in r <==> t in ts && t.urgency == p && t.status == Open
  {
    if ts == [] then []
    else
      var last := ts[|ts| - 1];
      assert ts == ts[..|ts| - 1] + [last];
      OpenTasksAt(ts[..|ts| - 1], p) + (if last.urgency == p && last.status == Open then [last] else [])
  }

  /** The form's usage figure for a priority is the one
      `getPriorityUsage` reports. */
  lemma {:induction false} FormUsageIsPriorityUsage(ts: seq<Task>, p: Priority)
    ensures |OpenTasksAt(ts, p)| == GetPriorityUsage(ts).Of(p)
  {
    if ts != [] {
      FormUsageIsPriorityUsage(ts[..|ts| - 1], p);
    }
  }

  /** A capped priority whose open count has reached its limit asks for
      confirmation before submitting. */
  predicate NeedsConfirmation(p: Priority, current: nat) {
    PriorityLimit(p).Some? && current >= PriorityLimit(p).value
  }

  /** The form asks exactly when `canAddTaskAtPriority` would refuse, and
      never for P4. */
  lemma ConfirmationIffFull(ts: seq<Task>, p: Priority)
    ensures NeedsConfirmation(p, |OpenTasksAt(ts, p)|) <==> !CanAddTaskAtPriority(p, GetPriorityUsage(ts))
    ensures p == P4 ==> !NeedsConfirmation(p, |OpenTasksAt(ts, p)|)
  {
    var usage := GetPriorityUsage(ts);
    FormUsageIsPriorityUsage(ts, p);
    assert CanAddTaskAtPriority(p, usage) <==> PriorityLimit(p).None? || usage.Of(p) < PriorityLimit(p).value;
  }

  /** The error shown when the confirmation is declined. */
  function CapacityMessage(p: Priority): string {
    PriorityLabel(p) + " is at capacity. Resolve or downgrade existing tasks before adding another."
  }

  // ---------------------------------------------------------- payload

  /** The tags: comma-separated, trimmed, blanks dropped. */
  function TagList(input: string): seq<string> {
    CleanList(Split(input, ','))
  }

  /** The URLs: one per line, trimmed, blanks dropped (runs of newlines
      give blank pieces, which are dropped, as `split(/\n+/)` does). */
  function UrlList(input: string): seq<string> {
    CleanList(Split(input, '\n'))
  }

  /** The list as present entries of a JSON array. */
  function Entries(l: seq<string>): (r: seq<Option<string>>)
    ensures |r| == |l| && forall j :: 0 <= j < |l| ==> r[j] == Some(l[j])
  {
    if l == [] then [] else [Some(l[0])] + Entries(l[1..])
  }

  const EmptyBody := CreateTaskBody(None, None, NoUrgency, None, None, None, None, None, None, None, None, None)

  /** The body `handleSubmit` sends, with `force` set when the user
      confirmed a full priority. */
  function Payload(f: FormFields, force: bool): CreateTaskBody {
    var tags := TagList(f.tagsInput);
    var urls := UrlList(f.urlsInput);
    CreateTaskBody(
      title := Some(Trim(f.title)),
      description := NonBlank(f.description),
      urgency := UrgencyText(PriorityName(f.priority)),
      dueDate := if f.someday then None else Some(f.dueDate),
      notes := NonBlank(f.notes),
      context := NonBlank(f.context),
      projectId := NonBlank(f.projectId),
      urls := if urls == [] then None else Some(Entries(urls)),
      tags := if tags == [] then None else Some(tags),
      someday := Some(f.someday),
      followUpItem := Some(f.followUp),
      force := if force then Some(true) else None)
  }

  /** The body carries the trimmed title and the chosen priority, no due
      date when parked, `force` only when confirmed, and each optional text
      field exactly when it has content. */
  lemma PayloadFields(f: FormFields, force: bool)
    ensures var b := Payload(f, force);
      && b.title == Some(Trim(f.title)) && b.urgency == UrgencyText(PriorityName(f.priority))
      && (f.someday ==> b.dueDate.None?)
      && (b.force.Some? <==> force) && (b.force.Some? ==> b.force.value)
      && (b.description.Some? <==> Trim(f.description) != [])
      && (b.projectId.Some? <==> Trim(f.projectId) != [])
      && (b.context.Some? <==> Trim(f.context) != [])
      && (b.notes.Some? <==> Trim(f.notes) != [])
  {
  }

  /** Every entry of `Entries(l)` is present and comes from `l`. */
  lemma {:induction false} EntriesMembers(l: seq<string>)
    ensures forall u :: u in Entries(l) ==> u.Some? && u.value in l
  {
    if l != [] {
      EntriesMembers(l[1..]);
    }
  }

  /** Tags and URLs are sent only when some are left, each trimmed and
      non-empty. */
  lemma PayloadLists(f: FormFields, force: bool)
    ensures var b := Payload(f, force);
      && (b.tags.Some? ==> b.tags.value != [] && forall g :: g in b.tags.value ==> g != [] && Trim(g) == g)
      && (b.urls.Some? ==>
            && b.urls.value != []
            && forall u :: u in b.urls.value ==> u.Some? && u.value != [] && Trim(u.value) == u.value)
  {
    CleanListMembers(Split(f.tagsInput, ','));
    CleanListMembers(Split(f.urlsInput, '\n'));
    EntriesMembers(UrlList(f.urlsInput));
  }

  /** Every non-blank comma-separated piece of the tag input is sent as a
      tag. */
  lemma TagsKept(f: FormFields, force: bool, piece: string)
    requires piece in Split(f.tagsInput, ',') && Trim(piece) != []
    ensures Payload(f, force).tags.Some? && Trim(piece) in Payload(f, force).tags.value
  {
    CleanListMembers(Split(f.tagsInput, ','));
  }

  /** A body from a form with a non-blank title passes the route's checks
      with the same title and priority. */
  lemma PayloadValid(f: FormFields, force: bool)
    requires Trim(f.title) != []
    ensures ValidateCreate(Some(Payload(f, force))) == Valid(Trim(f.title), f.priority)
  {
    TrimIdempotent(f.title);
    var named := PriorityNamed(PriorityName(f.priority));
    assert named.Some? && named.value == f.priority by {
      match f.priority
      case P1 =>
      case P2 =>
      case P3 =>
      case P4 =>
    }
  }

  /** A parked task is stored without a due date; otherwise the route
      parses the field's text, or uses today when it is blank. */
  lemma PayloadDue(f: FormFields, force: bool)
    ensures f.someday ==> CreateDue(Payload(f, force)) == DueNull
    ensures !f.someday && Trim(f.dueDate) != [] ==> CreateDue(Payload(f, force)) == DueText(Trim(f.dueDate))
    ensures !f.someday && Trim(f.dueDate) == [] ==> CreateDue(Payload(f, force)) == DueToday
  {
  }

  /** The form and the route agree on capacity: when the store holds the
      table's tasks, a body the form sends (forced exactly when it asked
      and the user confirmed) is never answered with "limit reached". */
  lemma FormAgreesWithServer(f: FormFields, rows: seq<TaskRow>, now: Minute, newId: Id,
                             parseDay: string -> Option<Day>, faults: CreateFaults)
    requires Trim(f.title) != []
    requires forall j :: 0 <= j < |rows| ==> StatusNamed(rows[j].status).Some?
    ensures var force := NeedsConfirmation(f.priority, |OpenTasksAt(ToTasks(rows), f.priority)|);
            !CreateOutcome(Some(Payload(f, force)), rows, now, newId, parseDay, faults).0.LimitReached?
  {
    var p := f.priority;
    var force := NeedsConfirmation(p, |OpenTasksAt(ToTasks(rows), p)|);
    var b := Payload(f, force);
    if CreateOutcome(Some(b), rows, now, newId, parseDay, faults).0.LimitReached? {
      LimitReachedOnlyAtCapacity(Some(b), rows, now, newId, parseDay, faults);
      PayloadValid(f, force);
      FormUsageIsPriorityUsage(ToTasks(rows), p);
      ServerCountIsClientUsage(rows, p);
      assert false;
    }
  }

  // ---------------------------------------------------------- submit

  /** The form's fields, its error message, and the bodies handed to the
      create mutation so far. */
  datatype FormState = FormState(fields: FormFields, error: Option<FormError>, sent: seq<CreateTaskBody>)

  /** What the form's error line reports: the declined capacity prompt, or
      the mutation's message. */
  datatype FormError = AtCapacity(priority: Priority) | MutationFailed(message: string)

  /** The text the error line shows. */
  function ErrorText(e: FormError): string {
    match e
    case AtCapacity(p) => CapacityMessage(p)
    case MutationFailed(m) => m
  }

  /** What `handleSubmit` does to the form, given whether the priority is
      `full`, the answer to the confirmation, and the mutation's failure;
      the flag says whether a body was sent. A blank title changes nothing;
      a declined confirmation shows the capacity error and sends nothing;
      otherwise the body, forced exactly when full, is sent, and the form
      resets on success or shows the mutation's message on failure. */
  function Submit(s: FormState, full: bool, confirmed: bool, todayText: string, failure: Option<string>)
    : (r: (FormState, bool))
    ensures r.1 <==> Trim(s.fields.title) != [] && (!full || confirmed)
    ensures Trim(s.fields.title) == [] ==> r.0 == s
    ensures !r.1 ==> r.0.fields == s.fields && r.0.sent == s.sent
    ensures Trim(s.fields.title) != [] && full && !confirmed ==> r.0.error == Some(AtCapacity(s.fields.priority))
    ensures r.1 ==> r.0.sent == s.sent + [Payload(s.fields, full)]
    ensures r.1 && failure.None? ==> r.0.fields == DefaultFields(todayText) && r.0.error == None
    ensures r.1 && failure.Some? ==> r.0.fields == s.fields && r.0.error == Some(MutationFailed(failure.value))
  {
    var f := s.fields;
    if Trim(f.title) == [] then (s, false)
    else if full && !confirmed then (s.(error := Some(AtCapacity(f.priority))), false)
    else
      var sent := s.sent + [Payload(f, full)];
      if failure.None? then (FormState(DefaultFields(todayText), None, sent), true)
      else (FormState(f, Some(MutationFailed(failure.value)), sent), true)
  }

  // ---------------------------------------------------------- component

  /** The form over the shared store; `sent` logs the bodies handed to the
      create mutation. */
  class Form {
    const store: Store
    var fields: FormFields
    var error: Option<FormError>
    var sent: seq<CreateTaskBody>

    constructor (store: Store, todayText: string)
      ensures this.store == store && fields == DefaultFields(todayText) && error == None && sent == []
    {
      this.store := store;
      fields := DefaultFields(todayText);
      error := None;
      sent := [];
    }

    /** Whether the store already holds as many open tasks at `p` as its
        limit allows, so that adding one asks for confirmation. */
    predicate Full(p: Priority)
      reads store
    {
      NeedsConfirmation(p, |OpenTasksAt(store.tasks, p)|)
    }

    /** The state `handleSubmit` reads and writes. */
    function State(): FormState
      reads this
    {
      FormState(fields, error, sent)
    }

    /** `handleSubmit`: `confirmed` is the user's answer to the capacity
        prompt and `failure` the mutation's error message, `None` when it
        succeeds (the reset puts the due date at `todayText`). The new
        state is `Submit` of the old one, with the priority's fullness
        read from the store. */
    method HandleSubmit(confirmed: bool, todayText: string, failure: Option<string>)
      returns (submitted: bool)
      modifies this
      ensures (State(), submitted) == Submit(old(State()), old(Full(fields.priority)), confirmed, todayText, failure)
    {
      var f := fields;
      if Trim(f.title) == [] {
        return false;
      }
      error := None;
      var force := Full(f.priority);
      if force && !confirmed {
        error := Some(AtCapacity(f.priority));
        return false;
      }
      var payload := BuildPayload(f, force);
      sent := sent + [payload];
      submitted := true;
      if failure.None? {
        fields := DefaultFields(todayText);
      } else {
        error := Some(MutationFailed(failure.value));
      }
    }
  }

  /** The body, built field by field: the required part, `force` when
      confirmed, the optional fields, then the two flags. */
  method BuildPayload(f: FormFields, force: bool) returns (payload: CreateTaskBody)
    ensures payload == Payload(f, force)
  {
    payload := EmptyBody.(title := Some(Trim(f.title)), urgency := UrgencyText(PriorityName(f.priority)),
                          dueDate := if f.someday then None else Some(f.dueDate));
    if force {
      payload := payload.(force := Some(true));
    }
    payload := WithOptionalFields(payload, f);
    payload := payload.(followUpItem := Some(f.followUp), someday := Some(f.someday));
  }

  /** The optional part of the body, added field by field. */
  method WithOptionalFields(base: CreateTaskBody, f: FormFields) returns (payload: CreateTaskBody)
    requires base.description.None? && base.projectId.None? && base.context.None? && base.notes.None?
    requires base.tags.None? && base.urls.None?
    ensures payload == base.(description := NonBlank(f.description), projectId := NonBlank(f.projectId),
                             context := NonBlank(f.context), notes := NonBlank(f.notes),
                             tags := Payload(f, false).tags, urls := Payload(f, false).urls)
  {
    payload := base;
    var trimmedDescription := Trim(f.description);
    if trimmedDescription != [] {
      payload := payload.(description := Some(trimmedDescription));
    }
    var trimmedProject := Trim(f.projectId);
    if trimmedProject != [] {
      payload := payload.(projectId := Some(trimmedProject));
    }
    var trimmedContext := Trim(f.context);
    if trimmedContext != [] {
      payload := payload.(context := Some(trimmedContext));
    }
    var trimmedNotes := Trim(f.notes);
    if trimmedNotes != [] {
      payload := payload.(notes := Some(trimmedNotes));
    }
    var tagList := TagList(f.tagsInput);
    if |tagList| > 0 {
      payload := payload.(tags := Some(tagList));
    }
    var urlList := UrlList(f.urlsInput);
    if |urlList| > 0 {
      payload := payload.(urls := Some(Entries(urlList)));
    }
  }
}
