/** The task collection endpoint (app/api/tasks/route.ts): `GET` lists the
    stored tasks through a status / archived / due-date filter, `POST`
    validates a new task, applies the priority cap unless forced, and
    inserts it. */
module TasksRoute {
  import opened Types
  import opened Text
  import opened StatusUtil
  import opened Mappers
  import opened PriorityHelpers
  import opened Database
  import opened DateHelpers

  // ---------------------------------------------------------------- GET

  /** The query parameters of a listing; `None` is an absent parameter.
      The two due bounds are the dates they name, `None` also when the
      parameter is empty. */
  datatype ListQuery = ListQuery(status: Option<string>, includeArchived: Option<string>,
                                 dueBefore: Option<Day>, dueAfter: Option<Day>)

  datatype ListResponse = ListFailed | Listed(tasks: seq<Task>)

  /** The filter the query builder applies to one row. The status filter
      is applied only for an exact known status name; archived rows are
      hidden unless `includeArchived` is exactly "true"; a due bound
      excludes rows without a due date. */
  predicate Matches(row: TaskRow, q: ListQuery) {
    && (q.status.Some? && StatusNamed(q.status.value).Some? ==> row.status == q.status.value)
    && (q.includeArchived != Some("true") ==> row.status != "archived")
    && (q.dueBefore.Some? ==> row.dueDate.Some? && row.dueDate.value <= q.dueBefore.value)
    && (q.dueAfter.Some? ==> row.dueDate.Some? && row.dueDate.value >= q.dueAfter.value)
  }

  /** The rows the query returns, in table order. */
  function Filtered(rows: seq<TaskRow>, q: ListQuery): (r: seq<TaskRow>)
    ensures |r| <= |rows|
    ensures forall row :: row in r <==> row in rows && Matches(row, q)
  {
    if rows == [] then []
    else
      var front := Filtered(rows[..|rows| - 1], q);
      var last := rows[|rows| - 1];
      assert rows == rows[..|rows| - 1] + [last];
      front + (if Matches(last, q) then [last] else [])
  }

  /** `GET /api/tasks`: the matching rows as tasks, or a failure when the
      query fails. */
  function ListTasks(rows: seq<TaskRow>, q: ListQuery, queryFails: bool): (r: ListResponse)
    ensures queryFails <==> r == ListFailed
    ensures r.Listed? ==> r.tasks == ToTasks(Filtered(rows, q))
  {
    if queryFails then ListFailed else Listed(ToTasks(Filtered(rows, q)))
  }

  /** An unknown status parameter filters nothing: the listing is the one
      without the parameter. */
  lemma {:induction false} UnknownStatusIgnored(rows: seq<TaskRow>, q: ListQuery)
    requires q.status.Some? && StatusNamed(q.status.value).None?
    ensures Filtered(rows, q) == Filtered(rows, q.(status := None))
  {
    if rows != [] {
      UnknownStatusIgnored(rows[..|rows| - 1], q);
    }
  }

  /** Without `includeArchived=true` no archived row is listed; asking for
      the archived status then lists nothing at all. */
  lemma ArchivedOnlyOnRequest(rows: seq<TaskRow>, q: ListQuery)
    requires q.includeArchived != Some("true")
    ensures forall row :: row in Filtered(rows, q) ==> row.status != "archived"
    ensures q.status == Some("archived") ==> Filtered(rows, q) == []
  {
    if q.status == Some("archived") && Filtered(rows, q) != [] {
      assert Filtered(rows, q)[0] in Filtered(rows, q);
    }
  }

  // ---------------------------------------------------------------- POST

  /** The `urgency` property: absent or null, a string, or any other JSON
      value (a number, a boolean, an object). */
  datatype UrgencyInput = NoUrgency | UrgencyText(text: string) | UrgencyOther

  /** A request body (`CreateTaskBody`). A string property holds `None`
      when it is absent, null or not a string; `urls` is `None` when it is
      not an array, and an entry of it is `None` when it is not a string. */
  datatype CreateTaskBody = CreateTaskBody(
    title: Option<string>,
    description: Option<string>,
    urgency: UrgencyInput,
    dueDate: Option<string>,
    notes: Option<string>,
    context: Option<string>,
    projectId: Option<string>,
    urls: Option<seq<Option<string>>>,
    tags: Option<seq<string>>,
    someday: Option<bool>,
    followUpItem: Option<bool>,
    force: Option<bool>)

  /** Which store calls fail: the open-task count and the insert. */
  datatype CreateFaults = CreateFaults(countFails: bool, insertFails: bool)

  datatype CreateResponse =
    | BadRequest(message: string)
    | LimitReached(message: string, limit: nat, current: nat)
    | ServerError
    | Created(task: Task)

  /** The title: the trimmed string, or "" when it is not a string. */
  function CreateTitle(body: CreateTaskBody): string {
    if body.title.Some? then Trim(body.title.value) else ""
  }

  /** `body.urgency ?? "P3"`: the text, "P3" when absent or null, and
      `None` for any other value, which no priority name equals. */
  function CreateUrgency(body: CreateTaskBody): Option<string> {
    match body.urgency
    case NoUrgency => Some("P3")
    case UrgencyText(text) => Some(text)
    case UrgencyOther => None
  }

  predicate IsSomeday(body: CreateTaskBody) {
    body.someday == Some(true)
  }

  /** The due-date column as sent: the trimmed text when it is not blank
      (`DueText`), otherwise null for a someday task and today's date for
      any other. */
  datatype DueInput = DueText(text: string) | DueNull | DueToday

  function CreateDue(body: CreateTaskBody): (d: DueInput)
    ensures d.DueText? <==> body.dueDate.Some? && Trim(body.dueDate.value) != []
    ensures d.DueText? ==> d.text == Trim(body.dueDate.value)
    ensures d.DueNull? <==> !d.DueText? && IsSomeday(body)
  {
    if body.dueDate.Some? && Trim(body.dueDate.value) != [] then DueText(Trim(body.dueDate.value))
    else if IsSomeday(body) then DueNull
    else DueToday
  }

  /** The project id: trimmed, null when blank or not a string. */
  function CreateProjectId(body: CreateTaskBody): (r: Option<string>)
    ensures r.None? <==> body.projectId.None? || Trim(body.projectId.value) == []
    ensures r.Some? ==> r.value == Trim(body.projectId.value)
  {
    if body.projectId.Some? && Trim(body.projectId.value) != [] then Some(Trim(body.projectId.value))
    else None
  }

  /** The URL list: each string entry trimmed, other entries read as "",
      and the empty ones dropped; null when `urls` is not an array. */
  function CreateUrls(body: CreateTaskBody): (r: Option<seq<string>>)
    ensures r.Some? <==> body.urls.Some?
  {
    if body.urls.None? then None
    else
      var entries := body.urls.value;
      Some(CleanList(seq(|entries|, j requires 0 <= j < |entries| =>
                           if entries[j].Some? then entries[j].value else "")))
  }

  /** Every listed URL is a non-empty trimmed string entry, and every string
      entry that is not blank is listed. */
  lemma CreateUrlsClean(body: CreateTaskBody)
    requires body.urls.Some?
    ensures forall u :: u in CreateUrls(body).value ==> u != [] && Trim(u) == u
    ensures forall j :: 0 <= j < |body.urls.value| && body.urls.value[j].Some? &&
                        Trim(body.urls.value[j].value) != [] ==>
                        Trim(body.urls.value[j].value) in CreateUrls(body).value
  {
    var entries := body.urls.value;
    var pieces := seq(|entries|, j requires 0 <= j < |entries| =>
                        if entries[j].Some? then entries[j].value else "");
    CleanListMembers(pieces);
    forall j | 0 <= j < |entries| && entries[j].Some? && Trim(entries[j].value) != []
      ensures Trim(entries[j].value) in CreateUrls(body).value
    {
      assert pieces[j] in pieces;
    }
  }

  /** Outcome of the checks before any store call. */
  datatype Validated = Invalid(message: string) | Valid(title: string, urgency: Priority)

  /** The body checks, in the route's order: a body at all, a non-blank
      title, a known urgency. */
  function ValidateCreate(body: Option<CreateTaskBody>): (v: Validated)
    ensures body.None? <==> v == Invalid("Invalid JSON payload")
    ensures v == Invalid("Task title is required") <==> body.Some? && CreateTitle(body.value) == []
    ensures v == Invalid("Invalid priority value") <==>
      body.Some? && CreateTitle(body.value) != [] &&
      (CreateUrgency(body.value).None? || PriorityNamed(CreateUrgency(body.value).value).None?)
    ensures v.Valid? ==> v.title == CreateTitle(body.value) && v.title != [] &&
                         CreateUrgency(body.value) == Some(PriorityName(v.urgency))
  {
    if body.None? then Invalid("Invalid JSON payload")
    else if CreateTitle(body.value) == [] then Invalid("Task title is required")
    else match CreateUrgency(body.value)
      case None => Invalid("Invalid priority value")
      case Some(u) =>
        match PriorityNamed(u)
        case None => Invalid("Invalid priority value")
        case Some(p) => Valid(CreateTitle(body.value), p)
  }

  /** The capacity test: it runs only for a capped priority when the body
      does not force, and refuses once the open count reaches the limit. */
  predicate AtCapacity(p: Priority, force: Option<bool>, current: nat) {
    PriorityLimit(p).Some? && force != Some(true) && current >= PriorityLimit(p).value
  }

  /** The object handed to `taskToInsertRow`. */
  function CreateInput(body: CreateTaskBody, title: string, p: Priority, due: Option<Day>): (t: InsertInput)
    ensures t.status == Some(if IsSomeday(body) then Waiting else Open)
    ensures t.rolloverCount == Some(0) && t.rescheduleCount == Some(0)
    ensures t.someday == Some(IsSomeday(body))
    ensures t.projectId == CreateProjectId(body) && t.urls == CreateUrls(body)
  {
    InsertInput(
      title, body.description, p,
      Some(if IsSomeday(body) then Waiting else Open),
      due, Some(0), Some(0), body.tags, body.context, CreateProjectId(body),
      Some(body.someday == Some(true)), Some(body.followUpItem == Some(true)),
      body.notes, CreateUrls(body), None, None)
  }

  /** The due day stored, or `None` (outer) when the database rejects the
      supplied text. */
  function DueDay(d: DueInput, today: Day, parseDay: string -> Option<Day>): Option<Option<Day>> {
    match d
    case DueText(text) => if parseDay(text).Some? then Some(Some(parseDay(text).value)) else None
    case DueNull => Some(None)
    case DueToday => Some(Some(today))
  }

  /** The row the insert stores for a valid body. */
  function CreatedRow(body: CreateTaskBody, title: string, p: Priority, due: Option<Day>,
                      newId: Id, now: Minute): TaskRow {
    StoredRow(TaskToInsertRow(CreateInput(body, title, p, due)), newId, now)
  }

  /** The new row is open (or waiting for a someday task), has never been
      rolled over or rescheduled, and has no reality check armed. */
  lemma CreatedRowFields(body: CreateTaskBody, title: string, p: Priority, due: Option<Day>,
                         newId: Id, now: Minute)
    ensures var row := CreatedRow(body, title, p, due, newId, now);
      && row.id == newId && row.title == title && row.urgency == p && row.dueDate == due
      && row.status == (if IsSomeday(body) then "waiting" else "open")
      && (row.someday <==> IsSomeday(body))
      && row.rolloverCount == 0 && row.rescheduleCount == 0
      && row.realityCheckStage == NoStage && row.realityCheckDueAt == None
      && row.projectId == CreateProjectId(body) && row.urls == CreateUrls(body)
  {
  }

  /** The whole `POST /api/tasks` exchange against the table `rows`: the
      response, and the table afterwards. */
  function CreateOutcome(body: Option<CreateTaskBody>, rows: seq<TaskRow>, now: Minute, newId: Id,
                         parseDay: string -> Option<Day>, faults: CreateFaults)
    : (r: (CreateResponse, seq<TaskRow>))
    ensures !r.0.Created? ==> r.1 == rows
    ensures r.0.Created? ==> |r.1| == |rows| + 1 && r.1[..|rows|] == rows &&
                             r.0.task == TaskRowToTask(r.1[|rows|])
  {
    match ValidateCreate(body)
    case Invalid(message) => (BadRequest(message), rows)
    case Valid(title, p) =>
      var b := body.value;
      var current := CountOpenAt(rows, p, "open");
      if PriorityLimit(p).Some? && b.force != Some(true) && faults.countFails then (ServerError, rows)
      else if AtCapacity(p, b.force, current) then
        (LimitReached("Priority " + PriorityName(p) + " limit reached", PriorityLimit(p).value, current), rows)
      else match DueDay(CreateDue(b), Today(now), parseDay)
        case None => (ServerError, rows)
        case Some(due) =>
          if faults.insertFails then (ServerError, rows)
          else
            var row := CreatedRow(b, title, p, due, newId, now);
            assert (rows + [row])[..|rows|] == rows;
            (Created(TaskRowToTask(row)), rows + [row])
  }

  /** Reaching the limit without forcing is answered 409 with the limit and
      the count, and the table is left alone. */
  lemma CreateRefusedAtCapacity(body: CreateTaskBody, rows: seq<TaskRow>, now: Minute, newId: Id,
                                parseDay: string -> Option<Day>, faults: CreateFaults)
    requires ValidateCreate(Some(body)).Valid? && !faults.countFails
    requires AtCapacity(ValidateCreate(Some(body)).urgency, body.force,
                        CountOpenAt(rows, ValidateCreate(Some(body)).urgency, "open"))
    ensures var p := ValidateCreate(Some(body)).urgency;
      CreateOutcome(Some(body), rows, now, newId, parseDay, faults) ==
        (LimitReached("Priority " + PriorityName(p) + " limit reached", PriorityLimit(p).value,
                      CountOpenAt(rows, p, "open")), rows)
  {
  }

  /** Conversely, "limit reached" is answered only to a valid body that
      is at capacity and not forced. */
  lemma LimitReachedOnlyAtCapacity(body: Option<CreateTaskBody>, rows: seq<TaskRow>, now: Minute, newId: Id,
                                   parseDay: string -> Option<Day>, faults: CreateFaults)
    requires CreateOutcome(body, rows, now, newId, parseDay, faults).0.LimitReached?
    ensures body.Some? && ValidateCreate(body).Valid?
    ensures AtCapacity(ValidateCreate(body).urgency, body.value.force,
                       CountOpenAt(rows, ValidateCreate(body).urgency, "open"))
  {
  }

  /** Without `force`, a creation never takes a capped priority past its
      limit: the open count after the insert is at most the limit whenever
      it was before. */
  lemma CreateKeepsCap(body: CreateTaskBody, rows: seq<TaskRow>, now: Minute, newId: Id,
                       parseDay: string -> Option<Day>, faults: CreateFaults, q: Priority)
    requires body.force != Some(true)
    requires PriorityLimit(q).Some? && CountOpenAt(rows, q, "open") <= PriorityLimit(q).value
    ensures CountOpenAt(CreateOutcome(Some(body), rows, now, newId, parseDay, faults).1, q, "open")
            <= PriorityLimit(q).value
  {
    var r := CreateOutcome(Some(body), rows, now, newId, parseDay, faults);
    if r.0.Created? {
      var v := ValidateCreate(Some(body));
      var due := DueDay(CreateDue(body), Today(now), parseDay).value;
      var row := CreatedRow(body, v.title, v.urgency, due, newId, now);
      CreatedRowFields(body, v.title, v.urgency, due, newId, now);
      assert r.1 == rows + [row];
      CountOpenAtAppend(rows, [row], q, "open");
      assert [row][..0] == [];
    }
  }

  /** A P4 task, or a forced one, is never refused for capacity. */
  lemma CreateUncappedOrForcedAdmitted(body: CreateTaskBody, rows: seq<TaskRow>, now: Minute, newId: Id,
                                       parseDay: string -> Option<Day>, faults: CreateFaults)
    requires ValidateCreate(Some(body)).Valid?
    requires ValidateCreate(Some(body)).urgency == P4 || body.force == Some(true)
    ensures !CreateOutcome(Some(body), rows, now, newId, parseDay, faults).0.LimitReached?
  {
  }

  /** The count the server compares is the usage the client form computes
      from the same rows, when every stored status is a canonical name (as
      every row this route inserts is). */
  lemma {:induction false} ServerCountIsClientUsage(rows: seq<TaskRow>, p: Priority)
    requires forall j :: 0 <= j < |rows| ==> StatusNamed(rows[j].status).Some?
    ensures CountOpenAt(rows, p, "open") == GetPriorityUsage(ToTasks(rows)).Of(p)
  {
    RowCountIsTaskCount(rows, p);
  }

  /** Counting open rows by the raw column text counts the same rows as
      counting mapped tasks by status, over canonical rows. */
  lemma {:induction false} RowCountIsTaskCount(rows: seq<TaskRow>, p: Priority)
    requires forall j :: 0 <= j < |rows| ==> StatusNamed(rows[j].status).Some?
    ensures CountOpenAt(rows, p, "open") == CountOpenAt(ToTasks(rows), p, Open)
  {
    if rows != [] {
      var front := rows[..|rows| - 1];
      var last := rows[|rows| - 1];
      RowCountIsTaskCount(front, p);
      assert ToTasks(rows)[..|rows| - 1] == ToTasks(front);
      var s := StatusNamed(last.status).value;
      TaskRowToTaskOfNamed(last, s);
    }
  }

  /** The server refuses exactly when the client's `canAddTaskAtPriority`
      would, for an unforced request over canonical rows. */
  lemma CapacityAgreesWithClient(rows: seq<TaskRow>, p: Priority)
    requires forall j :: 0 <= j < |rows| ==> StatusNamed(rows[j].status).Some?
    ensures AtCapacity(p, None, CountOpenAt(rows, p, "open")) <==>
            !CanAddTaskAtPriority(p, GetPriorityUsage(ToTasks(rows)))
  {
    var usage := GetPriorityUsage(ToTasks(rows));
    ServerCountIsClientUsage(rows, p);
    assert CanAddTaskAtPriority(p, usage) <==> PriorityLimit(p).None? || usage.Of(p) < PriorityLimit(p).value;
  }

  /** `POST /api/tasks` at instant `now`; the database assigns `newId` and
      parses the due-date text with `parseDay`. */
  method CreateTask(db: Db, body: Option<CreateTaskBody>, now: Minute, newId: Id,
                    parseDay: string -> Option<Day>, faults: CreateFaults)
    returns (response: CreateResponse)
    modifies db
    ensures (response, db.tasks) == CreateOutcome(body, old(db.tasks), now, newId, parseDay, faults)
    ensures db.history == old(db.history) && db.graveyard == old(db.graveyard)
    ensures db.events == old(db.events)
  {
    var v := ValidateCreate(body);
    if v.Invalid? {
      return BadRequest(v.message);
    }
    var b := body.value;
    var title, urgency := v.title, v.urgency;
    var limit := PriorityLimit(urgency);
    if limit.Some? && b.force != Some(true) {
      if faults.countFails {
        return ServerError;
      }
      var count := CountOpenAt(db.tasks, urgency, "open");
      if count >= limit.value {
        return LimitReached("Priority " + PriorityName(urgency) + " limit reached", limit.value, count);
      }
    }
    var dueDate := DueDay(CreateDue(b), Today(now), parseDay);
    if dueDate.None? || faults.insertFails {
      return ServerError;
    }
    var row := CreatedRow(b, title, urgency, dueDate.value, newId, now);
    db.tasks := db.tasks + [row];
    response := Created(TaskRowToTask(row));
  }
}
