/** The one-off AppSheet import (scripts/import-appsheet-tasks.mjs): the
    `.env` loader, the command-line options, the mapping of legacy sheet
    rows to task rows, the de-duplication against the table, title
    truncation, and the chunked insert. */
module ImportTasks {
  import opened Types
  import opened Text
  import opened PriorityHelpers

  // ---------------------------------------------------------- .env files

  /** `value.replace(/^"|"$/g, "")`: one leading and one trailing double
      quote removed. */
  function StripQuotes(v: string): (r: string)
    ensures |r| <= |v|
  {
    var a := if v != [] && v[0] == '"' then v[1..] else v;
    if a != [] && a[|a| - 1] == '"' then a[..|a| - 1] else a
  }

  /** A quoted value loses exactly its quotes, and an unquoted one is kept. */
  lemma StripQuotesInverse(v: string)
    ensures StripQuotes("\"" + v + "\"") == v
    ensures (v == [] || (v[0] != '"' && v[|v| - 1] != '"')) ==> StripQuotes(v) == v
  {
    var q := "\"" + v + "\"";
    assert q[1..] == v + "\"";
    assert (v + "\"")[..|v|] == v;
  }

  /** The assignment a line of a `.env` file makes, if any: blank lines,
      `#` comments, lines without `=` and lines with a blank key make
      none; the key and the value are trimmed and the value unquoted. */
  function EnvEntry(line: string): (r: Option<(string, string)>)
    ensures r.Some? ==> var key := r.value.0;
      && key != [] && Trim(key) == key && '=' !in key
      && Trim(line) != [] && !StartsWith(Trim(line), "#")
  {
    var trimmed := Trim(line);
    if trimmed == [] || StartsWith(trimmed, "#") then None
    else match IndexOf(trimmed, "=")
      case None => None
      case Some(eq) =>
        var key := Trim(trimmed[..eq]);
        if key == [] then None
        else
          TrimIdempotent(trimmed[..eq]);
          assert '=' !in key by {
            if '=' in key {
              TrimKeeps(trimmed[..eq], '=');
              var j :| 0 <= j < eq && trimmed[j] == '=';
              assert OccursAt(trimmed, "=", j);
            }
          }
          Some((key, StripQuotes(Trim(trimmed[eq + 1..]))))
  }

  /** `KEY=VALUE` with a trimmed key and value is already trimmed. */
  lemma AssignmentTrimmed(key: string, value: string)
    requires key != [] && Trim(key) == key && Trim(value) == value
    ensures Trim(key + "=" + value) == key + "=" + value
  {
    var line := key + "=" + value;
    TrimEnds(key);
    TrimEnds(value);
    assert line[0] == key[0];
    assert line[|line| - 1] == if value == [] then '=' else value[|value| - 1];
    TrimStartFixed(line);
    TrimEndFixed(line);
  }

  /** The first `=` of `KEY=VALUE` is the one after a key free of `=`. */
  lemma AssignmentIndexOf(key: string, value: string)
    requires '=' !in key
    ensures IndexOf(key + "=" + value, "=") == Some(|key|)
  {
    var line := key + "=" + value;
    assert OccursAt(line, "=", |key|) by { assert line[|key|..|key| + 1] == "="; }
    forall j | 0 <= j < |key| ensures !OccursAt(line, "=", j) {
      assert line[j..j + 1] == [key[j]];
    }
  }

  /** A line `KEY=VALUE` with a trimmed key free of `=` and `#` in front,
      and a trimmed value, assigns the value, unquoted, to the key. */
  lemma EnvEntryOfAssignment(key: string, value: string)
    requires key != [] && Trim(key) == key && '=' !in key && key[0] != '#'
    requires Trim(value) == value
    ensures EnvEntry(key + "=" + value) == Some((key, StripQuotes(value)))
  {
    var line := key + "=" + value;
    AssignmentTrimmed(key, value);
    AssignmentIndexOf(key, value);
    assert !StartsWith(line, "#") by { assert line[..1][0] == key[0]; }
    assert line[..|key|] == key;
    assert line[|key| + 1..] == value;
  }

  /** The assignments of the lines of a file, in order. */
  function EnvEntries(lines: seq<string>): (r: seq<Option<(string, string)>>)
    ensures |r| == |lines| && forall i :: 0 <= i < |lines| ==> r[i] == EnvEntry(lines[i])
  {
    seq(|lines|, i requires 0 <= i < |lines| => EnvEntry(lines[i]))
  }

  /** One assignment applied: a key already set is never overwritten. */
  function ApplyEnvEntry(vars: map<string, string>, entry: Option<(string, string)>): map<string, string> {
    match entry
    case None => vars
    case Some((key, value)) => if key in vars then vars else vars[key := value]
  }

  /** The variables after the assignments of a file, in order. */
  function EnvAfter(vars: map<string, string>, entries: seq<Option<(string, string)>>): map<string, string> {
    if entries == [] then vars
    else ApplyEnvEntry(EnvAfter(vars, entries[..|entries| - 1]), entries[|entries| - 1])
  }

  /** Loading never changes a variable that is already set. */
  lemma {:induction false} EnvNeverOverwrites(vars: map<string, string>, entries: seq<Option<(string, string)>>)
    ensures forall k :: k in vars ==> k in EnvAfter(vars, entries) && EnvAfter(vars, entries)[k] == vars[k]
  {
    if entries != [] {
      EnvNeverOverwrites(vars, entries[..|entries| - 1]);
    }
  }

  /** A variable the file adds comes from the first assignment to its key. */
  lemma {:induction false} EnvFirstAssignmentWins(vars: map<string, string>, entries: seq<Option<(string, string)>>,
                                                  k: string)
    requires k in EnvAfter(vars, entries) && k !in vars
    ensures exists i :: 0 <= i < |entries| && entries[i] == Some((k, EnvAfter(vars, entries)[k])) &&
                        forall j :: 0 <= j < i ==> entries[j].None? || entries[j].value.0 != k
  {
    var front := entries[..|entries| - 1];
    var last := entries[|entries| - 1];
    var before := EnvAfter(vars, front);
    if k in before {
      EnvFirstAssignmentWins(vars, front, k);
      assert EnvAfter(vars, entries)[k] == before[k];
      var i :| 0 <= i < |front| && front[i] == Some((k, before[k])) &&
               forall j :: 0 <= j < i ==> front[j].None? || front[j].value.0 != k;
      assert entries[i] == front[i];
      assert forall j :: 0 <= j < i ==> entries[j] == front[j];
    } else {
      assert last == Some((k, EnvAfter(vars, entries)[k]));
      forall j | 0 <= j < |front| ensures front[j].None? || front[j].value.0 != k {
        EnvNoKey(vars, front, k, j);
      }
      assert forall j :: 0 <= j < |entries| - 1 ==> entries[j] == front[j];
    }
  }

  /** A key the assignments did not set is assigned by none of them. */
  lemma {:induction false} EnvNoKey(vars: map<string, string>, entries: seq<Option<(string, string)>>,
                                    k: string, j: nat)
    requires k !in EnvAfter(vars, entries) && j < |entries|
    ensures entries[j].None? || entries[j].value.0 != k
  {
    var front := entries[..|entries| - 1];
    if j < |front| {
      EnvNoKey(vars, front, k, j);
    }
  }

  /** The variables after loading a file whose text is `raw` (`None`
      when it cannot be read). */
  function LoadedVars(vars: map<string, string>, raw: Option<string>): map<string, string> {
    if raw.None? then vars else EnvAfter(vars, EnvEntries(Split(raw.value, '\n')))
  }

  /** The loop body's parsing of one line, step by step. */
  method ParseEnvLine(line: string) returns (entry: Option<(string, string)>)
    ensures entry == EnvEntry(line)
  {
    var trimmed := Trim(line);
    if trimmed == [] || StartsWith(trimmed, "#") {
      return None;
    }
    var eqIndex := IndexOf(trimmed, "=");
    if eqIndex.None? {
      return None;
    }
    var key := Trim(trimmed[..eqIndex.value]);
    if key == [] {
      return None;
    }
    var value := Trim(trimmed[eqIndex.value + 1..]);
    entry := Some((key, StripQuotes(value)));
  }

  /** `process.env`, as far as the loader touches it. */
  class Environment {
    var vars: map<string, string>

    constructor (vars: map<string, string>)
      ensures this.vars == vars
    {
      this.vars := vars;
    }

    /** `loadEnvFile`: `raw` is the file's text, `None` when it cannot be
        read (the error is reported or ignored; nothing is set). Lines are
        split on `\n`; a `\r` before it is removed by the trim. */
    method LoadEnvFile(raw: Option<string>)
      modifies this
      ensures vars == LoadedVars(old(vars), raw)
    {
      if raw.None? {
        return;
      }
      var lines := Split(raw.value, '\n');
      for i := 0 to |lines|
        invariant vars == EnvAfter(old(vars), EnvEntries(lines[..i]))
      {
        EnvAfterStep(old(vars), lines, i);
        var entry := ParseEnvLine(lines[i]);
        if entry.Some? && entry.value.0 !in vars {
          vars := vars[entry.value.0 := entry.value.1];
        }
      }
      assert lines[..|lines|] == lines;
    }
  }

  /** One more line applies that line's assignment. */
  lemma EnvAfterStep(vars: map<string, string>, lines: seq<string>, i: nat)
    requires i < |lines|
    ensures EnvAfter(vars, EnvEntries(lines[..i + 1])) ==
            ApplyEnvEntry(EnvAfter(vars, EnvEntries(lines[..i])), EnvEntry(lines[i]))
  {
    var es := EnvEntries(lines[..i + 1]);
    assert es[..i] == EnvEntries(lines[..i]);
    assert es[i] == EnvEntry(lines[i]);
  }

  /** `a || b || c` over variable names: the first one set to a non-empty
      value. */
  function FirstSet(vars: map<string, string>, keys: seq<string>): (r: Option<string>)
    ensures r.Some? ==> r.value != [] && exists k :: k in keys && k in vars && vars[k] == r.value
    ensures r.None? ==> forall k :: k in keys && k in vars ==> vars[k] == []
    ensures forall i :: 0 <= i < |keys| && HasValue(vars, keys[i]) && (forall j :: 0 <= j < i ==> !HasValue(vars, keys[j])) ==>
      r == Some(vars[keys[i]])
  {
    if keys == [] then None
    else if HasValue(vars, keys[0]) then Some(vars[keys[0]])
    else
      var r := FirstSet(vars, keys[1..]);
      assert forall i :: 1 <= i < |keys| ==> keys[i] == keys[1..][i - 1];
      r
  }

  /** `process.env[key]` is truthy: set to a non-empty value. */
  predicate HasValue(vars: map<string, string>, key: string) {
    key in vars && vars[key] != []
  }

  function SupabaseUrl(vars: map<string, string>): Option<string> {
    FirstSet(vars, ["NEXT_PUBLIC_SUPABASE_URL", "SUPABASE_URL", "SUPABASE_PROJECT_URL"])
  }

  function SupabaseKey(vars: map<string, string>): Option<string> {
    FirstSet(vars, ["SUPABASE_SERVICE_ROLE_KEY", "SUPABASE_ADMIN_KEY", "SUPABASE_SECRET_KEY"])
  }

  // ---------------------------------------------------------- options

  datatype Options = Options(dryRun: bool, openOnly: bool, limit: Option<nat>)

  /** The limit one argument sets: `--limit=N` with `N` (the text after the
      first `=`, up to the next) parsing to a positive integer. */
  function LimitArg(arg: string): (r: Option<nat>)
    ensures r.Some? ==> r.value > 0 && StartsWith(arg, "--limit=")
  {
    if !StartsWith(arg, "--limit=") then None
    else
      var parts := Split(arg, '=');
      var text := if |parts| > 1 then parts[1] else "";
      var value := ParseInt(text);
      if value.Some? && value.value > 0 then Some(value.value as nat) else None
  }

  /** The limit after all arguments: the last valid `--limit=` wins, and
      invalid ones are ignored. */
  function LimitOf(args: seq<string>): (r: Option<nat>)
    ensures r.Some? ==> r.value > 0 && exists i :: 0 <= i < |args| && LimitArg(args[i]) == r
    ensures r.None? <==> forall i :: 0 <= i < |args| ==> LimitArg(args[i]).None?
  {
    if args == [] then None
    else
      var last := LimitArg(args[|args| - 1]);
      var front := args[..|args| - 1];
      if last.Some? then last
      else
        var r := LimitOf(front);
        assert forall i :: 0 <= i < |front| ==> args[i] == front[i];
        r
  }

  /** `split("=")` of a key, `=` and a text free of `=`: the key and the
      text. */
  lemma {:induction false} SplitAssignment(key: string, text: string)
    requires '=' !in key && '=' !in text
    ensures Split(key + "=" + text, '=') == [key, text]
  {
    if key == [] {
      assert key + "=" + text == "=" + text;
      assert ("=" + text)[1..] == text;
      SplitFree(text, '=');
    } else {
      SplitAssignment(key[1..], text);
      assert (key + "=" + text)[1..] == key[1..] + "=" + text;
      assert [key[0]] + key[1..] == key;
    }
  }

  /** A text without the separator splits into itself. */
  lemma {:induction false} SplitFree(s: string, sep: char)
    requires sep !in s
    ensures Split(s, sep) == [s]
  {
    if s != [] {
      SplitFree(s[1..], sep);
      assert [s[0]] + s[1..] == s;
    }
  }

  /** `--limit=N` for a positive `N` written in decimal sets the limit to
      `N`. */
  lemma LimitArgOfNumber(n: nat)
    requires n > 0
    ensures LimitArg("--limit=" + NatToString(n)) == Some(n)
  {
    var digits := NatToString(n);
    var arg := "--limit=" + digits;
    assert arg[..|"--limit="|] == "--limit=";
    assert '=' !in digits by {
      forall j | 0 <= j < |digits| ensures digits[j] != '=' {
        assert IsDigit(digits[j]);
      }
    }
    assert arg == "--limit" + "=" + digits;
    SplitAssignment("--limit", digits);
    ParseIntOfNatToString(n);
  }

  /** One more argument: a valid limit replaces the one before. */
  lemma LimitOfStep(args: seq<string>, i: nat)
    requires i < |args|
    ensures LimitOf(args[..i + 1]) == if LimitArg(args[i]).Some? then LimitArg(args[i]) else LimitOf(args[..i])
  {
    assert args[..i + 1][..i] == args[..i];
  }

  /** The last valid `--limit=` argument is the one that wins. */
  lemma {:induction false} LimitOfIsLast(args: seq<string>, i: nat)
    requires i < |args| && LimitArg(args[i]).Some?
    requires forall j :: i < j < |args| ==> LimitArg(args[j]).None?
    ensures LimitOf(args) == LimitArg(args[i])
  {
    if i < |args| - 1 {
      var front := args[..|args| - 1];
      assert LimitArg(args[|args| - 1]).None?;
      assert forall j :: i < j < |front| ==> front[j] == args[j];
      LimitOfIsLast(front, i);
    }
  }

  function OptionsOf(args: seq<string>): Options {
    Options("--dry-run" in args, "--open-only" in args, LimitOf(args))
  }

  /** The command-line options, read in one pass over the arguments. */
  method ParseOptions(args: seq<string>) returns (options: Options)
    ensures options.dryRun <==> "--dry-run" in args
    ensures options.openOnly <==> "--open-only" in args
    ensures options.limit == LimitOf(args)
  {
    options := Options("--dry-run" in args, "--open-only" in args, None);
    for i := 0 to |args|
      invariant options.dryRun == ("--dry-run" in args) && options.openOnly == ("--open-only" in args)
      invariant options.limit == LimitOf(args[..i])
    {
      var value := LimitArg(args[i]);
      LimitOfStep(args, i);
      if value.Some? {
        options := options.(limit := value);
      }
    }
    assert args[..|args|] == args;
  }

  // ---------------------------------------------------------- legacy rows

  /** A sheet cell: text, a boolean, or another value given by its text
      rendering (`String(value)`). */
  datatype Cell = Str(text: string) | Bool(flag: bool) | Other(rendered: string)

  /** `String(value)`. */
  function CellText(c: Cell): string {
    match c
    case Str(t) => t
    case Bool(b) => if b then "true" else "false"
    case Other(r) => r
  }

  /** JavaScript falsiness of a cell. */
  predicate Falsy(c: Cell) {
    c == Str("") || c == Bool(false) || c == Other("0") || c == Other("NaN")
  }

  /** `new Map(headers.map((h, i) => [h, i]))`: the last column with the
      header. */
  function HeaderIndex(headers: seq<string>, key: string): (r: Option<nat>)
    ensures r.Some? ==> r.value < |headers| && headers[r.value] == key &&
                        forall j :: r.value < j < |headers| ==> headers[j] != key
    ensures r.None? ==> key !in headers
  {
    if headers == [] then None
    else if headers[|headers| - 1] == key then Some(|headers| - 1)
    else
      var r := HeaderIndex(headers[..|headers| - 1], key);
      assert forall j :: 0 <= j < |headers| - 1 ==> headers[j] == headers[..|headers| - 1][j];
      r
  }

  /** `getValue`: the cell under the header, `""` when the header or the
      cell is missing (a missing cell is `None`). */
  function GetValue(headers: seq<string>, row: seq<Option<Cell>>, key: string): Cell {
    match HeaderIndex(headers, key)
    case None => Str("")
    case Some(i) => if i < |row| && row[i].Some? then row[i].value else Str("")
  }

  /** A legacy task, as mapped from a sheet row. */
  datatype LegacyTask = LegacyTask(
    legacyId: Option<string>,
    projectId: Option<string>,
    title: string,
    description: Option<string>,
    status: Status,
    dueDate: Day,
    createdAt: Minute,
    completedAt: Option<Minute>,
    urgency: Priority,
    urls: seq<string>,
    followUpItem: bool)

  /** `STATUS_MAP[...] ?? "open"`: the four capitalised names, exactly. */
  function LegacyStatus(text: string): (s: Status)
    ensures text !in {"Open", "Completed", "Archived", "Waiting"} ==> s == Open
  {
    if text == "Completed" then Completed
    else if text == "Archived" then Archived
    else if text == "Waiting" then Waiting
    else Open
  }

  /** The urgency: the trimmed text when it names a priority, else P3. */
  function LegacyUrgency(c: Cell): (p: Priority)
    ensures PriorityNamed(Trim(CellText(c))).Some? ==> PriorityName(p) == Trim(CellText(c))
    ensures PriorityNamed(Trim(CellText(c))).None? ==> p == P3
  {
    match PriorityNamed(Trim(CellText(c)))
    case Some(p) => p
    case None => P3
  }

  /** `FollowUpItem`: a boolean as is, text when its trimmed lower-case
      form is one of true, 1, y, yes; anything else is false. */
  function LegacyFollowUp(c: Cell): bool {
    match c
    case Bool(b) => b
    case Str(t) => ToLower(Trim(t)) in ["true", "1", "y", "yes"]
    case Other(_) => false
  }

  /** The follow-up flag of a text depends only on its trimmed lower-case
      form: normalising the text first changes nothing. */
  lemma LegacyFollowUpNormalised(t: string)
    ensures LegacyFollowUp(Str(t)) == LegacyFollowUp(Str(ToLower(Trim(t))))
  {
    var u := ToLower(Trim(t));
    TrimEnds(t);
    if u != [] {
      assert !IsSpace(u[0]) && !IsSpace(u[|u| - 1]);
    }
    TrimStartFixed(u);
    TrimEndFixed(u);
    ToLowerIdempotent(Trim(t));
  }

  /** The follow-up flag ignores case. */
  lemma LegacyFollowUpYes()
    ensures LegacyFollowUp(Str("YES"))
  {
    TrimStartFixed("YES");
    TrimEndFixed("YES");
    assert ToLower("YES") == "yes";
  }

  /** Other text, and values that are neither text nor booleans, read as
      false. */
  lemma LegacyFollowUpNo()
    ensures !LegacyFollowUp(Str("no")) && !LegacyFollowUp(Str("")) && !LegacyFollowUp(Other("1"))
  {
    LowerTrimmedNo();
    LowerTrimmedEmpty();
    assert "no" !in ["true", "1", "y", "yes"];
    assert "" !in ["true", "1", "y", "yes"];
  }

  lemma LowerTrimmedNo()
    ensures ToLower(Trim("no")) == "no"
  {
    TrimStartFixed("no");
    TrimEndFixed("no");
  }

  lemma LowerTrimmedEmpty()
    ensures ToLower(Trim("")) == ""
  {
  }

  /** A date cell: `None` when falsy or when the date parser rejects its
      text. */
  function DateOf(c: Cell, parseDay: string -> Option<Day>): Option<Day> {
    if Falsy(c) then None else parseDay(CellText(c))
  }

  function TimeOf(c: Cell, parseTime: string -> Option<Minute>): Option<Minute> {
    if Falsy(c) then None else parseTime(CellText(c))
  }

  /** The legacy task of one sheet row, on day `today` at instant `now`. */
  function LegacyTaskOf(headers: seq<string>, row: seq<Option<Cell>>, today: Day, now: Minute,
                        parseDay: string -> Option<Day>, parseTime: string -> Option<Minute>): (t: LegacyTask)
    ensures t.title == Trim(CellText(GetValue(headers, row, "Title"))) && Trim(t.title) == t.title
    ensures DateOf(GetValue(headers, row, "Due Date"), parseDay).None? ==> t.dueDate == today
    ensures forall u :: u in t.urls ==> u != [] && Trim(u) == u
  {
    var v := (key: string) => GetValue(headers, row, key);
    var due := DateOf(v("Due Date"), parseDay);
    var created := TimeOf(v("Created Date"), parseTime);
    var urls := CleanList([CellText(v("URL1")), CellText(v("URL2")), CellText(v("URL3"))]);
    CleanListMembers([CellText(v("URL1")), CellText(v("URL2")), CellText(v("URL3"))]);
    TrimIdempotent(CellText(v("Title")));
    LegacyTask(
      NonBlank(CellText(v("Task ID"))),
      NonBlank(CellText(v("Project ID"))),
      Trim(CellText(v("Title"))),
      NonBlank(CellText(v("Description"))),
      LegacyStatus(CellText(v("Status"))),
      if due.Some? then due.value else today,
      if created.Some? then created.value else now,
      TimeOf(v("Completed Date"), parseTime),
      LegacyUrgency(v("Urgency")),
      urls,
      LegacyFollowUp(v("FollowUpItem")))
  }

  /** The row's title is not blank. */
  predicate Titled(headers: seq<string>, row: seq<Option<Cell>>) {
    Trim(CellText(GetValue(headers, row, "Title"))) != []
  }

  /** `rows.filter(...)`: the rows with a non-blank title. */
  function TitledRows(headers: seq<string>, rows: seq<seq<Option<Cell>>>): (r: seq<seq<Option<Cell>>>)
    ensures forall row :: row in r <==> row in rows && Titled(headers, row)
  {
    if rows == [] then []
    else
      assert rows == [rows[0]] + rows[1..];
      (if Titled(headers, rows[0]) then [rows[0]] else []) + TitledRows(headers, rows[1..])
  }

  /** The filter keeps sheet order: it distributes over concatenation. */
  lemma {:induction false} TitledRowsAppend(headers: seq<string>, a: seq<seq<Option<Cell>>>, b: seq<seq<Option<Cell>>>)
    ensures TitledRows(headers, a + b) == TitledRows(headers, a) + TitledRows(headers, b)
  {
    if a == [] {
      assert a + b == b;
    } else {
      assert (a + b)[1..] == a[1..] + b;
      TitledRowsAppend(headers, a[1..], b);
    }
  }

  /** `.map(f)`. */
  function MapSeq<T, U>(xs: seq<T>, f: T -> U): (ys: seq<U>)
    ensures |ys| == |xs| && forall i :: 0 <= i < |xs| ==> ys[i] == f(xs[i])
  {
    seq(|xs|, i requires 0 <= i < |xs| => f(xs[i]))
  }

  lemma MapSeqAppend<T, U>(xs: seq<T>, zs: seq<T>, f: T -> U)
    ensures MapSeq(xs + zs, f) == MapSeq(xs, f) + MapSeq(zs, f)
  {
    var l := MapSeq(xs + zs, f);
    var r := MapSeq(xs, f) + MapSeq(zs, f);
    forall i | 0 <= i < |l| ensures l[i] == r[i] {
      if i < |xs| { assert (xs + zs)[i] == xs[i]; } else { assert (xs + zs)[i] == zs[i - |xs|]; }
    }
  }

  /** The mapping callback: a row to its legacy task. */
  function TaskOfRow(headers: seq<string>, today: Day, now: Minute,
                     parseDay: string -> Option<Day>, parseTime: string -> Option<Minute>): seq<Option<Cell>> -> LegacyTask {
    row => LegacyTaskOf(headers, row, today, now, parseDay, parseTime)
  }

  /** Every mapped task comes from a titled row, so its title is not blank. */
  lemma MappedTitles(headers: seq<string>, kept: seq<seq<Option<Cell>>>, today: Day, now: Minute,
                     parseDay: string -> Option<Day>, parseTime: string -> Option<Minute>)
    requires forall row :: row in kept ==> Titled(headers, row)
    ensures forall t :: t in MapSeq(kept, TaskOfRow(headers, today, now, parseDay, parseTime)) ==>
      t.title != [] && Trim(t.title) == t.title
  {
    var ts := MapSeq(kept, TaskOfRow(headers, today, now, parseDay, parseTime));
    forall t | t in ts ensures t.title != [] && Trim(t.title) == t.title {
      var i :| 0 <= i < |kept| && ts[i] == t;
      assert kept[i] in kept;
    }
  }

  /** Every row is mapped. */
  lemma MappedAll(headers: seq<string>, kept: seq<seq<Option<Cell>>>, today: Day, now: Minute,
                  parseDay: string -> Option<Day>, parseTime: string -> Option<Minute>)
    ensures forall row :: row in kept ==>
      LegacyTaskOf(headers, row, today, now, parseDay, parseTime) in MapSeq(kept, TaskOfRow(headers, today, now, parseDay, parseTime))
  {
    var ts := MapSeq(kept, TaskOfRow(headers, today, now, parseDay, parseTime));
    forall row | row in kept ensures LegacyTaskOf(headers, row, today, now, parseDay, parseTime) in ts {
      var i :| 0 <= i < |kept| && kept[i] == row;
      assert ts[i] == LegacyTaskOf(headers, row, today, now, parseDay, parseTime);
    }
  }

  /** `.filter(...).map(...)`: the titled rows mapped, in sheet order. */
  function LegacyTasks(headers: seq<string>, rows: seq<seq<Option<Cell>>>, today: Day, now: Minute,
                       parseDay: string -> Option<Day>, parseTime: string -> Option<Minute>): (ts: seq<LegacyTask>)
    ensures |ts| <= |rows|
    ensures forall t :: t in ts ==> t.title != [] && Trim(t.title) == t.title
    ensures forall row :: row in rows && Titled(headers, row) ==>
      LegacyTaskOf(headers, row, today, now, parseDay, parseTime) in ts
  {
    var kept := TitledRows(headers, rows);
    TitledRowsFewer(headers, rows);
    MappedTitles(headers, kept, today, now, parseDay, parseTime);
    MappedAll(headers, kept, today, now, parseDay, parseTime);
    MapSeq(kept, TaskOfRow(headers, today, now, parseDay, parseTime))
  }

  /** The mapping keeps sheet order: rows appended below yield tasks
      appended after. */
  lemma LegacyTasksAppend(headers: seq<string>, a: seq<seq<Option<Cell>>>, b: seq<seq<Option<Cell>>>,
                          today: Day, now: Minute,
                          parseDay: string -> Option<Day>, parseTime: string -> Option<Minute>)
    ensures LegacyTasks(headers, a + b, today, now, parseDay, parseTime) ==
            LegacyTasks(headers, a, today, now, parseDay, parseTime) + LegacyTasks(headers, b, today, now, parseDay, parseTime)
  {
    TitledRowsAppend(headers, a, b);
    MapSeqAppend(TitledRows(headers, a), TitledRows(headers, b), TaskOfRow(headers, today, now, parseDay, parseTime));
  }

  lemma {:induction false} TitledRowsFewer(headers: seq<string>, rows: seq<seq<Option<Cell>>>)
    ensures |TitledRows(headers, rows)| <= |rows|
  {
    if rows != [] {
      TitledRowsFewer(headers, rows[1..]);
    }
  }

  /** `--open-only`. */
  function OpenOnly(ts: seq<LegacyTask>): (r: seq<LegacyTask>)
    ensures forall t :: t in r <==> t in ts && t.status == Open
  {
    if ts == [] then []
    else
      assert ts == [ts[0]] + ts[1..];
      (if ts[0].status == Open then [ts[0]] else []) + OpenOnly(ts[1..])
  }

  /** The filter keeps order: it distributes over concatenation. */
  lemma {:induction false} OpenOnlyAppend(a: seq<LegacyTask>, b: seq<LegacyTask>)
    ensures OpenOnly(a + b) == OpenOnly(a) + OpenOnly(b)
  {
    if a == [] {
      assert a + b == b;
    } else {
      assert (a + b)[1..] == a[1..] + b;
      OpenOnlyAppend(a[1..], b);
    }
  }

  /** The tasks to process: open ones only when asked, then the first
      `limit`. */
  function Selected(ts: seq<LegacyTask>, options: Options): (r: seq<LegacyTask>)
    ensures options.limit.Some? ==> |r| <= options.limit.value
    ensures options.openOnly ==> forall t :: t in r ==> t.status == Open
    ensures forall t :: t in r ==> t in ts
    ensures var a := if options.openOnly then OpenOnly(ts) else ts;
      |r| == (if options.limit.Some? && options.limit.value < |a| then options.limit.value else |a|) &&
      r == a[..|r|]
    ensures !options.openOnly && options.limit.None? ==> r == ts
  {
    var a := if options.openOnly then OpenOnly(ts) else ts;
    if options.limit.Some? && options.limit.value < |a| then
      assert forall t :: t in a[..options.limit.value] ==> t in a;
      a[..options.limit.value]
    else a
  }

  // ---------------------------------------------------------- de-duplication

  /** The `title::due::urgency` key. The due date and the priority
      contain no `::`, so equal texts are equal triples. */
  datatype Key = Key(title: string, due: Option<Day>, urgency: Priority)

  /** The key as the script computes it for a legacy task: from the title
      before truncation. */
  function KeyAsWritten(t: LegacyTask): Key {
    Key(t.title, Some(t.dueDate), t.urgency)
  }

  /** The key of the row that will be stored for a legacy task. */
  function ImportKey(t: LegacyTask): Key {
    Key(Truncated(t.title), Some(t.dueDate), t.urgency)
  }

  /** `new Set(keys)`. */
  function KeySet(keys: seq<Key>): (s: set<Key>)
    ensures forall k :: k in s <==> k in keys
  {
    set k | k in keys
  }

  /** The filter over `existingKeys`: a task whose key is already known is
      dropped, and each kept task's key becomes known. */
  function Deduped(ts: seq<LegacyTask>, seen: set<Key>, key: LegacyTask -> Key): seq<LegacyTask> {
    if ts == [] then []
    else if key(ts[0]) in seen then Deduped(ts[1..], seen, key)
    else [ts[0]] + Deduped(ts[1..], seen + {key(ts[0])}, key)
  }

  /** The kept tasks come from the input in order, with keys that are
      pairwise distinct and not already known. */
  lemma {:induction false} DedupedDistinct(ts: seq<LegacyTask>, seen: set<Key>, key: LegacyTask -> Key)
    ensures var r := Deduped(ts, seen, key);
      && (forall t :: t in r ==> t in ts && key(t) !in seen)
      && (forall i, j :: 0 <= i < j < |r| ==> key(r[i]) != key(r[j]))
  {
    if ts != [] {
      DedupedDistinct(ts[1..], seen, key);
      DedupedDistinct(ts[1..], seen + {key(ts[0])}, key);
      if key(ts[0]) !in seen {
        var rest := Deduped(ts[1..], seen + {key(ts[0])}, key);
        var r := [ts[0]] + rest;
        forall i, j | 0 <= i < j < |r| ensures key(r[i]) != key(r[j]) {
          if i == 0 {
            assert r[j] == rest[j - 1] && r[j] in rest;
          } else {
            assert r[i] == rest[i - 1] && r[j] == rest[j - 1];
          }
        }
      }
    }
  }

  /** Every task dropped had a known key or the key of a kept task. */
  lemma {:induction false} DedupedCovers(ts: seq<LegacyTask>, seen: set<Key>, key: LegacyTask -> Key)
    ensures forall t :: t in ts ==> key(t) in seen || exists u :: u in Deduped(ts, seen, key) && key(u) == key(t)
  {
    if ts != [] {
      DedupedCovers(ts[1..], seen, key);
      DedupedCovers(ts[1..], seen + {key(ts[0])}, key);
      assert ts == [ts[0]] + ts[1..];
    }
  }

  /** When every key is already known, nothing is kept. */
  lemma {:induction false} DedupedAllKnown(ts: seq<LegacyTask>, seen: set<Key>, key: LegacyTask -> Key)
    requires forall t :: t in ts ==> key(t) in seen
    ensures Deduped(ts, seen, key) == []
  {
    if ts != [] {
      assert forall t :: t in ts[1..] ==> t in ts;
      DedupedAllKnown(ts[1..], seen, key);
    }
  }

  /** Position `i` holds the first task with its key: the key is not
      already known and no earlier task carries it. */
  predicate FirstOfKey(ts: seq<LegacyTask>, i: nat, seen: set<Key>, key: LegacyTask -> Key)
    requires i < |ts|
  {
    key(ts[i]) !in seen && forall j :: 0 <= j < i ==> key(ts[j]) != key(ts[i])
  }

  /** The reference filter, position by position: the tasks that are the
      first with their key, at increasing positions. */
  function FirstOfEachKey(ts: seq<LegacyTask>, seen: set<Key>, key: LegacyTask -> Key): seq<LegacyTask> {
    if ts == [] then []
    else
      FirstOfEachKey(ts[..|ts| - 1], seen, key) +
      (if FirstOfKey(ts, |ts| - 1, seen, key) then [ts[|ts| - 1]] else [])
  }

  /** A task appended to the input is kept exactly when it is the first with
      its key. */
  lemma {:induction false} DedupedSnoc(ts: seq<LegacyTask>, x: LegacyTask, seen: set<Key>, key: LegacyTask -> Key)
    ensures Deduped(ts + [x], seen, key) ==
            Deduped(ts, seen, key) +
            (if key(x) !in seen && (forall j :: 0 <= j < |ts| ==> key(ts[j]) != key(x)) then [x] else [])
  {
    if ts == [] {
      assert [] + [x] == [x];
      assert [x][1..] == [];
    } else {
      var k := key(ts[0]);
      assert (ts + [x])[0] == ts[0] && (ts + [x])[1..] == ts[1..] + [x];
      assert forall j :: 1 <= j < |ts| ==> ts[j] == ts[1..][j - 1];
      if k in seen {
        DedupedSnoc(ts[1..], x, seen, key);
      } else {
        DedupedSnoc(ts[1..], x, seen + {k}, key);
      }
    }
  }

  /** The filter with the growing key set keeps, in input order, exactly the
      first task of each new key. */
  lemma {:induction false} DedupedIsFirstOfEachKey(ts: seq<LegacyTask>, seen: set<Key>, key: LegacyTask -> Key)
    ensures Deduped(ts, seen, key) == FirstOfEachKey(ts, seen, key)
  {
    if ts != [] {
      var front := ts[..|ts| - 1];
      var x := ts[|ts| - 1];
      DedupedIsFirstOfEachKey(front, seen, key);
      assert ts == front + [x];
      DedupedSnoc(front, x, seen, key);
      assert forall j :: 0 <= j < |front| ==> front[j] == ts[j];
    }
  }

  /** One step of the filter from position `i`. */
  lemma DedupedStep(ts: seq<LegacyTask>, i: nat, seen: set<Key>, key: LegacyTask -> Key)
    requires i < |ts|
    ensures Deduped(ts[i..], seen, key) ==
            if key(ts[i]) in seen then Deduped(ts[i + 1..], seen, key)
            else [ts[i]] + Deduped(ts[i + 1..], seen + {key(ts[i])}, key)
  {
    assert ts[i..][1..] == ts[i + 1..];
  }

  /** The filter's loop, with the growing set of known keys. */
  method Dedupe(ts: seq<LegacyTask>, existing: seq<Key>) returns (kept: seq<LegacyTask>)
    ensures kept == Deduped(ts, KeySet(existing), ImportKey)
  {
    kept := DedupeBy(ts, KeySet(existing), ImportKey);
  }

  /** The loop for any key function and set of known keys. */
  method DedupeBy(ts: seq<LegacyTask>, known: set<Key>, key: LegacyTask -> Key) returns (kept: seq<LegacyTask>)
    ensures kept == Deduped(ts, known, key)
  {
    var seen := known;
    kept := [];
    for i := 0 to |ts|
      invariant kept + Deduped(ts[i..], seen, key) == Deduped(ts, known, key)
    {
      DedupedStep(ts, i, seen, key);
      var k := key(ts[i]);
      if k !in seen {
        var rest := Deduped(ts[i + 1..], seen + {k}, key);
        assert (kept + [ts[i]]) + rest == kept + ([ts[i]] + rest);
        seen := seen + {k};
        kept := kept + [ts[i]];
      }
    }
    assert ts[|ts|..] == [];
  }

  // ---------------------------------------------------------- prepared rows

  const TitleMax: nat := 200

  /** `title.slice(0, 200).trimEnd()` for a title over 200 characters. */
  function Truncated(title: string): (r: string)
    ensures |r| <= TitleMax && |r| <= |title| && r == title[..|r|]
    ensures |title| <= TitleMax ==> r == title
  {
    if |title| > TitleMax then TrimEnd(title[..TitleMax]) else title
  }

  /** A row of the insert, as the script prepares it. */
  datatype PreparedRow = PreparedRow(
    title: string,
    description: Option<string>,
    urgency: Priority,
    status: Status,
    dueDate: Day,
    rolloverCount: nat,
    rescheduleCount: nat,
    lastRolledOverAt: Option<Minute>,
    lastRescheduledAt: Option<Minute>,
    tags: Option<seq<string>>,
    context: Option<string>,
    projectId: Option<string>,
    someday: bool,
    followUpItem: bool,
    notes: Option<string>,
    realityCheckStage: Stage,
    realityCheckDueAt: Option<Minute>,
    sortOrder: Option<int>,
    createdAt: Minute,
    updatedAt: Minute,
    completedAt: Option<Minute>,
    urls: Option<seq<string>>)

  /** The prepared row of a legacy task. */
  function PreparedRowOf(t: LegacyTask): PreparedRow {
    PreparedRow(
      Truncated(t.title), t.description, t.urgency, t.status, t.dueDate, 0, 0, None, None,
      if t.legacyId.Some? then Some(["legacy:" + t.legacyId.value]) else None,
      None, t.projectId, false, t.followUpItem, None, NoStage, None, None,
      t.createdAt, if t.completedAt.Some? then t.completedAt.value else t.createdAt,
      if t.status == Completed then t.completedAt else None,
      if t.urls == [] then None else Some(t.urls))
  }

  /** The key the table reports for a stored row. */
  function RowKey(r: PreparedRow): Key {
    Key(r.title, Some(r.dueDate), r.urgency)
  }

  /** A prepared row starts fresh: no rollovers or reschedules, no
      reality check, not parked, a completion time only when completed,
      and a title of at most 200 characters whose key is the import key. */
  lemma PreparedRowFresh(t: LegacyTask)
    ensures var r := PreparedRowOf(t);
      && r.rolloverCount == 0 && r.rescheduleCount == 0
      && r.lastRolledOverAt.None? && r.lastRescheduledAt.None?
      && r.realityCheckStage == NoStage && r.realityCheckDueAt.None? && !r.someday
      && (r.completedAt.Some? ==> r.status == Completed)
      && |r.title| <= TitleMax && RowKey(r) == ImportKey(t)
  {
  }

  datatype Warning = TitleTruncated(legacyId: Option<string>, original: string, truncated: string)

  /** One warning per truncated title, in order. */
  function Warnings(ts: seq<LegacyTask>): (ws: seq<Warning>)
    ensures |ws| <= |ts|
    ensures forall w :: w in ws ==> |w.original| > TitleMax && w.truncated == Truncated(w.original)
  {
    if ts == [] then []
    else
      var last := ts[|ts| - 1];
      Warnings(ts[..|ts| - 1]) +
        (if |last.title| > TitleMax then [TitleTruncated(last.legacyId, last.title, Truncated(last.title))] else [])
  }

  /** Every over-long title is warned about. */
  lemma {:induction false} WarningsComplete(ts: seq<LegacyTask>, t: LegacyTask)
    requires t in ts && |t.title| > TitleMax
    ensures exists w :: w in Warnings(ts) && w.original == t.title
  {
    var last := ts[|ts| - 1];
    if t == last {
      assert TitleTruncated(last.legacyId, last.title, Truncated(last.title)) in Warnings(ts);
    } else {
      assert t in ts[..|ts| - 1] by {
        assert ts == ts[..|ts| - 1] + [last];
      }
      WarningsComplete(ts[..|ts| - 1], t);
      var w :| w in Warnings(ts[..|ts| - 1]) && w.original == t.title;
      assert w in Warnings(ts);
    }
  }

  /** The prepared rows of the tasks, in order. */
  function PreparedRows(ts: seq<LegacyTask>): (rows: seq<PreparedRow>)
    ensures |rows| == |ts|
  {
    if ts == [] then [] else PreparedRows(ts[..|ts| - 1]) + [PreparedRowOf(ts[|ts| - 1])]
  }

  /** The `j`-th prepared row is the `j`-th task's. */
  lemma {:induction false} PreparedRowsAt(ts: seq<LegacyTask>)
    ensures forall j :: 0 <= j < |ts| ==> PreparedRows(ts)[j] == PreparedRowOf(ts[j])
  {
    if ts != [] {
      PreparedRowsAt(ts[..|ts| - 1]);
    }
  }

  /** The `map` over the tasks, collecting warnings as it goes. */
  method PrepareRows(ts: seq<LegacyTask>) returns (rows: seq<PreparedRow>, warnings: seq<Warning>)
    ensures rows == PreparedRows(ts)
    ensures warnings == Warnings(ts)
  {
    rows := [];
    warnings := [];
    for i := 0 to |ts|
      invariant rows == PreparedRows(ts[..i])
      invariant warnings == Warnings(ts[..i])
    {
      assert ts[..i + 1][..i] == ts[..i];
      ghost var before := warnings;
      var title := ts[i].title;
      if |title| > TitleMax {
        var original := title;
        title := TrimEnd(title[..TitleMax]);
        warnings := warnings + [TitleTruncated(ts[i].legacyId, original, title)];
      }
      assert warnings == before +
        (if |ts[i].title| > TitleMax then [TitleTruncated(ts[i].legacyId, ts[i].title, Truncated(ts[i].title))] else []);
      rows := rows + [PreparedRowOf(ts[i])];
    }
    assert ts[..|ts|] == ts;
  }

  /** The rows the script would insert. */
  function Plan(ts: seq<LegacyTask>, existing: seq<Key>): seq<PreparedRow> {
    var kept := Deduped(ts, KeySet(existing), ImportKey);
    seq(|kept|, j requires 0 <= j < |kept| => PreparedRowOf(kept[j]))
  }

  /** The planned rows have pairwise distinct keys, none already in the
      table. */
  lemma PlanDistinct(ts: seq<LegacyTask>, existing: seq<Key>)
    ensures var rows := Plan(ts, existing);
      && (forall r :: r in rows ==> RowKey(r) !in existing)
      && (forall i, j :: 0 <= i < j < |rows| ==> RowKey(rows[i]) != RowKey(rows[j]))
  {
    var kept := Deduped(ts, KeySet(existing), ImportKey);
    DedupedDistinct(ts, KeySet(existing), ImportKey);
    forall r | r in Plan(ts, existing) ensures RowKey(r) !in existing {
      var j :| 0 <= j < |kept| && Plan(ts, existing)[j] == r;
      assert kept[j] in kept;
    }
  }

  /** The key of each planned row is the import key of the task it
      came from. */
  lemma PlanKeys(ts: seq<LegacyTask>, existing: seq<Key>)
    ensures var kept := Deduped(ts, KeySet(existing), ImportKey);
      var rows := Plan(ts, existing);
      |rows| == |kept| && forall j :: 0 <= j < |rows| ==> RowKey(rows[j]) == ImportKey(kept[j])
  {
    var kept := Deduped(ts, KeySet(existing), ImportKey);
    forall j | 0 <= j < |kept| ensures RowKey(Plan(ts, existing)[j]) == ImportKey(kept[j]) {
      PreparedRowFresh(kept[j]);
    }
  }

  /** Keys known before, or the key of some kept task, are known once the
      kept tasks' keys are added. */
  lemma CoveredByKeys(ts: seq<LegacyTask>, existing: seq<Key>, kept: seq<LegacyTask>, keys: seq<Key>)
    requires |keys| == |kept| && forall j :: 0 <= j < |kept| ==> keys[j] == ImportKey(kept[j])
    requires forall t :: t in ts ==>
      ImportKey(t) in KeySet(existing) || exists u :: u in kept && ImportKey(u) == ImportKey(t)
    ensures forall t :: t in ts ==> ImportKey(t) in KeySet(existing + keys)
  {
    var more := existing + keys;
    forall t | t in ts ensures ImportKey(t) in more {
      if ImportKey(t) !in existing {
        var u :| u in kept && ImportKey(u) == ImportKey(t);
        var j :| 0 <= j < |kept| && kept[j] == u;
        assert more[|existing| + j] == keys[j];
      } else {
        var i :| 0 <= i < |existing| && existing[i] == ImportKey(t);
        assert more[i] == ImportKey(t);
      }
    }
  }

  /** Running the import again over a table that received its rows
      inserts nothing. */
  lemma PlanIdempotent(ts: seq<LegacyTask>, existing: seq<Key>)
    ensures var rows := Plan(ts, existing);
            Plan(ts, existing + seq(|rows|, j requires 0 <= j < |rows| => RowKey(rows[j]))) == []
  {
    var kept := Deduped(ts, KeySet(existing), ImportKey);
    var rows := Plan(ts, existing);
    var keys := seq(|rows|, j requires 0 <= j < |rows| => RowKey(rows[j]));
    PlanKeys(ts, existing);
    DedupedCovers(ts, KeySet(existing), ImportKey);
    CoveredByKeys(ts, existing, kept, keys);
    DedupedAllKnown(ts, KeySet(existing + keys), ImportKey);
  }

  /** With the key taken before truncation, as the script has it, a task
      whose title is over 200 characters is inserted again by a second
      run, and two titles that differ only after character 200 are both
      inserted under the same stored key. */
  lemma KeyAsWrittenDuplicates(due: Day, now: Minute)
    ensures var t := LegacyTask(None, None, seq(201, _ => 'a'), None, Open, due, now, None, P3, [], false);
      Deduped([t], {RowKey(PreparedRowOf(t))}, KeyAsWritten) == [t]
    ensures var t1 := LegacyTask(None, None, seq(200, _ => 'a') + "b", None, Open, due, now, None, P3, [], false);
            var t2 := t1.(title := seq(200, _ => 'a') + "c");
      && Deduped([t1, t2], {}, KeyAsWritten) == [t1, t2]
      && RowKey(PreparedRowOf(t1)) == RowKey(PreparedRowOf(t2))
  {
    var long := seq(201, _ => 'a');
    var stem := seq(200, _ => 'a');
    assert long[..TitleMax] == stem;
    TrimEndFixed(stem);
    assert |Truncated(long)| == 200 != |long|;
    var t1 := LegacyTask(None, None, stem + "b", None, Open, due, now, None, P3, [], false);
    var t2 := t1.(title := stem + "c");
    assert (stem + "b")[..TitleMax] == stem && (stem + "c")[..TitleMax] == stem;
    assert (stem + "b")[200] != (stem + "c")[200];
    assert KeyAsWritten(t1) != KeyAsWritten(t2);
    var none: set<Key> := {};
    assert none + {KeyAsWritten(t1)} == {KeyAsWritten(t1)};
    assert [t1, t2][1..] == [t2];
    assert Deduped([t2], {KeyAsWritten(t1)}, KeyAsWritten) == [t2] + Deduped([], {KeyAsWritten(t1), KeyAsWritten(t2)}, KeyAsWritten);
  }

  // ---------------------------------------------------------- insert

  const ChunkSize: nat := 50

  /** `preparedRows.slice(index, index + 50)` for index 0, 50, 100, … */
  function Chunks<T>(rows: seq<T>): (cs: seq<seq<T>>)
    ensures forall c :: c in cs ==> 0 < |c| <= ChunkSize
    decreases |rows|
  {
    if rows == [] then []
    else if |rows| <= ChunkSize then [rows]
    else [rows[..ChunkSize]] + Chunks(rows[ChunkSize..])
  }

  function Flatten<T>(cs: seq<seq<T>>): seq<T> {
    if cs == [] then [] else cs[0] + Flatten(cs[1..])
  }

  /** The chunks cover the rows in order. */
  lemma {:induction false} ChunksFlatten<T>(rows: seq<T>)
    ensures Flatten(Chunks(rows)) == rows
    decreases |rows|
  {
    if |rows| > ChunkSize {
      var rest := rows[ChunkSize..];
      var cs := Chunks(rows);
      ChunksFlatten(rest);
      assert cs[0] == rows[..ChunkSize] && cs[1..] == Chunks(rest);
      calc {
        Flatten(cs);
        cs[0] + Flatten(cs[1..]);
        rows[..ChunkSize] + rest;
        rows;
      }
    } else if rows != [] {
      assert Chunks(rows) == [rows];
      assert [rows][1..] == [];
    }
  }

  /** Batch `b - 1` of the rows after the first batch is batch `b` of all
      rows. */
  lemma ChunkShift<T>(rows: seq<T>, b: nat)
    requires |rows| > ChunkSize && 1 <= b
    requires b * ChunkSize < |rows|
    ensures var rest := rows[ChunkSize..];
      rest[(b - 1) * ChunkSize..if b * ChunkSize < |rest| then b * ChunkSize else |rest|] ==
      rows[b * ChunkSize..if (b + 1) * ChunkSize < |rows| then (b + 1) * ChunkSize else |rows|]
  {
    assert (b - 1) * ChunkSize + ChunkSize == b * ChunkSize;
    assert b * ChunkSize + ChunkSize == (b + 1) * ChunkSize;
  }

  /** Batch `b` holds rows `50 * b` up to `50 * b + 50`, and there are
      `ceil(n / 50)` batches. */
  lemma {:induction false} ChunkAt<T>(rows: seq<T>)
    ensures |Chunks(rows)| == (|rows| + ChunkSize - 1) / ChunkSize
    ensures forall b :: 0 <= b < |Chunks(rows)| ==>
              Chunks(rows)[b] == rows[b * ChunkSize..if (b + 1) * ChunkSize < |rows| then (b + 1) * ChunkSize else |rows|]
    decreases |rows|
  {
    if |rows| > ChunkSize {
      var rest := rows[ChunkSize..];
      ChunkAt(rest);
      forall b | 1 <= b < |Chunks(rows)|
        ensures Chunks(rows)[b] == rows[b * ChunkSize..if (b + 1) * ChunkSize < |rows| then (b + 1) * ChunkSize else |rows|]
      {
        assert Chunks(rows)[b] == Chunks(rest)[b - 1];
        ChunkShift(rows, b);
      }
    }
  }

  /** The insert loop: batch after batch until one fails (`fails` holds the
      failing batch numbers, from 0). Returns the rows inserted and the
      failing batch, if any. */
  method InsertChunks(rows: seq<PreparedRow>, fails: set<nat>) returns (inserted: seq<PreparedRow>, failed: Option<nat>)
    ensures var batches := Batches(|rows|);
      && (failed.None? <==> forall b :: 0 <= b < batches ==> b !in fails)
      && (failed.None? ==> inserted == rows)
      && (failed.Some? ==> failed.value < batches && failed.value * ChunkSize < |rows| && failed.value in fails &&
                           (forall b :: 0 <= b < failed.value ==> b !in fails) &&
                           inserted == rows[..failed.value * ChunkSize])
  {
    inserted := [];
    var index := 0;
    while index < |rows|
      invariant index % ChunkSize == 0 && index <= |rows| + ChunkSize - 1
      invariant index < |rows| || index == 0 || index - ChunkSize < |rows|
      invariant inserted == rows[..if index < |rows| then index else |rows|]
      invariant forall b :: 0 <= b < index / ChunkSize ==> b !in fails
      decreases |rows| - index
    {
      var end := if index + ChunkSize < |rows| then index + ChunkSize else |rows|;
      var chunk := rows[index..end];
      if index / ChunkSize in fails {
        failed := Some(index / ChunkSize);
        return;
      }
      assert rows[..end] == rows[..index] + chunk;
      inserted := inserted + chunk;
      index := index + ChunkSize;
    }
    failed := None;
  }

  // ---------------------------------------------------------- the script

  datatype Sheet = Sheet(name: string, headers: seq<string>, rows: seq<seq<Option<Cell>>>)

  /** `sheets.find((sheet) => sheet.name === "Tasks")`. */
  function TasksSheet(sheets: seq<Sheet>): (r: Option<Sheet>)
    ensures r.Some? ==> r.value in sheets && r.value.name == "Tasks"
    ensures r.None? ==> forall sh :: sh in sheets ==> sh.name != "Tasks"
    ensures forall i ::
      (0 <= i < |sheets| && IsTasksSheet(sheets[i]) && forall k :: 0 <= k < i ==> !IsTasksSheet(sheets[k]))
      ==> r == Some(sheets[i])
  {
    if sheets == [] then None
    else if sheets[0].name == "Tasks" then Some(sheets[0])
    else
      assert forall sh :: sh in sheets[1..] ==> sh in sheets;
      assert sheets == [sheets[0]] + sheets[1..];
      assert forall i :: 1 <= i < |sheets| ==> sheets[i] == sheets[1..][i - 1];
      TasksSheet(sheets[1..])
  }

  predicate IsTasksSheet(sh: Sheet) {
    sh.name == "Tasks"
  }

  datatype ImportOutcome =
    | MissingCredentials
    | NoTasksSheet
    | FetchFailed
    | NothingToInsert
    | DryRun(rows: seq<PreparedRow>)
    | InsertFailed(batch: nat, inserted: seq<PreparedRow>)
    | Imported(rows: seq<PreparedRow>, warnings: seq<Warning>)

  /** The legacy tasks the script processes. */
  function ToProcess(sheet: Sheet, args: seq<string>, today: Day, now: Minute,
                     parseDay: string -> Option<Day>, parseTime: string -> Option<Minute>): seq<LegacyTask> {
    Selected(LegacyTasks(sheet.headers, sheet.rows, today, now, parseDay, parseTime), OptionsOf(args))
  }

  /** The number of batches of `ChunkSize` rows that `n` rows take. */
  function Batches(n: nat): nat {
    (n + ChunkSize - 1) / ChunkSize
  }

  /** What the script ends with, from the tasks to process on: nothing to
      insert when every task is a duplicate; the planned rows on a dry
      run; otherwise the first failing batch with the rows inserted before
      it, or, when no batch fails, every planned row and the warnings. */
  predicate ImportsAs(toProcess: seq<LegacyTask>, dryRun: bool, existing: seq<Key>, fails: set<nat>, outcome: ImportOutcome) {
    var kept := Deduped(toProcess, KeySet(existing), ImportKey);
    var plan := Plan(toProcess, existing);
    match outcome
    case NothingToInsert => kept == []
    case DryRun(rows) => kept != [] && dryRun && rows == plan
    case InsertFailed(batch, inserted) =>
      && kept != [] && !dryRun && batch < Batches(|plan|) && batch in fails
      && (forall b :: 0 <= b < batch ==> b !in fails)
      && inserted == plan[..batch * ChunkSize]
    case Imported(rows, warnings) =>
      && kept != [] && !dryRun && (forall b :: 0 <= b < Batches(|plan|) ==> b !in fails)
      && rows == plan && warnings == Warnings(kept)
    case _ => false
  }

  /** From the tasks to process on: de-duplication, the dry-run exit,
      preparation and the insert. */
  method ImportSelected(toProcess: seq<LegacyTask>, dryRun: bool, existing: seq<Key>, fails: set<nat>)
    returns (outcome: ImportOutcome)
    ensures outcome.NothingToInsert? || outcome.DryRun? || outcome.InsertFailed? || outcome.Imported?
    ensures outcome.NothingToInsert? <==> Deduped(toProcess, KeySet(existing), ImportKey) == []
    ensures outcome.DryRun? ==> dryRun && outcome.rows == Plan(toProcess, existing)
    ensures outcome.InsertFailed? ==>
      && !dryRun && outcome.batch in fails && outcome.batch * ChunkSize < |Plan(toProcess, existing)|
      && outcome.inserted == Plan(toProcess, existing)[..outcome.batch * ChunkSize]
    ensures outcome.Imported? ==>
      && !dryRun && outcome.rows == Plan(toProcess, existing)
      && outcome.warnings == Warnings(Deduped(toProcess, KeySet(existing), ImportKey))
    ensures ImportsAs(toProcess, dryRun, existing, fails, outcome)
  {
    var kept := Dedupe(toProcess, existing);
    if |kept| == 0 {
      return NothingToInsert;
    }
    var rows, warnings := PrepareRows(kept);
    PreparedRowsAt(kept);
    assert rows == Plan(toProcess, existing);
    if dryRun {
      return DryRun(rows);
    }
    var inserted, failed := InsertChunks(rows, fails);
    if failed.Some? {
      return InsertFailed(failed.value, inserted);
    }
    outcome := Imported(rows, warnings);
  }

  /** The whole script. `envFile` and `envLocalFile` are the texts of
      `.env` and `.env.local`; `existing` is the keys the table reports,
      `None` when that query fails; `fails` the batches whose insert
      fails. */
  method RunImport(env: Environment, envFile: Option<string>, envLocalFile: Option<string>, args: seq<string>,
                   sheets: seq<Sheet>, existing: Option<seq<Key>>, today: Day, now: Minute,
                   parseDay: string -> Option<Day>, parseTime: string -> Option<Minute>, fails: set<nat>)
    returns (outcome: ImportOutcome)
    modifies env
    ensures env.vars == LoadedVars(LoadedVars(old(env.vars), envFile), envLocalFile)
    ensures outcome == MissingCredentials <==> SupabaseUrl(env.vars).None? || SupabaseKey(env.vars).None?
    ensures outcome == NoTasksSheet <==> outcome != MissingCredentials && TasksSheet(sheets).None?
    ensures outcome == FetchFailed <==>
      outcome != MissingCredentials && TasksSheet(sheets).Some? && existing.None?
    ensures outcome.DryRun? || outcome.Imported? ==>
      outcome.rows == Plan(ToProcess(TasksSheet(sheets).value, args, today, now, parseDay, parseTime), existing.value)
    ensures SupabaseUrl(env.vars).Some? && SupabaseKey(env.vars).Some? && TasksSheet(sheets).Some? && existing.Some? ==>
      ImportsAs(ToProcess(TasksSheet(sheets).value, args, today, now, parseDay, parseTime), "--dry-run" in args,
                existing.value, fails, outcome)
  {
    env.LoadEnvFile(envFile);
    env.LoadEnvFile(envLocalFile);
    if SupabaseUrl(env.vars).None? || SupabaseKey(env.vars).None? {
      return MissingCredentials;
    }
    var options := ParseOptions(args);
    var sheet := TasksSheet(sheets);
    if sheet.None? {
      return NoTasksSheet;
    }
    var legacy := LegacyTasks(sheet.value.headers, sheet.value.rows, today, now, parseDay, parseTime);
    var toProcess := Selected(legacy, options);
    if existing.None? {
      return FetchFailed;
    }
    outcome := ImportSelected(toProcess, options.dryRun, existing.value, fails);
  }
}
