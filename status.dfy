/** Status normalisation (lib/utils/status.ts): any text the database or the
    API hands back is folded onto the four known statuses. */
module StatusUtil {
  import opened Types
  import opened Text

  function StatusName(s: Status): string {
    match s
    case Open => "open"
    case Completed => "completed"
    case Archived => "archived"
    case Waiting => "waiting"
  }

  /** The known status whose name is exactly `text`, if any. */
  function StatusNamed(text: string): (r: Option<Status>)
    ensures r.Some? ==> StatusName(r.value) == text
    ensures r.None? ==> forall s :: StatusName(s) != text
  {
    if text == "open" then Some(Open)
    else if text == "completed" then Some(Completed)
    else if text == "archived" then Some(Archived)
    else if text == "waiting" then Some(Waiting)
    else None
  }

  /** `normalizeStatus`: absent or empty text is open; otherwise the
      lower-cased text if it names a known status, and open if not. */
  function NormalizeStatus(value: Option<string>): (r: Status)
    ensures value.Some? && r != Open ==> ToLower(value.value) == StatusName(r)
  {
    if value.None? || value.value == [] then Open
    else
      match StatusNamed(ToLower(value.value))
      case Some(s) => s
      case None => Open
  }

  /** Every status name normalises to that status. */
  lemma NormalizeStatusName(s: Status)
    ensures NormalizeStatus(Some(StatusName(s))) == s
  {
    var name := StatusName(s);
    assert ToLower(name) == name;
  }

  /** A case-insensitive match of a known name yields that status; the
      result depends only on the lower-cased text. */
  lemma NormalizeStatusCaseInsensitive(v: string, s: Status)
    ensures ToLower(v) == StatusName(s) ==> NormalizeStatus(Some(v)) == s
    ensures NormalizeStatus(Some(v)) == NormalizeStatus(Some(ToLower(v)))
  {
    ToLowerIdempotent(v);
  }

  /** Normalising is idempotent. */
  lemma NormalizeStatusIdempotent(v: Option<string>)
    ensures NormalizeStatus(Some(StatusName(NormalizeStatus(v)))) == NormalizeStatus(v)
  {
    NormalizeStatusName(NormalizeStatus(v));
  }

  /** `normalizeTask`: the record with its status normalised. */
  function NormalizeTask(t: TaskRow): (r: Task)
    ensures WithStatus(r, t.status) == t
    ensures r.status == NormalizeStatus(Some(t.status))
  {
    WithStatus(t, NormalizeStatus(Some(t.status)))
  }

  /** A task whose status text is already a status name comes back unchanged. */
  lemma NormalizeTaskOfNamed(t: Task)
    ensures NormalizeTask(WithStatus(t, StatusName(t.status))) == t
  {
    NormalizeStatusName(t.status);
  }
}
