/**
 * The task store of the Flask backend (backend/app.py): the table of tasks,
 * the ordered validation of the create and update handlers, delete, the
 * filtered and ordered listing, and the statistics.
 *
 * The table is a sequence of rows in insertion order. Timestamps are ticks
 * of the store's own clock, which every create and every update advances
 * (a delete sets no timestamp), so insertion order is also created_at
 * order. Database sessions become "a failed request
 * leaves the table as it was".
 */
module Backend {
  import opened Wrappers
  import opened Text

  const TitleMin := 3
  const TitleMax := 100
  const DefaultPerPage := 6

  const MsgRequired := "El título es obligatorio"
  const MsgTooShort := "El título debe tener al menos 3 caracteres"
  const MsgTooLong := "El título no puede exceder 100 caracteres"
  const MsgBadPriority := "Prioridad inválida"
  const MsgDuplicate := "Ya existe una tarea con este título"
  const MsgNoData := "No se proporcionaron datos"
  const MsgBadPaging := "Parámetros de paginación inválidos"
  const MsgInternal := "Error interno del servidor"
  const MsgNotFound := "Recurso no encontrado"
  const MsgDeleted := "Tarea eliminada exitosamente"

  /** The priority enumeration every write enforces. */
  predicate IsPriority(p: string) {
    p == "baja" || p == "media" || p == "alta"
  }

  /** A row of the tasks table. */
  datatype Task = Task(id: nat, title: string, priority: string, createdAt: nat, updatedAt: nat)

  /** A value in a JSON request body, as far as the handlers tell values apart. */
  datatype Json =
    | JString(s: string)
    | JOther  // a number, boolean, null, array or object

  /**
   * A request body that get_json() read as a non-empty JSON object; title and
   * priority are the values under those keys when the keys are present. A
   * body that is absent or falsy (null, {}) is None where Option<Payload> is
   * used.
   */
  datatype Payload = Payload(title: Option<Json>, priority: Option<Json>)

  /** An error reply: status code and the message in its "error" field. */
  datatype Failure = Failure(status: int, message: string)

  const Internal := Failure(500, MsgInternal)

  datatype Reply =
    | TaskReply(status: int, task: Task)       // the task's to_dict()
    | MessageReply(status: int, message: string)
    | ErrorReply(status: int, error: string)
    | ListReply(items: seq<Task>, pagination: PageRecord)
    | StatsReply(stats: Stats)

  function ErrorOf(f: Failure): Reply {
    ErrorReply(f.status, f.message)
  }

  // ----- Invariant of the table -----

  /** A stored title: already stripped, and within the length bounds. */
  predicate StoredTitle(t: string) {
    IsTrimmed(t, Py) && TitleMin <= |t| <= TitleMax
  }

  predicate RowsWellFormed(tasks: seq<Task>) {
    forall i :: 0 <= i < |tasks| ==> IsPriority(tasks[i].priority) && StoredTitle(tasks[i].title)
  }

  /** Ids and creation stamps both increase along insertion order. */
  predicate InsertionOrdered(tasks: seq<Task>) {
    forall i, j :: 0 <= i < j < |tasks| ==> tasks[i].id < tasks[j].id && tasks[i].createdAt < tasks[j].createdAt
  }

  /** No two tasks have titles equal up to ASCII case. */
  predicate UniqueTitles(tasks: seq<Task>) {
    forall i, j :: 0 <= i < j < |tasks| ==> !SameIgnoringCase(tasks[i].title, tasks[j].title)
  }

  predicate StampsUpTo(tasks: seq<Task>, clock: nat) {
    forall i :: 0 <= i < |tasks| ==> tasks[i].createdAt <= clock && tasks[i].updatedAt <= clock
  }

  predicate Consistent(tasks: seq<Task>, clock: nat) {
    RowsWellFormed(tasks) && InsertionOrdered(tasks) && UniqueTitles(tasks) && StampsUpTo(tasks, clock)
  }

  // ----- Lookups -----

  /** Some stored task other than the one with id `except` has this title,
      up to case: `Task.title.ilike(title)`, with `Task.id != task_id` on update. */
  predicate TitleTaken(tasks: seq<Task>, title: string, except: Option<nat>) {
    exists i :: 0 <= i < |tasks| && (except.None? || tasks[i].id != except.value)
                && SameIgnoringCase(tasks[i].title, title)
  }

  /** The position of the row with this id. */
  function IndexOf(tasks: seq<Task>, id: nat): (r: Option<nat>)
    ensures r.None? <==> forall i :: 0 <= i < |tasks| ==> tasks[i].id != id
    ensures r.Some? ==> r.value < |tasks| && tasks[r.value].id == id
  {
    if tasks == [] then None
    else if tasks[|tasks| - 1].id == id then Some(|tasks| - 1)
    else IndexOf(tasks[..|tasks| - 1], id)
  }

  /** Task.query.get_or_404(task_id) as the handlers evidently intend it:
      an unknown id is answered 404. */
  function Lookup(tasks: seq<Task>, id: nat): (r: Result<nat, Failure>)
    ensures r.Err? <==> forall i :: 0 <= i < |tasks| ==> tasks[i].id != id
    ensures r.Err? ==> r.error == Failure(404, MsgNotFound)
    ensures r.Ok? ==> r.value < |tasks| && tasks[r.value].id == id
  {
    match IndexOf(tasks, id)
    case None => Err(Failure(404, MsgNotFound))
    case Some(k) => Ok(k)
  }

  /** get_or_404 as written: it raises NotFound inside the handler's
      `try`, whose `except Exception` turns it into a 500. */
  function LookupAsWritten(tasks: seq<Task>, id: nat): (r: Result<nat, Failure>)
    ensures r.Err? <==> forall i :: 0 <= i < |tasks| ==> tasks[i].id != id
    ensures r.Err? ==> r.error == Internal
    ensures r.Ok? ==> r == Lookup(tasks, id)
  {
    match IndexOf(tasks, id)
    case None => Err(Internal)
    case Some(k) => Ok(k)
  }

  /** Ids increase along the table, so two rows never share one: the row
      Lookup finds is the only row with that id. */
  lemma IdsDistinct(tasks: seq<Task>, i: nat, j: nat)
    requires InsertionOrdered(tasks)
    requires i < |tasks| && j < |tasks| && i != j
    ensures tasks[i].id != tasks[j].id
  {
    if j < i {
      assert tasks[j].id < tasks[i].id;
    }
  }

  // ----- Validation of create_task and update_task -----

  /** The three title checks both handlers make on the stripped title, in order. */
  function TitleProblem(title: string): (r: Option<Failure>)
    ensures r.None? <==> TitleMin <= |title| <= TitleMax
    ensures r == Some(Failure(400, MsgRequired)) <==> title == ""
    ensures r == Some(Failure(400, MsgTooShort)) <==> 1 <= |title| < TitleMin
    ensures r == Some(Failure(400, MsgTooLong)) <==> |title| > TitleMax
  {
    if title == "" then Some(Failure(400, MsgRequired))
    else if |title| < TitleMin then Some(Failure(400, MsgTooShort))
    else if |title| > TitleMax then Some(Failure(400, MsgTooLong))
    else None
  }

  predicate ValidPriorityJson(j: Json) {
    j.JString? && IsPriority(j.s)
  }

  /** `data.get('priority', 'baja')` */
  function CreatePriority(data: Payload): Json {
    if data.priority.Some? then data.priority.value else JString("baja")
  }

  /** The fields of a task to insert. */
  datatype Draft = Draft(title: string, priority: string)

  /** The string title of a create body, if it has one. */
  predicate HasStringTitle(data: Option<Payload>) {
    data.Some? && data.value.title.Some? && data.value.title.value.JString?
  }

  /**
   * create_task's checks, in the handler's order: a body with a title that
   * is not blank; the stripped title at least 3 and at most 100 long; the
   * priority, 'baja' when absent, one of the three; no stored title equal
   * to it up to case. A title that is not a string cannot be stripped and
   * ends in the handler's 500.
   */
  function CheckCreate(tasks: seq<Task>, data: Option<Payload>): (r: Result<Draft, Failure>)
    ensures r.Ok? <==>
              && HasStringTitle(data)
              && TitleMin <= |Trim(data.value.title.value.s, Py)| <= TitleMax
              && ValidPriorityJson(CreatePriority(data.value))
              && !TitleTaken(tasks, Trim(data.value.title.value.s, Py), None)
    ensures r.Ok? ==> r.value == Draft(Trim(data.value.title.value.s, Py), CreatePriority(data.value).s)
    ensures r == Err(Failure(400, MsgRequired)) <==>
              || data.None? || data.value.title.None?
              || (data.value.title.value.JString? && AllSpace(data.value.title.value.s, Py))
    ensures r == Err(Internal) <==> data.Some? && data.value.title.Some? && data.value.title.value.JOther?
    ensures r == Err(Failure(400, MsgTooShort)) <==>
              HasStringTitle(data) && 1 <= |Trim(data.value.title.value.s, Py)| < TitleMin
    ensures r == Err(Failure(400, MsgTooLong)) <==>
              HasStringTitle(data) && |Trim(data.value.title.value.s, Py)| > TitleMax
    ensures r == Err(Failure(400, MsgBadPriority)) <==>
              && HasStringTitle(data)
              && TitleMin <= |Trim(data.value.title.value.s, Py)| <= TitleMax
              && !ValidPriorityJson(CreatePriority(data.value))
    ensures r == Err(Failure(409, MsgDuplicate)) <==>
              && HasStringTitle(data)
              && TitleMin <= |Trim(data.value.title.value.s, Py)| <= TitleMax
              && ValidPriorityJson(CreatePriority(data.value))
              && TitleTaken(tasks, Trim(data.value.title.value.s, Py), None)
  {
    if data.None? || data.value.title.None? then Err(Failure(400, MsgRequired))
    else if data.value.title.value.JOther? then Err(Internal)
    else
      var title := Trim(data.value.title.value.s, Py);
      var priority := CreatePriority(data.value);
      if TitleProblem(title).Some? then Err(TitleProblem(title).value)
      else if !ValidPriorityJson(priority) then Err(Failure(400, MsgBadPriority))
      else if TitleTaken(tasks, title, None) then Err(Failure(409, MsgDuplicate))
      else Ok(Draft(title, priority.s))
  }

  /** The fields update_task changes: the row, and the new title and new
      priority when the body gives them. */
  datatype Patch = Patch(index: nat, title: Option<string>, priority: Option<string>)

  /** The title part of an update body: absent, or checked like create's
      (blank, too short, too long, then taken by another task). */
  function CheckNewTitle(tasks: seq<Task>, id: nat, title: Option<Json>): (r: Result<Option<string>, Failure>)
    ensures title.None? ==> r == Ok(None)
    ensures title.Some? && title.value.JOther? ==> r == Err(Internal)
    ensures title.Some? && title.value.JString? ==>
              var t := Trim(title.value.s, Py);
              && (r.Ok? <==> TitleMin <= |t| <= TitleMax && !TitleTaken(tasks, t, Some(id)))
              && (r.Ok? ==> r.value == Some(t))
              && (TitleProblem(t).Some? ==> r == Err(TitleProblem(t).value))
              && (r == Err(Failure(409, MsgDuplicate)) <==> TitleProblem(t).None? && TitleTaken(tasks, t, Some(id)))
  {
    match title
    case None => Ok(None)
    case Some(JOther) => Err(Internal)
    case Some(JString(raw)) =>
      var t := Trim(raw, Py);
      if TitleProblem(t).Some? then Err(TitleProblem(t).value)
      else if TitleTaken(tasks, t, Some(id)) then Err(Failure(409, MsgDuplicate))
      else Ok(Some(t))
  }

  function CheckNewPriority(priority: Option<Json>): (r: Result<Option<string>, Failure>)
    ensures priority.None? ==> r == Ok(None)
    ensures priority.Some? ==> (r.Ok? <==> ValidPriorityJson(priority.value))
    ensures priority.Some? && r.Ok? ==> r.value == Some(priority.value.s)
    ensures r.Err? ==> r.error == Failure(400, MsgBadPriority)
  {
    match priority
    case None => Ok(None)
    case Some(p) => if ValidPriorityJson(p) then Ok(Some(p.s)) else Err(Failure(400, MsgBadPriority))
  }

  /**
   * update_task's checks, in the handler's order: the task exists; the body
   * is not empty; the title, when given, passes create's title checks with
   * the task itself left out of the duplicate search; the priority, when
   * given, is one of the three.
   */
  function CheckUpdate(tasks: seq<Task>, id: nat, data: Option<Payload>): (r: Result<Patch, Failure>)
    ensures Lookup(tasks, id).Err? ==> r == Err(Failure(404, MsgNotFound))
    ensures Lookup(tasks, id).Ok? && data.None? ==> r == Err(Failure(400, MsgNoData))
    ensures r.Ok? <==>
              && Lookup(tasks, id).Ok? && data.Some?
              && CheckNewTitle(tasks, id, data.value.title).Ok?
              && CheckNewPriority(data.value.priority).Ok?
    ensures r.Ok? ==> r.value == Patch(Lookup(tasks, id).value,
                                       CheckNewTitle(tasks, id, data.value.title).value,
                                       CheckNewPriority(data.value.priority).value)
    ensures Lookup(tasks, id).Ok? && data.Some? && CheckNewTitle(tasks, id, data.value.title).Err? ==>
              r == Err(CheckNewTitle(tasks, id, data.value.title).error)
    ensures Lookup(tasks, id).Ok? && data.Some? && CheckNewTitle(tasks, id, data.value.title).Ok?
            && CheckNewPriority(data.value.priority).Err? ==>
              r == Err(Failure(400, MsgBadPriority))
    ensures r.Err? ==> r.error.status in {400, 404, 409, 500}
  {
    match Lookup(tasks, id)
    case Err(f) => Err(f)
    case Ok(k) =>
      if data.None? then Err(Failure(400, MsgNoData))
      else
        match CheckNewTitle(tasks, id, data.value.title)
        case Err(f) => Err(f)
        case Ok(title) =>
          match CheckNewPriority(data.value.priority)
          case Err(f) => Err(f)
          case Ok(priority) => Ok(Patch(k, title, priority))
  }

  /** update_task's checks as written: get_or_404 runs inside the handler's
      `try`, so an unknown id ends in the 500 of `except Exception`; for a
      known id every answer is CheckUpdate's. */
  function CheckUpdateAsWritten(tasks: seq<Task>, id: nat, data: Option<Payload>): (r: Result<Patch, Failure>)
    ensures Lookup(tasks, id).Err? ==> r == Err(Internal)
    ensures Lookup(tasks, id).Ok? ==> r == CheckUpdate(tasks, id, data)
  {
    match LookupAsWritten(tasks, id)
    case Err(f) => Err(f)
    case Ok(_) => CheckUpdate(tasks, id, data)
  }

  /** For every unknown id and every body, update as written answers 500
      'Error interno del servidor' where the corrected checks answer 404
      'Recurso no encontrado'; delete as written does the same (see
      TaskTable.DeleteAsWritten). */
  lemma UnknownIdAnswered500(tasks: seq<Task>, id: nat, data: Option<Payload>)
    requires forall i :: 0 <= i < |tasks| ==> tasks[i].id != id
    ensures CheckUpdateAsWritten(tasks, id, data) == Err(Failure(500, MsgInternal))
    ensures CheckUpdate(tasks, id, data) == Err(Failure(404, MsgNotFound))
    ensures LookupAsWritten(tasks, id) == Err(Failure(500, MsgInternal))
  {
  }

  /** A task after a patch: id and creation stamp kept, updated_at set. */
  function Patched(t: Task, title: Option<string>, priority: Option<string>, stamp: nat): Task {
    Task(t.id,
         if title.Some? then title.value else t.title,
         if priority.Some? then priority.value else t.priority,
         t.createdAt,
         stamp)
  }

  /** Re-saving a task's own title, in any letter case, is not a duplicate. */
  lemma OwnTitleIsNotTaken(tasks: seq<Task>, k: nat, title: string)
    requires InsertionOrdered(tasks) && UniqueTitles(tasks)
    requires k < |tasks| && SameIgnoringCase(tasks[k].title, title)
    ensures !TitleTaken(tasks, title, Some(tasks[k].id))
  {
  }

  /** An update that sends back a stored task's title unchanged (or only
      its letter case changed, still stripped) and a valid priority passes
      every check: the duplicate search leaves the task itself out. */
  lemma ResaveOwnTitleSucceeds(tasks: seq<Task>, k: nat, title: string, priority: Option<Json>)
    requires InsertionOrdered(tasks) && UniqueTitles(tasks)
    requires k < |tasks| && SameIgnoringCase(tasks[k].title, title) && StoredTitle(title)
    requires priority.None? || ValidPriorityJson(priority.value)
    ensures CheckUpdate(tasks, tasks[k].id, Some(Payload(Some(JString(title)), priority))).Ok?
  {
    var id := tasks[k].id;
    OwnTitleIsNotTaken(tasks, k, title);
    TrimOfTrimmed(title, Py);
    assert CheckNewTitle(tasks, id, Some(JString(title))) == Ok(Some(title));
    assert CheckNewPriority(priority).Ok?;
    assert Lookup(tasks, id).Ok?;
  }

  /** A title no other row has: no single row has it. */
  lemma NotTakenAt(tasks: seq<Task>, title: string, except: Option<nat>, i: nat)
    requires !TitleTaken(tasks, title, except)
    requires i < |tasks| && (except.None? || tasks[i].id != except.value)
    ensures !SameIgnoringCase(tasks[i].title, title)
  {
  }

  /** Equality up to case is an equivalence. */
  lemma SameIgnoringCaseTransitive(a: string, b: string, c: string)
    requires SameIgnoringCase(a, b) && SameIgnoringCase(c, b)
    ensures SameIgnoringCase(a, c)
  {
  }

  // ----- Preservation of the invariant -----

  /** The id SQLite gives a new row of an INTEGER PRIMARY KEY table without
      AUTOINCREMENT: one more than the largest id in use, 1 when empty. */
  function NextId(tasks: seq<Task>): (id: nat)
    ensures id >= 1
    ensures forall i :: 0 <= i < |tasks| ==> tasks[i].id < id
  {
    if tasks == [] then 1
    else
      var rest := NextId(tasks[..|tasks| - 1]);
      assert forall i :: 0 <= i < |tasks| - 1 ==> tasks[i] == tasks[..|tasks| - 1][i];
      if tasks[|tasks| - 1].id + 1 > rest then tasks[|tasks| - 1].id + 1 else rest
  }

  /** What create accepts can be stored. */
  lemma DraftStorable(tasks: seq<Task>, data: Option<Payload>)
    requires CheckCreate(tasks, data).Ok?
    ensures var d := CheckCreate(tasks, data).value;
            IsPriority(d.priority) && StoredTitle(d.title) && !TitleTaken(tasks, d.title, None)
  {
  }

  /** What update accepts can be stored: the row exists, and a new title is
      stripped, within bounds and not another task's. */
  lemma PatchStorable(tasks: seq<Task>, id: nat, data: Option<Payload>)
    requires CheckUpdate(tasks, id, data).Ok?
    ensures var p := CheckUpdate(tasks, id, data).value;
            && p.index < |tasks| && tasks[p.index].id == id
            && (p.title.Some? ==> StoredTitle(p.title.value) && !TitleTaken(tasks, p.title.value, Some(tasks[p.index].id)))
            && (p.priority.Some? ==> IsPriority(p.priority.value))
  {
    var t := CheckNewTitle(tasks, id, data.value.title);
    if data.value.title.Some? && data.value.title.value.JString? {
      var raw := data.value.title.value.s;
      assert IsTrimmed(Trim(raw, Py), Py);
    }
  }

  lemma InsertKeepsUnique(tasks: seq<Task>, t: Task)
    requires UniqueTitles(tasks) && !TitleTaken(tasks, t.title, None)
    ensures UniqueTitles(tasks + [t])
  {
    var tasks' := tasks + [t];
    forall i, j | 0 <= i < j < |tasks'|
      ensures !SameIgnoringCase(tasks'[i].title, tasks'[j].title)
    {
      assert tasks'[i] == tasks[i];
      if j == |tasks| {
        NotTakenAt(tasks, t.title, None, i);
      } else {
        assert tasks'[j] == tasks[j];
      }
    }
  }

  lemma InsertKeepsConsistent(tasks: seq<Task>, clock: nat, d: Draft)
    requires Consistent(tasks, clock)
    requires IsPriority(d.priority) && StoredTitle(d.title)
    requires !TitleTaken(tasks, d.title, None)
    ensures Consistent(tasks + [Task(NextId(tasks), d.title, d.priority, clock + 1, clock + 1)], clock + 1)
  {
    var t := Task(NextId(tasks), d.title, d.priority, clock + 1, clock + 1);
    InsertKeepsUnique(tasks, t);
    var tasks' := tasks + [t];
    assert forall i :: 0 <= i < |tasks| ==> tasks'[i] == tasks[i];
    assert tasks'[|tasks|] == t;
  }

  lemma PatchKeepsUnique(tasks: seq<Task>, k: nat, t: Task)
    requires UniqueTitles(tasks) && InsertionOrdered(tasks) && k < |tasks| && t.id == tasks[k].id
    requires SameIgnoringCase(t.title, tasks[k].title) || !TitleTaken(tasks, t.title, Some(tasks[k].id))
    ensures UniqueTitles(tasks[k := t])
  {
    var tasks' := tasks[k := t];
    forall i, j | 0 <= i < j < |tasks'|
      ensures !SameIgnoringCase(tasks'[i].title, tasks'[j].title)
    {
      if i == k || j == k {
        var other := if i == k then j else i;
        assert tasks[other].id != tasks[k].id;
        if SameIgnoringCase(t.title, tasks[k].title) {
          if SameIgnoringCase(tasks[other].title, t.title) {
            SameIgnoringCaseTransitive(tasks[other].title, t.title, tasks[k].title);
          }
        } else {
          NotTakenAt(tasks, t.title, Some(tasks[k].id), other);
        }
      }
    }
  }

  lemma PatchKeepsConsistent(tasks: seq<Task>, clock: nat, k: nat, title: Option<string>, priority: Option<string>)
    requires Consistent(tasks, clock) && k < |tasks|
    requires title.Some? ==> StoredTitle(title.value) && !TitleTaken(tasks, title.value, Some(tasks[k].id))
    requires priority.Some? ==> IsPriority(priority.value)
    ensures Consistent(tasks[k := Patched(tasks[k], title, priority, clock + 1)], clock + 1)
  {
    var t := Patched(tasks[k], title, priority, clock + 1);
    PatchKeepsUnique(tasks, k, t);
  }

  lemma RemoveKeepsConsistent(tasks: seq<Task>, clock: nat, k: nat)
    requires Consistent(tasks, clock) && k < |tasks|
    ensures Consistent(tasks[..k] + tasks[k + 1..], clock)
  {
    var tasks' := tasks[..k] + tasks[k + 1..];
    forall i | 0 <= i < |tasks'|
      ensures tasks'[i] == tasks[if i < k then i else i + 1]
    {
    }
  }

  /** Removing the row at k removes exactly the rows with its id. */
  lemma RemoveOnlyThatId(tasks: seq<Task>, k: nat)
    requires InsertionOrdered(tasks) && k < |tasks|
    ensures forall t :: t in tasks[..k] + tasks[k + 1..] <==> t in tasks && t.id != tasks[k].id
  {
    RemoveKeepsOthers(tasks, k);
    RemoveDropsThatId(tasks, k);
  }

  lemma RemoveKeepsOthers(tasks: seq<Task>, k: nat)
    requires k < |tasks|
    ensures forall t :: t in tasks && t.id != tasks[k].id ==> t in tasks[..k] + tasks[k + 1..]
  {
    var rest := tasks[..k] + tasks[k + 1..];
    forall t | t in tasks && t.id != tasks[k].id ensures t in rest {
      var i :| 0 <= i < |tasks| && tasks[i] == t;
      if i < k {
        assert t == rest[i];
      } else {
        assert i > k;
        assert t == rest[i - 1];
      }
    }
  }

  lemma RemoveDropsThatId(tasks: seq<Task>, k: nat)
    requires InsertionOrdered(tasks) && k < |tasks|
    ensures forall t :: t in tasks[..k] + tasks[k + 1..] ==> t in tasks && t.id != tasks[k].id
  {
    var rest := tasks[..k] + tasks[k + 1..];
    forall t | t in rest ensures t in tasks && t.id != tasks[k].id {
      var i :| 0 <= i < |rest| && rest[i] == t;
      var j := if i < k then i else i + 1;
      assert t == tasks[j];
      IdsDistinct(tasks, j, k);
    }
  }

  // ----- The table -----

  class TaskTable {
    var tasks: seq<Task>
    /** The last timestamp handed out; datetime.utcnow() becomes clock + 1. */
    var clock: nat

    ghost predicate Valid()
      reads this
    {
      Consistent(tasks, clock)
    }

    constructor ()
      ensures Valid() && tasks == [] && clock == 0
    {
      tasks := [];
      clock := 0;
    }

    /** POST /api/tasks */
    method Create(data: Option<Payload>) returns (reply: Reply)
      requires Valid()
      modifies this
      ensures Valid()
      ensures CheckCreate(old(tasks), data).Err? ==>
                tasks == old(tasks) && clock == old(clock) && reply == ErrorOf(CheckCreate(old(tasks), data).error)
      ensures CheckCreate(old(tasks), data).Ok? ==>
                var d := CheckCreate(old(tasks), data).value;
                var t := Task(NextId(old(tasks)), d.title, d.priority, old(clock) + 1, old(clock) + 1);
                tasks == old(tasks) + [t] && clock == old(clock) + 1 && reply == TaskReply(201, t)
    {
      var checked := CheckCreate(tasks, data);
      if checked.Err? {
        return ErrorOf(checked.error);
      }
      DraftStorable(tasks, data);
      var newTask := Insert(checked.value);
      reply := TaskReply(201, newTask);
    }

    /** The INSERT and commit of a create that passed its checks. */
    method Insert(d: Draft) returns (t: Task)
      requires Valid()
      requires IsPriority(d.priority) && StoredTitle(d.title) && !TitleTaken(tasks, d.title, None)
      modifies this
      ensures Valid()
      ensures t == Task(NextId(old(tasks)), d.title, d.priority, old(clock) + 1, old(clock) + 1)
      ensures tasks == old(tasks) + [t] && clock == old(clock) + 1
    {
      t := Task(NextId(tasks), d.title, d.priority, clock + 1, clock + 1);
      var next := tasks + [t];
      InsertKeepsConsistent(tasks, clock, d);
      tasks, clock := next, clock + 1;
    }

    /** PUT /api/tasks/<id>: an error leaves the table as it was, since
        only a successful request reaches the commit. */
    method Update(id: nat, data: Option<Payload>) returns (reply: Reply)
      requires Valid()
      modifies this
      ensures Valid()
      ensures CheckUpdate(old(tasks), id, data).Err? ==>
                tasks == old(tasks) && clock == old(clock) && reply == ErrorOf(CheckUpdate(old(tasks), id, data).error)
      ensures CheckUpdate(old(tasks), id, data).Ok? ==>
                var p := CheckUpdate(old(tasks), id, data).value;
                var t := Patched(old(tasks)[p.index], p.title, p.priority, old(clock) + 1);
                tasks == old(tasks)[p.index := t] && clock == old(clock) + 1 && reply == TaskReply(200, t)
    {
      var checked := CheckUpdate(tasks, id, data);
      if checked.Err? {
        return ErrorOf(checked.error);
      }
      PatchStorable(tasks, id, data);
      var t := ApplyPatch(checked.value);
      reply := TaskReply(200, t);
    }

    /** The field assignments and commit of an update that passed its checks. */
    method ApplyPatch(p: Patch) returns (t: Task)
      requires Valid() && p.index < |tasks|
      requires p.title.Some? ==> StoredTitle(p.title.value) && !TitleTaken(tasks, p.title.value, Some(tasks[p.index].id))
      requires p.priority.Some? ==> IsPriority(p.priority.value)
      modifies this
      ensures Valid()
      ensures t == Patched(old(tasks)[p.index], p.title, p.priority, old(clock) + 1)
      ensures tasks == old(tasks)[p.index := t] && clock == old(clock) + 1
    {
      t := Patched(tasks[p.index], p.title, p.priority, clock + 1);
      var next := tasks[p.index := t];
      PatchKeepsConsistent(tasks, clock, p.index, p.title, p.priority);
      tasks, clock := next, clock + 1;
    }

    /** PUT /api/tasks/<id> as written: an unknown id is answered 500 and
        changes nothing; a known id is handled as by Update. */
    method UpdateAsWritten(id: nat, data: Option<Payload>) returns (reply: Reply)
      requires Valid()
      modifies this
      ensures Valid()
      ensures Lookup(old(tasks), id).Err? ==>
                tasks == old(tasks) && clock == old(clock) && reply == ErrorReply(500, MsgInternal)
      ensures CheckUpdateAsWritten(old(tasks), id, data).Err? ==>
                tasks == old(tasks) && clock == old(clock) && reply == ErrorOf(CheckUpdateAsWritten(old(tasks), id, data).error)
      ensures CheckUpdateAsWritten(old(tasks), id, data).Ok? ==>
                var p := CheckUpdateAsWritten(old(tasks), id, data).value;
                var t := Patched(old(tasks)[p.index], p.title, p.priority, old(clock) + 1);
                tasks == old(tasks)[p.index := t] && clock == old(clock) + 1 && reply == TaskReply(200, t)
    {
      var found := LookupAsWritten(tasks, id);
      if found.Err? {
        return ErrorOf(found.error);
      }
      reply := Update(id, data);
    }

    /** DELETE /api/tasks/<id> as written: an unknown id is answered 500
        'Error interno del servidor' and changes nothing; a known id is
        handled as by Delete. */
    method DeleteAsWritten(id: nat) returns (reply: Reply)
      requires Valid()
      modifies this
      ensures Valid() && clock == old(clock)
      ensures Lookup(old(tasks), id).Err? ==> tasks == old(tasks) && reply == ErrorReply(500, MsgInternal)
      ensures Lookup(old(tasks), id).Ok? ==>
                var k := Lookup(old(tasks), id).value;
                tasks == old(tasks)[..k] + old(tasks)[k + 1..] && reply == MessageReply(200, MsgDeleted)
    {
      var found := LookupAsWritten(tasks, id);
      if found.Err? {
        return ErrorOf(found.error);
      }
      reply := Delete(id);
    }

    /** DELETE /api/tasks/<id> with the corrected lookup: exactly that row
        goes, every other row stays in its order. */
    method Delete(id: nat) returns (reply: Reply)
      requires Valid()
      modifies this
      ensures Valid() && clock == old(clock)
      ensures Lookup(old(tasks), id).Err? ==> tasks == old(tasks) && reply == ErrorReply(404, MsgNotFound)
      ensures Lookup(old(tasks), id).Ok? ==>
                var k := Lookup(old(tasks), id).value;
                tasks == old(tasks)[..k] + old(tasks)[k + 1..] && reply == MessageReply(200, MsgDeleted)
      ensures forall t :: t in tasks <==> t in old(tasks) && t.id != id
    {
      var found := Lookup(tasks, id);
      if found.Err? {
        return ErrorOf(found.error);
      }
      var k := found.value;
      RemoveKeepsConsistent(tasks, clock, k);
      RemoveOnlyThatId(tasks, k);
      tasks := tasks[..k] + tasks[k + 1..];
      reply := MessageReply(200, MsgDeleted);
    }

    /** GET /api/tasks */
    method GetTasks(args: ListArgs) returns (reply: Reply)
      requires Valid()
      ensures ListRequestValid(args) <==> reply.ListReply?
      ensures !ListRequestValid(args) ==> reply == ErrorReply(400, MsgBadPaging)
      ensures reply.ListReply? ==>
                var rows := NewestFirst(Selected(tasks, args.priority, SearchArg(args)));
                (reply.items, reply.pagination) == Paginate(rows, PageArg(args), PerPageArg(args))
    {
      var priorityFilter := args.priority;
      var searchQuery := Trim(if args.search.Some? then args.search.value else "", Py);
      assert searchQuery == SearchArg(args);
      var page := 1;
      if args.page.Some? {
        var parsed := ParseInt(args.page.value);
        if parsed.None? {
          return ErrorReply(400, MsgBadPaging);
        }
        page := parsed.value;
      }
      var perPage := DefaultPerPage;
      if args.perPage.Some? {
        var parsed := ParseInt(args.perPage.value);
        if parsed.None? {
          return ErrorReply(400, MsgBadPaging);
        }
        perPage := parsed.value;
      }
      var query := tasks;
      if priorityFilter.Some? && IsPriority(priorityFilter.value) {
        query := WithPriority(query, priorityFilter.value);
      }
      if searchQuery != "" {
        query := Matching(query, searchQuery);
      }
      query := NewestFirst(query);
      var (items, pagination) := Paginate(query, page, perPage);
      reply := ListReply(items, pagination);
    }

    /** GET /api/tasks/stats */
    method GetStats() returns (reply: Reply)
      requires Valid()
      ensures reply == StatsReply(StatsOf(tasks))
      ensures reply.stats.alta + reply.stats.media + reply.stats.baja == reply.stats.total == |tasks|
      ensures reply.stats.alta == |WithPriority(tasks, "alta")|
      ensures reply.stats.media == |WithPriority(tasks, "media")|
      ensures reply.stats.baja == |WithPriority(tasks, "baja")|
    {
      StatsAddUp(tasks);
      CountIsFilterSize(tasks, "alta");
      CountIsFilterSize(tasks, "media");
      CountIsFilterSize(tasks, "baja");
      reply := StatsReply(StatsOf(tasks));
    }
  }

  // ----- Listing -----

  /** The query string arguments get_tasks reads, each absent or present. */
  datatype ListArgs = ListArgs(priority: Option<string>, search: Option<string>, page: Option<string>, perPage: Option<string>)

  /** int() accepts both page arguments that are given. */
  predicate ListRequestValid(args: ListArgs) {
    (args.page.Some? ==> ParseInt(args.page.value).Some?)
    && (args.perPage.Some? ==> ParseInt(args.perPage.value).Some?)
  }

  /** `request.args.get('search', '').strip()` */
  function SearchArg(args: ListArgs): string {
    Trim(if args.search.Some? then args.search.value else "", Py)
  }

  function PageArg(args: ListArgs): int
    requires ListRequestValid(args)
  {
    if args.page.Some? then ParseInt(args.page.value).value else 1
  }

  function PerPageArg(args: ListArgs): int
    requires ListRequestValid(args)
  {
    if args.perPage.Some? then ParseInt(args.perPage.value).value else DefaultPerPage
  }

  /** Putting a row in front of rows that all come after it keeps the
      insertion order. */
  lemma ConsOrdered(x: Task, rest: seq<Task>)
    requires InsertionOrdered(rest)
    requires forall t :: t in rest ==> x.id < t.id && x.createdAt < t.createdAt
    ensures InsertionOrdered([x] + rest)
  {
    var s := [x] + rest;
    forall i, j | 0 <= i < j < |s|
      ensures s[i].id < s[j].id && s[i].createdAt < s[j].createdAt
    {
      if i == 0 {
        assert s[j] == rest[j - 1];
        assert s[j] in rest;
      } else {
        assert s[i] == rest[i - 1] && s[j] == rest[j - 1];
      }
    }
  }

  /** The rows that pass a query filter, in their order. */
  function Keep(rows: seq<Task>, keep: Task -> bool): (r: seq<Task>)
    ensures forall t :: t in r <==> t in rows && keep(t)
    ensures |r| <= |rows|
  {
    if rows == [] then []
    else
      var rest := Keep(rows[1..], keep);
      assert forall t :: t in rows <==> t == rows[0] || t in rows[1..];
      if keep(rows[0]) then [rows[0]] + rest else rest
  }

  /** Filtering keeps the insertion order. */
  lemma {:induction false} KeepOrdered(rows: seq<Task>, keep: Task -> bool)
    ensures InsertionOrdered(rows) ==> InsertionOrdered(Keep(rows, keep))
  {
    if rows != [] && InsertionOrdered(rows) {
      var rest := Keep(rows[1..], keep);
      KeepOrdered(rows[1..], keep);
      if keep(rows[0]) {
        forall t | t in rest ensures rows[0].id < t.id && rows[0].createdAt < t.createdAt {
          assert t in rows[1..];
          var j :| 0 <= j < |rows[1..]| && rows[1..][j] == t;
          assert t == rows[j + 1];
        }
        ConsOrdered(rows[0], rest);
      }
    }
  }

  /** `query.filter(Task.priority == p)` */
  function WithPriority(rows: seq<Task>, p: string): (r: seq<Task>)
    ensures forall t :: t in r <==> t in rows && t.priority == p
    ensures InsertionOrdered(rows) ==> InsertionOrdered(r)
  {
    KeepOrdered(rows, (t: Task) => t.priority == p);
    Keep(rows, (t: Task) => t.priority == p)
  }

  /** `query.filter(Task.title.ilike('%' + q + '%'))` */
  function Matching(rows: seq<Task>, q: string): (r: seq<Task>)
    ensures forall t :: t in r <==> t in rows && ContainsIgnoringCase(t.title, q)
    ensures InsertionOrdered(rows) ==> InsertionOrdered(r)
  {
    KeepOrdered(rows, (t: Task) => ContainsIgnoringCase(t.title, q));
    Keep(rows, (t: Task) => ContainsIgnoringCase(t.title, q))
  }

  /** What the two filters of get_tasks keep: the priority filter only when
      the argument is one of the three values, the search only when the
      stripped search text is not empty. */
  function Selected(tasks: seq<Task>, priority: Option<string>, search: string): (r: seq<Task>)
    ensures forall t :: t in r <==>
              && t in tasks
              && (priority.Some? && IsPriority(priority.value) ==> t.priority == priority.value)
              && (search != "" ==> ContainsIgnoringCase(t.title, search))
    ensures InsertionOrdered(tasks) ==> InsertionOrdered(r)
  {
    var byPriority := if priority.Some? && IsPriority(priority.value) then WithPriority(tasks, priority.value) else tasks;
    if search != "" then Matching(byPriority, search) else byPriority
  }

  function Reverse(s: seq<Task>): (r: seq<Task>)
    ensures |r| == |s|
    ensures forall i :: 0 <= i < |s| ==> r[i] == s[|s| - 1 - i]
  {
    if s == [] then [] else Reverse(s[1..]) + [s[0]]
  }

  predicate NewestFirstOrdered(s: seq<Task>) {
    forall i, j :: 0 <= i < j < |s| ==> s[i].createdAt > s[j].createdAt
  }

  /** `order_by(Task.created_at.desc())`: rows kept in insertion order are
      in created_at order, so newest first is the reverse. */
  function NewestFirst(rows: seq<Task>): (r: seq<Task>)
    ensures forall t :: t in r <==> t in rows
    ensures |r| == |rows|
    ensures InsertionOrdered(rows) ==> NewestFirstOrdered(r)
  {
    var r := Reverse(rows);
    assert forall t :: t in rows ==> t in r by {
      forall t | t in rows ensures t in r {
        var i :| 0 <= i < |rows| && rows[i] == t;
        assert r[|rows| - 1 - i] == t;
      }
    }
    r
  }

  /** The pagination record of a list reply. */
  datatype PageRecord = PageRecord(currentPage: int, perPage: int, totalPages: int, totalCount: int, hasNext: bool, hasPrev: bool)

  function Min(a: int, b: int): int {
    if a < b then a else b
  }

  /**
   * ASSUMED behaviour of Flask-SQLAlchemy's `paginate(page, per_page,
   * error_out=False)`, library code outside this model: a page below 1
   * becomes 1, a size below 1 becomes 20, pages = ceil(total / size) (0 for
   * no rows), has_prev = page > 1, has_next = page < pages, and the items
   * are the rows at offset (page - 1) * size, at most size of them.
   */
  function Paginate(rows: seq<Task>, page: int, perPage: int): (r: (seq<Task>, PageRecord))
    ensures r.1.currentPage == (if page < 1 then 1 else page)
    ensures r.1.perPage == (if perPage < 1 then 20 else perPage)
    ensures r.1.totalCount == |rows|
    ensures r.1.hasPrev <==> r.1.currentPage > 1
    ensures r.1.hasNext <==> r.1.currentPage < r.1.totalPages
    ensures r.1.totalPages * r.1.perPage >= |rows| > (r.1.totalPages - 1) * r.1.perPage
    ensures |r.0| <= r.1.perPage
    ensures forall t :: t in r.0 ==> t in rows
    ensures r.0 == PageItems(rows, r.1.currentPage, r.1.perPage)
  {
    var pg := if page < 1 then 1 else page;
    var pp := if perPage < 1 then 20 else perPage;
    var total := |rows|;
    var pages := PageCount(total, pp);
    (PageItems(rows, pg, pp), PageRecord(pg, pp, pages, total, pg < pages, pg > 1))
  }

  /** The rows of page `page`: from offset (page - 1) * size, at most
      `size` of them. */
  function PageItems(rows: seq<Task>, page: int, size: int): (r: seq<Task>)
    requires page >= 1 && size >= 1
    ensures |r| <= size
    ensures var start := PageOffset(page, size);
            && (start < |rows| ==> r == rows[start..Min(start + size, |rows|)])
            && (start >= |rows| ==> r == [])
    ensures forall t :: t in r ==> t in rows
  {
    var start := PageOffset(page, size);
    if start >= |rows| then [] else rows[start..Min(start + size, |rows|)]
  }

  /** The number of rows before page `page`. */
  function PageOffset(page: int, size: int): (start: nat)
    requires page >= 1 && size >= 1
    ensures start == (page - 1) * size
  {
    (page - 1) * size
  }

  /** ceil(total / size), the number of pages: the fewest pages of `size`
      rows that hold `total` rows. */
  function PageCount(total: nat, size: int): (pages: nat)
    requires size >= 1
    ensures pages * size >= total > (pages - 1) * size
  {
    if total == 0 then 0
    else
      var q := (total + size - 1) / size;
      var rem := (total + size - 1) % size;
      assert total + size - 1 == q * size + rem;
      assert (q - 1) * size == q * size - size;
      q
  }

  // ----- Statistics -----

  datatype Stats = Stats(total: nat, alta: nat, media: nat, baja: nat)

  function Count(tasks: seq<Task>, p: string): (n: nat)
    ensures n <= |tasks|
  {
    if tasks == [] then 0 else (if tasks[0].priority == p then 1 else 0) + Count(tasks[1..], p)
  }

  /** Each count is the size of the query `filter(Task.priority == p)`. */
  lemma {:induction false} CountIsFilterSize(tasks: seq<Task>, p: string)
    ensures Count(tasks, p) == |WithPriority(tasks, p)|
  {
    if tasks != [] {
      CountIsFilterSize(tasks[1..], p);
    }
  }

  /** get_stats: the row count and the count of each priority. */
  function StatsOf(tasks: seq<Task>): (s: Stats)
    ensures s.total == |tasks|
  {
    Stats(|tasks|, Count(tasks, "alta"), Count(tasks, "media"), Count(tasks, "baja"))
  }

  /** Because every write stores one of the three priorities, the three
      counts add up to the total. */
  lemma {:induction false} StatsAddUp(tasks: seq<Task>)
    requires forall i :: 0 <= i < |tasks| ==> IsPriority(tasks[i].priority)
    ensures var s := StatsOf(tasks); s.alta + s.media + s.baja == s.total
  {
    if tasks != [] {
      StatsAddUp(tasks[1..]);
    }
  }

  lemma {:induction false} CountAppend(a: seq<Task>, b: seq<Task>, p: string)
    ensures Count(a + b, p) == Count(a, p) + Count(b, p)
  {
    if a == [] {
      assert a + b == b;
    } else {
      assert (a + b)[1..] == a[1..] + b;
      CountAppend(a[1..], b, p);
    }
  }

  /** A successful create adds one to the total and one to the count of
      the new task's priority, and leaves the other counts alone. */
  lemma CreateCountsOnce(tasks: seq<Task>, t: Task, p: string)
    ensures StatsOf(tasks + [t]).total == StatsOf(tasks).total + 1
    ensures Count(tasks + [t], p) == Count(tasks, p) + (if t.priority == p then 1 else 0)
  {
    CountAppend(tasks, [t], p);
  }

  /** A delete takes one off the total and off the count of the removed
      task's priority. */
  lemma RemoveCountsOnce(tasks: seq<Task>, k: nat, p: string)
    requires k < |tasks|
    ensures Count(tasks[..k] + tasks[k + 1..], p) == Count(tasks, p) - (if tasks[k].priority == p then 1 else 0)
  {
    assert tasks == tasks[..k] + ([tasks[k]] + tasks[k + 1..]);
    CountAppend(tasks[..k], [tasks[k]] + tasks[k + 1..], p);
    CountAppend([tasks[k]], tasks[k + 1..], p);
    CountAppend(tasks[..k], tasks[k + 1..], p);
  }
}
