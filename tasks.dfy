/** The `Task` record of src/main.py: its fields, the validation its
    constructor performs, and the lookups and field updates `TaskList`
    applies to single tasks. */
module Tasks {
  import opened Outcomes
  import opened Text

  datatype Status = Todo | InProgress | Done

  datatype Priority = High | Medium | Low

  /** The stored, lower-case form of a status. */
  function StatusName(s: Status): string {
    match s
    case Todo => "todo"
    case InProgress => "in-progress"
    case Done => "done"
  }

  /** The stored, capitalised form of a priority. */
  function PriorityName(p: Priority): string {
    match p
    case High => "High"
    case Medium => "Medium"
    case Low => "Low"
  }

  /** The status `s` names, compared case-insensitively. */
  function ParseStatus(s: string): (r: Option<Status>)
    ensures forall st :: r == Some(st) <==> Lower(s) == StatusName(st)
  {
    var l := Lower(s);
    if l == "todo" then Some(Todo)
    else if l == "in-progress" then Some(InProgress)
    else if l == "done" then Some(Done)
    else None
  }

  /** The priority `s` names once capitalised. */
  function ParsePriority(s: string): (r: Option<Priority>)
    ensures forall p :: r == Some(p) <==> Capitalize(s) == PriorityName(p)
  {
    var c := Capitalize(s);
    if c == "High" then Some(High)
    else if c == "Medium" then Some(Medium)
    else if c == "Low" then Some(Low)
    else None
  }

  /** Every stored status name parses back to its status. */
  lemma ParseStatusName(st: Status)
    ensures ParseStatus(StatusName(st)) == Some(st)
  {
    LowerNoUpper(StatusName(st));
  }

  /** Every stored priority name parses back to its priority. */
  lemma ParsePriorityName(p: Priority)
    ensures ParsePriority(PriorityName(p)) == Some(p)
  {
    CapitalizeNoUpper(PriorityName(p));
  }

  datatype Task = Task(id: int, title: string, status: Status, priority: Priority)

  /** What `Task.__init__` guarantees of every task it builds: a positive id and
      a non-empty title that stripping leaves unchanged (see `Text.StripTrimmed`). */
  predicate ValidTask(t: Task) {
    t.id >= 1 && t.title != [] && Trimmed(t.title)
  }

  /** `Task.__init__`: checks the id, the title, the status and the priority in
      that order and stores the stripped, lower-cased and capitalised forms. */
  function MakeTask(id: int, title: string, status: string, priority: string): (r: Result<Task>)
    ensures r.Ok? <==> id >= 1 && Strip(title) != [] && ParseStatus(status).Some? && ParsePriority(priority).Some?
    ensures r.Ok? ==> ValidTask(r.value) && r.value.id == id && r.value.title == Strip(title)
    ensures r.Ok? ==> StatusName(r.value.status) == Lower(status) && PriorityName(r.value.priority) == Capitalize(priority)
    ensures id < 1 ==> r == Err(ValidationError(BadId))
    ensures id >= 1 && Strip(title) == [] ==> r == Err(ValidationError(EmptyTitle))
    ensures id >= 1 && Strip(title) != [] && ParseStatus(status).None? ==> r == Err(ValidationError(BadStatus))
    ensures id >= 1 && Strip(title) != [] && ParseStatus(status).Some? && ParsePriority(priority).None? ==>
              r == Err(ValidationError(BadPriority))
  {
    if id < 1 then Err(ValidationError(BadId))
    else if Strip(title) == [] then Err(ValidationError(EmptyTitle))
    else match ParseStatus(status)
      case None => Err(ValidationError(BadStatus))
      case Some(st) =>
        match ParsePriority(priority)
        case None => Err(ValidationError(BadPriority))
        case Some(p) =>
          Ok(Task(id, Strip(title), st, p))
  }

  /** `Task.__init__` succeeds once every check passes. */
  lemma MakeTaskAccepts(id: int, title: string, status: string, priority: string, st: Status, p: Priority)
    requires id >= 1 && Strip(title) != []
    requires ParseStatus(status) == Some(st) && ParsePriority(priority) == Some(p)
    ensures MakeTask(id, title, status, priority) == Ok(Task(id, Strip(title), st, p))
  {
  }

  /** A valid task passes through `Task.__init__` unchanged. */
  lemma RebuildValid(t: Task)
    requires ValidTask(t)
    ensures MakeTask(t.id, t.title, StatusName(t.status), PriorityName(t.priority)) == Ok(t)
  {
    ParseStatusName(t.status);
    ParsePriorityName(t.priority);
    StripTrimmed(t.title);
    MakeTaskAccepts(t.id, t.title, StatusName(t.status), PriorityName(t.priority), t.status, t.priority);
  }

  /** `TaskList._find_task`: the position of the first task with id `id`. */
  function FindIndex(ts: seq<Task>, id: int): (r: Option<nat>)
    ensures r.Some? ==> r.value < |ts| && ts[r.value].id == id
    ensures r.Some? ==> forall j :: 0 <= j < r.value ==> ts[j].id != id
    ensures r.None? <==> forall j :: 0 <= j < |ts| ==> ts[j].id != id
  {
    if ts == [] then None
    else if ts[0].id == id then Some(0)
    else match FindIndex(ts[1..], id)
      case None => None
      case Some(k) => Some(k + 1)
  }

  /** The ids in `ts` are pairwise distinct. */
  predicate DistinctIds(ts: seq<Task>) {
    forall i, j :: 0 <= i < j < |ts| ==> ts[i].id != ts[j].id
  }

  /** The state invariant of a task list: every task valid, ids distinct, and
      every id below the next id to hand out. */
  predicate Consistent(ts: seq<Task>, nextId: int) {
    nextId >= 1 && DistinctIds(ts) && forall t :: t in ts ==> ValidTask(t) && t.id < nextId
  }

  /** A title update and a priority update for one task, and what they report. */
  datatype DetailsUpdate = DetailsUpdate(task: Task, report: Report)

  /** `TaskList.update_task` on a found task, validating before committing: a
      supplied priority that is invalid rejects the whole update. */
  function ApplyDetails(t: Task, title: Option<string>, priority: Option<string>): (u: DetailsUpdate)
    ensures priority.Some? && ParsePriority(priority.value).None? ==>
              u == DetailsUpdate(t, Failure(ValidationError(BadPriority)))
    ensures u.report.Failure? ==> u.task == t
    ensures u.task.id == t.id && u.task.status == t.status
    ensures ValidTask(t) ==> ValidTask(u.task)
    ensures !(priority.Some? && ParsePriority(priority.value).None?) ==>
              && u.task.title == (if title.Some? && Strip(title.value) != [] then Strip(title.value) else t.title)
              && u.task.priority == (if priority.Some? then ParsePriority(priority.value).value else t.priority)
              && u.report == (if title.Some? || priority.Some? then Success else NoChange)
  {
    if priority.Some? && ParsePriority(priority.value).None? then
      DetailsUpdate(t, Failure(ValidationError(BadPriority)))
    else
      var newTitle := if title.Some? && Strip(title.value) != [] then Strip(title.value) else t.title;
      var newPriority := if priority.Some? then ParsePriority(priority.value).value else t.priority;
      DetailsUpdate(t.(title := newTitle, priority := newPriority),
                    if title.Some? || priority.Some? then Success else NoChange)
  }

  /** `TaskList.update_task` as src/main.py writes it: the title is assigned
      before the priority is checked, so an invalid priority still leaves the
      new title in place. */
  function ApplyDetailsAsWritten(t: Task, title: Option<string>, priority: Option<string>): (u: DetailsUpdate)
    ensures u.task.id == t.id && u.task.status == t.status
  {
    var t1 := if title.Some? && Strip(title.value) != [] then t.(title := Strip(title.value)) else t;
    if priority.Some? && ParsePriority(priority.value).None? then
      DetailsUpdate(t1, Failure(ValidationError(BadPriority)))
    else
      DetailsUpdate(t1.(priority := if priority.Some? then ParsePriority(priority.value).value else t.priority),
                    if title.Some? || priority.Some? then Success else NoChange)
  }

  /** Both versions agree unless the priority is invalid; then the code as written
      still commits the title update alone, and reports the invalid priority. */
  lemma AsWrittenAgrees(t: Task, title: Option<string>, priority: Option<string>)
    ensures var u := ApplyDetailsAsWritten(t, title, priority);
            && (!(priority.Some? && ParsePriority(priority.value).None?) ==> u == ApplyDetails(t, title, priority))
            && (priority.Some? && ParsePriority(priority.value).None? ==>
                  u == DetailsUpdate(ApplyDetails(t, title, None).task, Failure(ValidationError(BadPriority))))
  {
  }

  /** As written, an update that fails on its priority can still change the task. */
  lemma AsWrittenPartialUpdate(t: Task, title: string, priority: string)
    requires Strip(title) != [] && Strip(title) != t.title && ParsePriority(priority).None?
    ensures ApplyDetailsAsWritten(t, Some(title), Some(priority)).report == Failure(ValidationError(BadPriority))
    ensures ApplyDetailsAsWritten(t, Some(title), Some(priority)).task.title == Strip(title) != t.title
  {
  }

  /** "urgent" is not a priority. */
  lemma RejectsUrgent()
    ensures ParsePriority("urgent") == None
  {
    CapitalizeNoUpper("urgent");
  }

  /** The input that shows it: `update_task(1, "New", "urgent")` on task 1 titled
      "Old" reports the invalid priority yet renames the task. */
  lemma AsWrittenPartialUpdateExample(t: Task)
    requires t == Task(1, "Old", Todo, Low)
    ensures var u := ApplyDetailsAsWritten(t, Some("New"), Some("urgent"));
            u.report == Failure(ValidationError(BadPriority)) && u.task.title == "New"
  {
    RejectsUrgent();
    AsWrittenPartialUpdate(t, "New", "urgent");
  }
}
