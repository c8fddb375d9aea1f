/** `TaskList` of src/main.py: the ordered task list and the `next_id` counter,
    updated in place by its operations. */
module TaskManager {
  import opened Outcomes
  import opened Text
  import opened Tasks
  import opened Queries
  import opened Sorting
  import opened Persistence

  /** What `load_from_file` finds at the path it is given. */
  datatype FileState =
    | Absent                  // os.path.exists is false
    | Unreadable              // opening or reading raises IOError / PermissionError
    | Malformed               // json.load raises JSONDecodeError
    | Contents(doc: Document) // the parsed JSON object

  class TaskList {
    var tasks: seq<Task>
    var nextId: int

    /** Every task valid, ids distinct, every id below `nextId`. */
    ghost predicate Valid()
      reads this
      ensures Valid() ==> FindIndex(tasks, nextId).None?
    {
      assert forall j :: 0 <= j < |tasks| ==> tasks[j] in tasks;
      Consistent(tasks, nextId)
    }

    constructor ()
      ensures tasks == [] && nextId == 1 && Valid()
    {
      tasks := [];
      nextId := 1;
    }

    /** `add_task`: a new "todo" task with id `nextId`; the counter advances only
        when the task is accepted. */
    method Add(title: string, priority: string) returns (r: Result<int>)
      modifies this
      ensures var made := MakeTask(old(nextId), title, "todo", priority);
              if made.Ok? then
                r == Ok(old(nextId)) && tasks == old(tasks) + [made.value] && nextId == old(nextId) + 1
              else
                r == Err(made.error) && tasks == old(tasks) && nextId == old(nextId)
      ensures r.Ok? ==> tasks[|tasks| - 1] == Task(r.value, Strip(title), Todo, ParsePriority(priority).value)
      ensures old(Valid()) ==> Valid()
    {
      var made := MakeTask(nextId, title, "todo", priority);
      LowerNoUpper("todo");
      match made {
        case Ok(t) =>
          assert t.status == Todo;
          AppendPreserves(tasks, t, nextId);
          tasks := tasks + [t];
          r := Ok(nextId);
          nextId := nextId + 1;
        case Err(e) =>
          r := Err(e);
      }
    }

    /** `update_task_status`: sets the status of the first task with id `id`. */
    method UpdateStatus(id: int, status: string) returns (r: Report)
      modifies this
      ensures nextId == old(nextId)
      ensures FindIndex(old(tasks), id).None? ==> r == Failure(NotFound) && tasks == old(tasks)
      ensures FindIndex(old(tasks), id).Some? && ParseStatus(status).None? ==>
                r == Failure(ValidationError(BadStatus)) && tasks == old(tasks)
      ensures FindIndex(old(tasks), id).Some? && ParseStatus(status).Some? ==>
                var i := FindIndex(old(tasks), id).value;
                r == Success && tasks == old(tasks)[i := old(tasks)[i].(status := ParseStatus(status).value)]
      ensures old(Valid()) ==> Valid()
    {
      match FindIndex(tasks, id) {
        case None =>
          r := Failure(NotFound);
        case Some(i) =>
          match ParseStatus(status) {
            case None =>
              r := Failure(ValidationError(BadStatus));
            case Some(st) =>
              ghost var before := tasks;
              tasks := tasks[i := tasks[i].(status := st)];
              ReplacePreserves(before, i, tasks[i], nextId);
              r := Success;
          }
      }
    }

    /** `update_task`, validating before committing: an invalid priority leaves
        the task untouched; neither value supplied reports `NoChange`. */
    method UpdateDetails(id: int, title: Option<string>, priority: Option<string>) returns (r: Report)
      modifies this
      ensures nextId == old(nextId)
      ensures FindIndex(old(tasks), id).None? ==> r == Failure(NotFound) && tasks == old(tasks)
      ensures FindIndex(old(tasks), id).Some? ==>
                var i := FindIndex(old(tasks), id).value;
                var u := ApplyDetails(old(tasks)[i], title, priority);
                r == u.report && tasks == old(tasks)[i := u.task]
      ensures r.Failure? ==> tasks == old(tasks)
      ensures old(Valid()) ==> Valid()
    {
      match FindIndex(tasks, id) {
        case None =>
          r := Failure(NotFound);
        case Some(i) =>
          var u := ApplyDetails(tasks[i], title, priority);
          ghost var before := tasks;
          tasks := tasks[i := u.task];
          ReplacePreserves(before, i, u.task, nextId);
          r := u.report;
      }
    }

    /** `delete_task` with the confirmation answer as a parameter: removes the
        first task with id `id`; the counter is untouched so ids are not reused. */
    method Delete(id: int, confirmed: bool) returns (r: Report)
      modifies this
      ensures nextId == old(nextId)
      ensures FindIndex(old(tasks), id).None? ==> r == Failure(NotFound) && tasks == old(tasks)
      ensures FindIndex(old(tasks), id).Some? && !confirmed ==> r == Cancelled && tasks == old(tasks)
      ensures FindIndex(old(tasks), id).Some? && confirmed ==>
                var i := FindIndex(old(tasks), id).value;
                r == Success && tasks == old(tasks)[..i] + old(tasks)[i + 1..]
      ensures old(Valid()) ==> Valid()
      ensures old(Valid()) ==> forall t :: t in tasks <==> t in old(tasks) && (t.id != id || !confirmed)
    {
      match FindIndex(tasks, id) {
        case None =>
          r := Failure(NotFound);
        case Some(i) =>
          if confirmed {
            ghost var before := tasks;
            tasks := tasks[..i] + tasks[i + 1..];
            RemovePreserves(before, i, nextId);
            r := Success;
          } else {
            r := Cancelled;
          }
      }
    }

    /** `list_tasks`: the tasks passing both filters, in list order. */
    method List(statusFilter: string, priorityFilter: string) returns (r: Result<seq<Task>>)
      ensures StatusFilter(statusFilter).None? ==> r == Err(ValidationError(BadStatusFilter))
      ensures StatusFilter(statusFilter).Some? && PriorityFilter(priorityFilter).None? ==>
                r == Err(ValidationError(BadPriorityFilter))
      ensures StatusFilter(statusFilter).Some? && PriorityFilter(priorityFilter).Some? ==>
                r == Ok(Select(tasks, StatusFilter(statusFilter).value, PriorityFilter(priorityFilter).value))
      ensures r.Ok? ==> forall t :: t in r.value <==>
                t in tasks && Matches(t, StatusFilter(statusFilter).value, PriorityFilter(priorityFilter).value)
    {
      var sf := StatusFilter(statusFilter);
      if sf.None? {
        return Err(ValidationError(BadStatusFilter));
      }
      var pf := PriorityFilter(priorityFilter);
      if pf.None? {
        return Err(ValidationError(BadPriorityFilter));
      }
      var found: seq<Task> := [];
      var count := 0;
      var i := 0;
      while i < |tasks|
        invariant 0 <= i <= |tasks|
        invariant found == Select(tasks[..i], sf.value, pf.value)
        invariant count == |found|
      {
        var t := tasks[i];
        SelectNext(tasks, i, sf.value, pf.value);
        if Matches(t, sf.value, pf.value) {
          found := found + [t];
          count := count + 1;
        }
        i := i + 1;
      }
      assert tasks[..i] == tasks;
      SelectMembers(tasks, sf.value, pf.value);
      r := Ok(found);
    }

    /** `search_tasks`: the tasks whose lower-cased title contains the lower-cased
        keyword, in list order; the keyword is not stripped for the match. */
    method Search(keyword: string) returns (r: Result<seq<Task>>)
      ensures Strip(keyword) == [] <==> r == Err(ValidationError(EmptyKeyword))
      ensures Strip(keyword) != [] ==> r == Ok(Matching(tasks, Lower(keyword)))
      ensures r.Ok? ==> forall t :: t in r.value <==> t in tasks && Contains(Lower(t.title), Lower(keyword))
    {
      if Strip(keyword) == [] {
        return Err(ValidationError(EmptyKeyword));
      }
      var kw := Lower(keyword);
      var found: seq<Task> := [];
      var count := 0;
      var i := 0;
      while i < |tasks|
        invariant 0 <= i <= |tasks|
        invariant found == Matching(tasks[..i], kw)
        invariant count == |found|
      {
        var t := tasks[i];
        MatchingNext(tasks, i, kw);
        if TitleHas(t, kw) {
          found := found + [t];
          count := count + 1;
        }
        i := i + 1;
      }
      assert tasks[..i] == tasks;
      MatchingMembers(tasks, kw);
      r := Ok(found);
    }

    /** `sort_tasks`: a stable sort on the named field, descending when
        `ascending` is false; nothing but the order changes. */
    method Sort(field: string, ascending: bool) returns (r: Report)
      modifies this
      ensures nextId == old(nextId)
      ensures ParseSortField(field).None? ==> r == Failure(ValidationError(BadSortField)) && tasks == old(tasks)
      ensures ParseSortField(field).Some? ==>
                r == Success && tasks == SortBy(old(tasks), ParseSortField(field).value, ascending)
      ensures multiset(tasks) == multiset(old(tasks))
      ensures old(Valid()) ==> Valid()
    {
      match ParseSortField(field) {
        case None =>
          r := Failure(ValidationError(BadSortField));
        case Some(f) =>
          ghost var before := tasks;
          tasks := SortBy(tasks, f, ascending);
          SortByPermutes(before, f, ascending);
          PermutationPreserves(before, tasks, nextId);
          if Consistent(before, nextId) { SortByDistinct(before, f, ascending); }
          r := Success;
      }
    }

    /** `save_to_file`: the document written, or an I/O failure when the file
        cannot be written; the list itself is not changed. */
    method Save(writable: bool) returns (r: Report, written: Option<Document>)
      ensures writable ==> r == Success && written == Some(Encode(tasks, nextId))
      ensures !writable ==> r == Failure(IoError) && written == None
    {
      if writable {
        r, written := Success, Some(Encode(tasks, nextId));
      } else {
        r, written := Failure(IoError), None;
      }
    }

    /** `load_from_file`. A missing file keeps the current state; unreadable or
        malformed files reset it to empty with counter 1; otherwise the records
        are rebuilt one by one through `Task.__init__`. A failing record stops the
        load with the tasks built so far in place and the counter unchanged; a
        complete load sets the counter past the largest id, or to the stored
        counter if larger. Duplicate ids in the file are not rejected. */
    method Load(file: FileState) returns (r: Report)
      modifies this
      ensures file == Absent ==> r == FileMissing && tasks == old(tasks) && nextId == old(nextId)
      ensures file == Unreadable ==> r == Failure(IoError) && tasks == [] && nextId == 1
      ensures file == Malformed ==> r == Failure(DataError) && tasks == [] && nextId == 1
      ensures file.Contents? ==>
                var d := DecodeTasks(file.doc.tasks.GetOr([]));
                && tasks == d.tasks
                && (d.failure.None? ==> r == Success && nextId == LoadedNextId(d.tasks, file.doc.nextId))
                && (d.failure.Some? ==> r == Failure(d.failure.value) && nextId == old(nextId))
      ensures r == Success ==> (Valid() <==> DistinctIds(tasks))
    {
      match file {
        case Absent =>
          r := FileMissing;
        case Unreadable =>
          tasks, nextId := [], 1;
          r := Failure(IoError);
        case Malformed =>
          tasks, nextId := [], 1;
          r := Failure(DataError);
        case Contents(doc) =>
          r := LoadDocument(doc);
      }
    }

    /** The part of `load_from_file` that rebuilds the tasks of a parsed document. */
    method LoadDocument(doc: Document) returns (r: Report)
      modifies this
      ensures var d := DecodeTasks(doc.tasks.GetOr([]));
              && tasks == d.tasks
              && (d.failure.None? ==> r == Success && nextId == LoadedNextId(d.tasks, doc.nextId))
              && (d.failure.Some? ==> r == Failure(d.failure.value) && nextId == old(nextId))
      ensures r == Success ==> (Valid() <==> DistinctIds(tasks))
    {
      var rs := doc.tasks.GetOr([]);
      tasks := [];
      var maxId := 0;
      var i := 0;
      while i < |rs|
        invariant 0 <= i <= |rs|
        invariant DecodeTasks(rs[..i]) == Decoded(tasks, None)
        invariant maxId == MaxId(tasks)
        invariant nextId == old(nextId)
      {
        DecodeNext(rs, i);
        match FromRecord(rs[i]) {
          case Err(e) =>
            DecodeStops(rs, i + 1);
            r := Failure(e);
            return;
          case Ok(t) =>
            MaxIdNext(tasks, t);
            tasks := tasks + [t];
            maxId := Max(maxId, t.id);
        }
        i := i + 1;
      }
      assert rs[..i] == rs;
      nextId := Max(maxId + 1, doc.nextId.GetOr(1));
      LoadedConsistent(rs, doc.nextId);
      r := Success;
    }
  }

  /** Appending a valid task whose id is the counter, and advancing the counter,
      keeps the invariant. */
  lemma AppendPreserves(ts: seq<Task>, t: Task, nextId: int)
    requires ValidTask(t) && t.id == nextId
    ensures Consistent(ts, nextId) ==> Consistent(ts + [t], nextId + 1)
  {
    if Consistent(ts, nextId) {
      var us := ts + [t];
      forall a, b | 0 <= a < b < |us| ensures us[a].id != us[b].id {
        if b == |ts| { assert us[a] == ts[a] && ts[a] in ts; }
        else { assert us[a] == ts[a] && us[b] == ts[b]; }
      }
    }
  }

  /** One more step of the loop of `load_from_file`. */
  lemma DecodeNext(rs: seq<Record>, i: nat)
    requires i < |rs| && DecodeTasks(rs[..i]).failure.None?
    ensures var d := DecodeTasks(rs[..i]);
            DecodeTasks(rs[..i + 1]) == match FromRecord(rs[i])
              case Ok(t) => Decoded(d.tasks + [t], None)
              case Err(e) => Decoded(d.tasks, Some(e))
  {
    assert rs[..i + 1][..i] == rs[..i];
  }

  lemma MaxIdNext(ts: seq<Task>, t: Task)
    ensures MaxId(ts + [t]) == Max(MaxId(ts), t.id)
  {
    assert (ts + [t])[..|ts|] == ts;
  }

  /** Replacing one task by a valid one with the same id keeps the invariant. */
  lemma ReplacePreserves(ts: seq<Task>, i: nat, t: Task, nextId: int)
    requires i < |ts| && t.id == ts[i].id && (ValidTask(ts[i]) ==> ValidTask(t))
    ensures Consistent(ts, nextId) ==> Consistent(ts[i := t], nextId)
  {
    if Consistent(ts, nextId) {
      var us := ts[i := t];
      forall u | u in us ensures ValidTask(u) && u.id < nextId {
        var k :| 0 <= k < |us| && us[k] == u;
        assert ts[k] in ts;
      }
    }
  }

  /** Removing one task keeps the invariant. */
  lemma RemovePreserves(ts: seq<Task>, i: nat, nextId: int)
    requires i < |ts|
    ensures Consistent(ts, nextId) ==> Consistent(ts[..i] + ts[i + 1..], nextId)
  {
    var us := ts[..i] + ts[i + 1..];
    if Consistent(ts, nextId) {
      forall a, b | 0 <= a < b < |us| ensures us[a].id != us[b].id {
        RemoveIndex(ts, i, a);
        RemoveIndex(ts, i, b);
      }
      forall u | u in us ensures u in ts {
        var k :| 0 <= k < |us| && us[k] == u;
        RemoveIndex(ts, i, k);
      }
    }
  }

  /** Where the `k`th task after removing position `i` was before. */
  lemma RemoveIndex(ts: seq<Task>, i: nat, k: nat)
    requires i < |ts| && k < |ts| - 1
    ensures (ts[..i] + ts[i + 1..])[k] == ts[if k < i then k else k + 1]
  {
  }

  /** Rearranging the tasks keeps every per-task part of the invariant. */
  lemma PermutationPreserves(ts: seq<Task>, us: seq<Task>, nextId: int)
    requires multiset(us) == multiset(ts)
    ensures (nextId >= 1 && forall t :: t in ts ==> ValidTask(t) && t.id < nextId) ==>
            (forall t :: t in us ==> ValidTask(t) && t.id < nextId)
  {
    forall t | t in us ensures t in ts {
      assert t in multiset(us);
    }
  }
}
