/** The record-level logic of `save_to_file` and `load_from_file`: the JSON
    document is modelled as an already parsed value, one record per task. */
module Persistence {
  import opened Outcomes
  import opened Text
  import opened Tasks

  /** One entry of the "tasks" array; a key absent from the JSON object is `None`. */
  datatype Record = Record(id: Option<int>, title: Option<string>, status: Option<string>, priority: Option<string>)

  /** The whole JSON object: the "tasks" array and the "next_id" counter. */
  datatype Document = Document(tasks: Option<seq<Record>>, nextId: Option<int>)

  /** `Task.to_dict`: every key present, and the stored status and priority
      names read back as the task's own status and priority. */
  function ToRecord(t: Task): (r: Record)
    ensures r.id == Some(t.id) && r.title == Some(t.title) && r.status.Some? && r.priority.Some?
    ensures ParseStatus(r.status.value) == Some(t.status) && ParsePriority(r.priority.value) == Some(t.priority)
  {
    ParseStatusName(t.status);
    ParsePriorityName(t.priority);
    Record(Some(t.id), Some(t.title), Some(StatusName(t.status)), Some(PriorityName(t.priority)))
  }

  function ToRecords(ts: seq<Task>): (rs: seq<Record>)
    ensures |rs| == |ts| && forall i :: 0 <= i < |ts| ==> rs[i] == ToRecord(ts[i])
  {
    if ts == [] then [] else ToRecords(ts[..|ts| - 1]) + [ToRecord(ts[|ts| - 1])]
  }

  /** The document `save_to_file` writes: both keys present, one record per task
      in list order, and the counter. */
  function Encode(ts: seq<Task>, nextId: int): (doc: Document)
    ensures doc.tasks.Some? && |doc.tasks.value| == |ts| && doc.nextId == Some(nextId)
    ensures forall i :: 0 <= i < |ts| ==> doc.tasks.value[i] == ToRecord(ts[i])
  {
    Document(Some(ToRecords(ts)), Some(nextId))
  }

  /** The task `load_from_file` builds from one record: a missing "id" or "title"
      is a lookup failure, a missing status or priority defaults to "todo" or
      "Low", and the values then go through `Task.__init__`. */
  function FromRecord(r: Record): (res: Result<Task>)
    ensures r.id.None? || r.title.None? <==> res == Err(MissingField)
    ensures res.Ok? ==> ValidTask(res.value)
  {
    if r.id.None? || r.title.None? then Err(MissingField)
    else MakeTask(r.id.value, r.title.value, r.status.GetOr("todo"), r.priority.GetOr("Low"))
  }

  /** Which records load, and what a loaded task holds: the record's id, its
      stripped title, and the status and priority its strings name once
      normalised; every other failure is a validation error. */
  lemma FromRecordMeaning(r: Record)
    ensures var res := FromRecord(r);
            && (res.Ok? <==>
                  && r.id.Some? && r.title.Some? && r.id.value >= 1 && Strip(r.title.value) != []
                  && ParseStatus(r.status.GetOr("todo")).Some? && ParsePriority(r.priority.GetOr("Low")).Some?)
            && (res.Ok? ==>
                  && Some(res.value.id) == r.id && res.value.title == Strip(r.title.value)
                  && StatusName(res.value.status) == Lower(r.status.GetOr("todo"))
                  && PriorityName(res.value.priority) == Capitalize(r.priority.GetOr("Low")))
            && (res.Err? && res != Err(MissingField) ==> res.error.ValidationError?)
  {
  }

  /** The tasks built before the first record that fails, and that failure if any. */
  datatype Decoded = Decoded(tasks: seq<Task>, failure: Option<Error>)

  /** The loop of `load_from_file`, record by record; it stops at the first failure. */
  function DecodeTasks(rs: seq<Record>): (d: Decoded)
    ensures |d.tasks| <= |rs|
    ensures forall t :: t in d.tasks ==> ValidTask(t)
  {
    if rs == [] then Decoded([], None)
    else
      var d := DecodeTasks(rs[..|rs| - 1]);
      if d.failure.Some? then d
      else match FromRecord(rs[|rs| - 1])
        case Ok(t) => Decoded(d.tasks + [t], None)
        case Err(e) => Decoded(d.tasks, Some(e))
  }

  /** Once a prefix has failed, longer prefixes decode to the same thing. */
  lemma {:induction false} DecodeStops(rs: seq<Record>, i: nat)
    requires i <= |rs| && DecodeTasks(rs[..i]).failure.Some?
    ensures DecodeTasks(rs) == DecodeTasks(rs[..i])
  {
    if i < |rs| {
      var init := rs[..|rs| - 1];
      assert init[..i] == rs[..i];
      DecodeStops(init, i);
      assert DecodeTasks(init).failure.Some?;
    } else {
      assert rs[..i] == rs;
    }
  }

  /** The load in closed form: it fails exactly when some record fails, and
      then with the error of the first failing record, right after the loaded
      ones; the loaded tasks are the results of the leading records, in order. */
  lemma DecodeTasksFirstFailure(rs: seq<Record>)
    ensures var d := DecodeTasks(rs);
            && (d.failure.None? <==> forall i :: 0 <= i < |rs| ==> FromRecord(rs[i]).Ok?)
            && (d.failure.None? ==> |d.tasks| == |rs|)
            && (d.failure.Some? ==> |d.tasks| < |rs| && FromRecord(rs[|d.tasks|]) == Err(d.failure.value))
            && (forall i :: 0 <= i < |d.tasks| ==> FromRecord(rs[i]) == Ok(d.tasks[i]))
  {
    DecodeLoaded(rs);
    DecodeFailure(rs);
  }

  /** The tasks loaded are the results of the leading records, and on success
      there is one per record. */
  lemma DecodeLoaded(rs: seq<Record>)
    ensures var d := DecodeTasks(rs);
            && (forall i :: 0 <= i < |d.tasks| ==> FromRecord(rs[i]) == Ok(d.tasks[i]))
            && (d.failure.None? ==> |d.tasks| == |rs|)
  {
    DecodeLength(rs);
    forall i | 0 <= i < |DecodeTasks(rs).tasks| ensures FromRecord(rs[i]) == Ok(DecodeTasks(rs).tasks[i]) {
      DecodeAt(rs, i);
    }
  }

  /** A load that does not fail keeps one task per record. */
  lemma {:induction false} DecodeLength(rs: seq<Record>)
    ensures DecodeTasks(rs).failure.None? ==> |DecodeTasks(rs).tasks| == |rs|
  {
    if rs != [] {
      DecodeLength(rs[..|rs| - 1]);
    }
  }

  /** The `i`th loaded task is what the `i`th record loads as. */
  lemma {:induction false} DecodeAt(rs: seq<Record>, i: nat)
    requires i < |DecodeTasks(rs).tasks|
    ensures FromRecord(rs[i]) == Ok(DecodeTasks(rs).tasks[i])
  {
    var init, last := rs[..|rs| - 1], rs[|rs| - 1];
    var d0 := DecodeTasks(init);
    if d0.failure.Some? || FromRecord(last).Err? {
      assert DecodeTasks(rs).tasks == d0.tasks;
      DecodeAt(init, i);
      assert init[i] == rs[i];
    } else {
      var ts := d0.tasks + [FromRecord(last).value];
      assert DecodeTasks(rs).tasks == ts;
      if i < |d0.tasks| {
        DecodeAt(init, i);
        assert init[i] == rs[i] && ts[i] == d0.tasks[i];
      } else {
        DecodeLength(init);
        assert i == |init| && rs[i] == last;
      }
    }
  }

  /** A failed load names the first record that fails. */
  lemma {:induction false} DecodeFailure(rs: seq<Record>)
    ensures var d := DecodeTasks(rs);
            d.failure.Some? ==> |d.tasks| < |rs| && FromRecord(rs[|d.tasks|]) == Err(d.failure.value)
  {
    if rs != [] {
      var init := rs[..|rs| - 1];
      DecodeFailure(init);
      DecodeLength(init);
      var d0 := DecodeTasks(init);
      if d0.failure.Some? {
        assert init[|d0.tasks|] == rs[|d0.tasks|];
      }
    }
  }

  /** The `max_id` the loop accumulates: 0 for no tasks. */
  function MaxId(ts: seq<Task>): (m: int)
    ensures m >= 0 && forall t :: t in ts ==> t.id <= m
    ensures m == 0 || exists t :: t in ts && t.id == m
  {
    if ts == [] then 0
    else
      var last := ts[|ts| - 1];
      var m := MaxId(ts[..|ts| - 1]);
      assert ts == ts[..|ts| - 1] + [last];
      if last.id > m then last.id else m
  }

  function Max(a: int, b: int): int {
    if a >= b then a else b
  }

  /** `next_id` after a load: one past the largest loaded id, or the stored
      counter (1 when absent) if that is larger. */
  function LoadedNextId(ts: seq<Task>, stored: Option<int>): (n: int)
    ensures n >= 1 && n >= stored.GetOr(1) && forall t :: t in ts ==> t.id < n
    ensures n == MaxId(ts) + 1 || n == stored.GetOr(1)
  {
    Max(MaxId(ts) + 1, stored.GetOr(1))
  }

  /** A load of a document accepts it, in the invariant's terms, exactly when
      its ids are distinct. */
  lemma LoadedConsistent(rs: seq<Record>, stored: Option<int>)
    requires DecodeTasks(rs).failure.None?
    ensures var ts := DecodeTasks(rs).tasks;
            Consistent(ts, LoadedNextId(ts, stored)) <==> DistinctIds(ts)
  {
  }

  /** Round trip: loading what `save_to_file` wrote gives back the same tasks in
      the same order and the same counter. Distinct ids are not needed: a list
      loaded with duplicate ids round-trips too. */
  lemma {:induction false} RoundTrip(ts: seq<Task>, nextId: int)
    requires nextId >= 1 && forall t :: t in ts ==> ValidTask(t) && t.id < nextId
    ensures DecodeTasks(Encode(ts, nextId).tasks.value) == Decoded(ts, None)
    ensures LoadedNextId(ts, Encode(ts, nextId).nextId) == nextId
  {
    DecodeRecords(ts);
    var m := MaxId(ts);
    if m != 0 {
      var t :| t in ts && t.id == m;
      assert m < nextId;
    }
  }

  lemma {:induction false} DecodeRecords(ts: seq<Task>)
    requires forall t :: t in ts ==> ValidTask(t)
    ensures DecodeTasks(ToRecords(ts)) == Decoded(ts, None)
  {
    if ts != [] {
      var init, last := ts[..|ts| - 1], ts[|ts| - 1];
      assert ts == init + [last];
      assert forall t :: t in init ==> t in ts;
      DecodeRecords(init);
      FromRecordOf(last);
      DecodeAppendOk(ToRecords(init), ToRecord(last), init, last);
    }
  }

  /** A record that loads extends a load that has not failed. */
  lemma DecodeAppendOk(rs: seq<Record>, r: Record, ts: seq<Task>, t: Task)
    requires DecodeTasks(rs) == Decoded(ts, None) && FromRecord(r) == Ok(t)
    ensures DecodeTasks(rs + [r]) == Decoded(ts + [t], None)
  {
    assert (rs + [r])[..|rs|] == rs;
  }

  /** A saved valid task loads back as itself. */
  lemma FromRecordOf(t: Task)
    requires ValidTask(t)
    ensures FromRecord(ToRecord(t)) == Ok(t)
  {
    var r := ToRecord(t);
    assert r.id == Some(t.id) && r.title == Some(t.title);
    assert r.status.GetOr("todo") == StatusName(t.status) && r.priority.GetOr("Low") == PriorityName(t.priority);
    RebuildValid(t);
  }
}
