/** Clients of `TaskList` that replay the documented usage: what a caller can
    conclude from the contracts alone. */
module Scenarios {
  import opened Outcomes
  import opened Text
  import opened Tasks
  import opened Queries
  import opened Sorting
  import opened Persistence
  import opened TaskManager

  lemma BuildsTaskA()
    ensures MakeTask(1, "Task A", "todo", "High") == Ok(Task(1, "Task A", Todo, High))
  {
    StripTrimmed("Task A");
    ParseStatusName(Todo);
    ParsePriorityName(High);
    MakeTaskAccepts(1, "Task A", "todo", "High", Todo, High);
  }

  lemma BuildsTaskB()
    ensures MakeTask(2, "Task B", "todo", "Low") == Ok(Task(2, "Task B", Todo, Low))
  {
    StripTrimmed("Task B");
    ParseStatusName(Todo);
    ParsePriorityName(Low);
    MakeTaskAccepts(2, "Task B", "todo", "Low", Todo, Low);
  }

  lemma ParsesInProgress()
    ensures ParseStatus("in-progress") == Some(InProgress)
  {
    LowerNoUpper("in-progress");
  }

  lemma RejectsInvalidStatus()
    ensures ParseStatus("invalid-status") == None
  {
    LowerNoUpper("invalid-status");
  }

  lemma BuildsOld()
    ensures MakeTask(1, "Old", "todo", "Low") == Ok(Task(1, "Old", Todo, Low))
  {
    StripTrimmed("Old");
    ParseStatusName(Todo);
    ParsePriorityName(Low);
    MakeTaskAccepts(1, "Old", "todo", "Low", Todo, Low);
  }

  lemma RenamesOld()
    ensures ApplyDetails(Task(1, "Old", Todo, Low), Some("New"), Some("Medium")) ==
            DetailsUpdate(Task(1, "New", Todo, Medium), Success)
  {
    StripTrimmed("New");
    ParsePriorityName(Medium);
    DetailsApplied(Task(1, "Old", Todo, Low), "New", "Medium", Medium);
  }

  lemma DetailsApplied(t: Task, title: string, priority: string, p: Priority)
    requires Strip(title) != [] && ParsePriority(priority) == Some(p)
    ensures ApplyDetails(t, Some(title), Some(priority)) ==
            DetailsUpdate(t.(title := Strip(title), priority := p), Success)
  {
  }

  lemma BuildsLearn(id: int)
    requires id >= 1
    ensures MakeTask(id, "Learn Python", "todo", "High") == Ok(Task(id, "Learn Python", Todo, High))
  {
    StripTrimmed("Learn Python");
    ParseStatusName(Todo);
    ParsePriorityName(High);
    MakeTaskAccepts(id, "Learn Python", "todo", "High", Todo, High);
  }

  lemma BuildsReadme(id: int)
    requires id >= 1
    ensures MakeTask(id, "Write README", "todo", "Medium") == Ok(Task(id, "Write README", Todo, Medium))
  {
    StripTrimmed("Write README");
    ParseStatusName(Todo);
    ParsePriorityName(Medium);
    MakeTaskAccepts(id, "Write README", "todo", "Medium", Todo, Medium);
  }

  /** A title that starts with the keyword, in any case, contains it once lower-cased. */
  lemma LowerPrefixMatches(title: string, kw: string)
    requires |kw| <= |title| && Lower(title[..|kw|]) == kw
    ensures Contains(Lower(title), kw)
  {
    forall k | 0 <= k < |kw| ensures Lower(title)[k] == kw[k] {
      assert Lower(title[..|kw|])[k] == LowerChar(title[k]);
    }
    assert Lower(title)[..|kw|] == kw;
    ContainsPrefix(Lower(title), kw);
  }

  /** A keyword whose first letter a text lacks does not occur in it. */
  lemma MissingFirstLetter(hay: string, kw: string)
    requires kw != [] && forall k :: 0 <= k < |hay| ==> hay[k] != kw[0]
    ensures !Contains(hay, kw)
  {
    forall i: nat ensures !OccursAt(kw, hay, i) {
      if i + |kw| <= |hay| {
        assert hay[i..i + |kw|][0] == hay[i];
      }
    }
  }

  /** The keyword "learn" is not blank. */
  lemma LearnKeyword()
    ensures Strip("learn") != []
  {
    StripTrimmed("learn");
  }

  /** The keyword "learn" is already lower-case. */
  lemma LearnLower()
    ensures Lower("learn") == "learn"
  {
    LowerNoUpper("learn");
  }

  /** "Learn Python" matches the keyword "learn". */
  lemma LearnPythonMatches()
    ensures Contains(Lower("Learn Python"), "learn")
  {
    assert Lower("Learn Python"[..5]) == "learn";
    LowerPrefixMatches("Learn Python", "learn");
  }

  /** "Write README" does not match the keyword "learn": it has no letter l. */
  lemma ReadmeLacksLearn()
    ensures !Contains(Lower("Write README"), "learn")
  {
    assert Lower("Write README") == "write readme";
    MissingFirstLetter(Lower("Write README"), "learn");
  }

  /** Of two tasks, a search lists the one whose title matches and not the other. */
  lemma MatchingFirstOnly(a: Task, b: Task, keyword: string)
    requires TitleHas(a, keyword) && !TitleHas(b, keyword)
    ensures Matching([a, b], keyword) == [a]
  {
    var ts := [a, b];
    assert ts[..2] == ts && ts[..0] == [];
    MatchingNext(ts, 0, keyword);
    MatchingNext(ts, 1, keyword);
  }

  /** Two tasks whose titles are already in order keep that order when sorted by title. */
  lemma TitleOrder(ta: Task, tb: Task)
    requires StrLt(ta.title, tb.title)
    ensures SortBy([ta, tb], ByTitle, true) == [ta, tb]
  {
    assert !StrLt(tb.title, ta.title) by {
      if StrLt(tb.title, ta.title) {
        StrLtTransitive(ta.title, tb.title, ta.title);
        StrLtIrreflexive(ta.title);
      }
    }
    assert [ta, tb][1..] == [tb] && [tb][1..] == [];
    assert SortBy([tb], ByTitle, true) == [tb];
    assert !Before(ByTitle, true, tb, ta);
  }

  lemma ParsesTitle()
    ensures ParseSortField("title") == Some(ByTitle)
  {
    LowerNoUpper("title");
  }

  /** An add whose arguments build `t` appends `t` and advances the counter. */
  method AddBuilt(list: TaskList, title: string, priority: string, t: Task) returns (r: Result<int>)
    requires MakeTask(list.nextId, title, "todo", priority) == Ok(t)
    modifies list
    ensures r == Ok(old(list.nextId))
    ensures list.tasks == old(list.tasks) + [t] && list.nextId == old(list.nextId) + 1
    ensures old(list.Valid()) ==> list.Valid()
  {
    r := list.Add(title, priority);
  }

  /** On a new list the first add gets id 1. */
  method AddFirst(list: TaskList)
    requires list.tasks == [] && list.nextId == 1
    modifies list
    ensures list.tasks == [Task(1, "Task A", Todo, High)] && list.nextId == 2
  {
    BuildsTaskA();
    var r := AddBuilt(list, "Task A", "High", Task(1, "Task A", Todo, High));
  }

  /** The second add gets id 2 and goes to the end. */
  method AddSecond(list: TaskList)
    requires list.nextId == 2
    modifies list
    ensures list.tasks == old(list.tasks) + [Task(2, "Task B", Todo, Low)] && list.nextId == 3
  {
    BuildsTaskB();
    var r := AddBuilt(list, "Task B", "Low", Task(2, "Task B", Todo, Low));
  }

  /** A status update lands on the first task only. */
  method UpdateFirst(list: TaskList)
    requires list.tasks == [Task(1, "Task A", Todo, High), Task(2, "Task B", Todo, Low)]
    modifies list
    ensures list.tasks == [Task(1, "Task A", InProgress, High), Task(2, "Task B", Todo, Low)]
    ensures list.nextId == old(list.nextId)
  {
    ParsesInProgress();
    assert FindIndex(list.tasks, 1) == Some(0);
    var u := list.UpdateStatus(1, "in-progress");
    assert u == Success;
  }

  /** An unknown status is rejected and the task keeps its status. */
  method UpdateInvalid(list: TaskList)
    requires list.tasks == [Task(1, "Task A", InProgress, High), Task(2, "Task B", Todo, Low)]
    modifies list
    ensures list.tasks == old(list.tasks)
    ensures list.nextId == old(list.nextId)
  {
    RejectsInvalidStatus();
    assert FindIndex(list.tasks, 1) == Some(0);
    var u := list.UpdateStatus(1, "invalid-status");
    assert u == Failure(ValidationError(BadStatus));
  }

  /** Deleting an absent id reports `NotFound` and changes nothing. */
  method DeleteAbsent(list: TaskList)
    requires list.tasks == [Task(1, "Task A", InProgress, High), Task(2, "Task B", Todo, Low)]
    modifies list
    ensures list.tasks == old(list.tasks)
    ensures list.nextId == old(list.nextId)
  {
    assert FindIndex(list.tasks, 99) == None;
    var d := list.Delete(99, true);
    assert d == Failure(NotFound);
  }

  /** Adding, updating the status of, and deleting in a two-task list. */
  method Session() returns (list: TaskList)
    ensures list.tasks == [Task(1, "Task A", InProgress, High), Task(2, "Task B", Todo, Low)]
    ensures list.nextId == 3
  {
    list := new TaskList();
    AddFirst(list);
    AddSecond(list);
    assert list.tasks == [Task(1, "Task A", Todo, High), Task(2, "Task B", Todo, Low)];
    UpdateFirst(list);
    UpdateInvalid(list);
    DeleteAbsent(list);
  }

  /** The first add of the search scenario gets id 1. */
  method AddLearn(list: TaskList)
    requires list.nextId == 1
    modifies list
    ensures list.tasks == old(list.tasks) + [Task(1, "Learn Python", Todo, High)] && list.nextId == 2
  {
    BuildsLearn(list.nextId);
    var r := AddBuilt(list, "Learn Python", "High", Task(1, "Learn Python", Todo, High));
  }

  /** The second add of the search scenario gets id 2 and goes to the end. */
  method AddReadme(list: TaskList)
    requires list.nextId == 2
    modifies list
    ensures list.tasks == old(list.tasks) + [Task(2, "Write README", Todo, Medium)] && list.nextId == 3
  {
    BuildsReadme(list.nextId);
    var r := AddBuilt(list, "Write README", "Medium", Task(2, "Write README", Todo, Medium));
  }

  /** A search for "learn" lists exactly the "Learn Python" task. */
  method SearchLearn(list: TaskList) returns (found: seq<Task>)
    requires list.tasks == [Task(1, "Learn Python", Todo, High), Task(2, "Write README", Todo, Medium)]
    ensures found == [Task(1, "Learn Python", Todo, High)]
  {
    LearnKeyword();
    LearnLower();
    LearnPythonMatches();
    ReadmeLacksLearn();
    MatchingFirstOnly(list.tasks[0], list.tasks[1], "learn");
    var s := list.Search("learn");
    found := s.value;
  }

  /** Sorting by title ascending leaves the tasks sorted by title; these two were already in order. */
  method SortTitles(list: TaskList)
    requires list.tasks == [Task(1, "Learn Python", Todo, High), Task(2, "Write README", Todo, Medium)]
    modifies list
    ensures list.tasks == old(list.tasks) && Sorted(list.tasks, ByTitle, true)
  {
    ParsesTitle();
    assert StrLt("Learn Python", "Write README");
    TitleOrder(list.tasks[0], list.tasks[1]);
    SortBySorted(list.tasks, ByTitle, true);
    var r := list.Sort("title", true);
    assert r == Success;
  }

  /** Searching and sorting a two-task list. */
  method SearchSortSession() returns (found: seq<Task>, list: TaskList)
    ensures found == [Task(1, "Learn Python", Todo, High)]
    ensures list.tasks == [Task(1, "Learn Python", Todo, High), Task(2, "Write README", Todo, Medium)]
    ensures Sorted(list.tasks, ByTitle, true)
  {
    list := new TaskList();
    AddLearn(list);
    AddReadme(list);
    assert list.tasks == [Task(1, "Learn Python", Todo, High), Task(2, "Write README", Todo, Medium)];
    found := SearchLearn(list);
    SortTitles(list);
  }

  method AddOld(list: TaskList)
    requires list.nextId == 1
    modifies list
    ensures list.tasks == old(list.tasks) + [Task(1, "Old", Todo, Low)] && list.nextId == 2
  {
    BuildsOld();
    var r := AddBuilt(list, "Old", "Low", Task(1, "Old", Todo, Low));
  }

  /** Renaming and reprioritising a task in one update. */
  method RenameOld(list: TaskList)
    requires FindIndex(list.tasks, 1) == Some(0) && list.tasks[0] == Task(1, "Old", Todo, Low)
    modifies list
    ensures list.tasks == old(list.tasks)[0 := Task(1, "New", Todo, Medium)]
    ensures list.nextId == old(list.nextId)
  {
    RenamesOld();
    var u := list.UpdateDetails(1, Some("New"), Some("Medium"));
    assert u == Success;
  }

  /** An update with an invalid priority changes neither field. */
  method RejectUrgent(list: TaskList)
    requires FindIndex(list.tasks, 1) == Some(0)
    modifies list
    ensures list.tasks == old(list.tasks)
    ensures list.nextId == old(list.nextId)
  {
    RejectsUrgent();
    var u := list.UpdateDetails(1, Some("New"), Some("urgent"));
    assert u == Failure(ValidationError(BadPriority));
  }

  /** The documented details update, and the rejected one. */
  method DetailsSession() returns (list: TaskList)
    ensures list.tasks == [Task(1, "New", Todo, Medium)] && list.nextId == 2
  {
    list := new TaskList();
    AddOld(list);
    assert list.tasks == [Task(1, "Old", Todo, Low)];
    assert FindIndex(list.tasks, 1) == Some(0);
    RejectUrgent(list);
    RenameOld(list);
    assert list.tasks == [Task(1, "New", Todo, Medium)];
  }

  /** Saving a consistent list and loading the document into a new list gives
      the same tasks in the same order and the same counter. */
  method SaveThenLoad(list: TaskList) returns (copy: TaskList, report: Report)
    requires list.Valid()
    ensures report == Success
    ensures copy.tasks == list.tasks && copy.nextId == list.nextId && copy.Valid()
  {
    var saved, doc := list.Save(true);
    RoundTrip(list.tasks, list.nextId);
    copy := new TaskList();
    report := copy.Load(Contents(doc.value));
  }

  lemma BuildsOne(id: int)
    requires id >= 1
    ensures MakeTask(id, "One", "todo", "High") == Ok(Task(id, "One", Todo, High))
  {
    StripTrimmed("One");
    ParseStatusName(Todo);
    ParsePriorityName(High);
    MakeTaskAccepts(id, "One", "todo", "High", Todo, High);
  }

  lemma BuildsTwo(id: int)
    requires id >= 1
    ensures MakeTask(id, "Two", "todo", "Low") == Ok(Task(id, "Two", Todo, Low))
  {
    StripTrimmed("Two");
    ParseStatusName(Todo);
    ParsePriorityName(Low);
    MakeTaskAccepts(id, "Two", "todo", "Low", Todo, Low);
  }

  /** A new list after adding "One" with priority "High" and "Two" with priority "Low". */
  method OneAndTwo() returns (list: TaskList)
    ensures list.tasks == [Task(1, "One", Todo, High), Task(2, "Two", Todo, Low)]
    ensures list.nextId == 3 && list.Valid()
  {
    list := new TaskList();
    BuildsOne(list.nextId);
    var a := AddBuilt(list, "One", "High", Task(1, "One", Todo, High));
    BuildsTwo(list.nextId);
    var b := AddBuilt(list, "Two", "Low", Task(2, "Two", Todo, Low));
  }

  /** Saving the two-task list and loading the file into a new list gives two
      tasks, counter 3, and "One" first. */
  method SaveLoadSession() returns (loaded: TaskList, report: Report)
    ensures report == Success
    ensures |loaded.tasks| == 2 && loaded.nextId == 3 && loaded.tasks[0].title == "One"
  {
    var list := OneAndTwo();
    loaded, report := SaveThenLoad(list);
  }
}
