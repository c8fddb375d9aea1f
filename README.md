# A verified model of the command-line task manager

The program keeps an ordered list of tasks, each with an id, a title, a status
(`todo`, `in-progress`, `done`) and a priority (`High`, `Medium`, `Low`), and
a counter `next_id` that hands out ids. The `TaskList` class adds tasks,
updates a status or the title and priority, lists with filters, deletes after
confirmation, searches titles, sorts on a field, and saves the list to and
loads it from a JSON file.

This project models `Task` (construction, validation and `to_dict`) and the
whole `TaskList` class of `src/main.py`. It proves:
- the state invariant: every task valid, ids distinct, and every id below
  `next_id`. Every operation except `load_from_file` keeps it. A load can break
  it in two ways. A file with duplicate ids is accepted. An entry that fails
  leaves the tasks loaded so far with the old counter, which may not exceed
  their ids. A complete load satisfies it exactly when the loaded ids are
  distinct;
- that each operation's result and new state are exactly what the source
  computes, error cases included;
- that sorting is an ordered, stable permutation;
- that saving and then loading gives back the same list and counter.

Modules, one per concern of the source:

- `Outcomes`: `Option`, `Result`, and the `Error`/`Report` values that stand
  in for the printed messages.
- `Text`: ASCII `strip`, `lower`, `capitalize`, substring search, and
  Python's `<` on strings.
- `Tasks`: `Status`, `Priority`, `Task`, `Task.__init__` (`MakeTask`),
  `_find_task` (`FindIndex`), the invariant, and the field update of
  `update_task`.
- `Queries`: the selections that `list_tasks` and `search_tasks` print.
- `Sorting`: the field keys of `sort_tasks` and a reference stable sort
  `SortBy`.
- `Persistence`: the JSON document as records, `save_to_file`'s encoding,
  and the record loop of `load_from_file`.
- `TaskManager`: the `TaskList` class. Its `tasks` and `nextId` fields are
  updated in place by its methods. Its ghost `Valid()` is the invariant.
- `Scenarios`: clients of `TaskList` that make the calls of
  `tests/test_tasklist.py`, with the same arguments. Each test's assertions
  are concluded from the method contracts alone. The status tests run on the
  two-task list of the first test.

Where the code and its description differ, the model follows the code:
- The search keyword is lower-cased but not stripped before matching.
- A load that meets an invalid entry keeps the tasks built so far.
- A load does not reject duplicate ids.

`update_task` is the one place where the model deviates from the code on
purpose. The source writes the new title before it checks the priority. The
model validates first, so an invalid priority changes nothing. The code as
written is modelled too, and the difference is shown (see "## Findings").

## Model

| member | source | states |
|---|---|---|
| Text.TrimStart | src/main.py:21 | the result is a suffix, everything removed is whitespace, and it does not start with whitespace |
| Text.TrimEnd | src/main.py:21 | the result is a prefix, everything removed is whitespace, and it does not end with whitespace |
| Text.Strip | src/main.py:21 | the result is a slice of the input with only whitespace outside it, and it neither starts nor ends with whitespace |
| Text.StripTrimmed | src/main.py:21 | stripping a string without surrounding whitespace returns it unchanged |
| Text.StripIdempotent | src/main.py:21 | stripping twice is stripping once |
| Text.StripEmptyIff | src/main.py:14 | a string strips to empty exactly when it is all whitespace (the `not title.strip()` test) |
| Text.Lower | src/main.py:16 | lower-casing keeps the length |
| Text.LowerMeaning | src/main.py:16 | each upper-case letter becomes its lower-case letter (32 code points on), every other character is unchanged, and no upper-case letter remains |
| Text.Capitalize | src/main.py:18 | `capitalize` keeps the length |
| Text.LowerNoUpper | src/main.py:16 | lower-casing a string without upper-case letters leaves it unchanged |
| Text.CapitalizeNoUpper | src/main.py:18 | `capitalize` of a string with a lower-case tail only upper-cases the first character |
| Text.Contains | src/main.py:122 | `needle in hay` holds exactly when the needle occurs at some position of `hay` |
| Text.ContainsPrefix | src/main.py:122 | a string contains each of its prefixes |
| Text.StrLt | src/main.py:134 | Python's `<` on strings puts a proper prefix below the longer string |
| Text.StrLtIrreflexive | src/main.py:134 | no string is below itself |
| Text.StrLtTransitive | src/main.py:134 | string `<` is transitive |
| Text.StrLtTotal | src/main.py:134 | of two different strings one is below the other |
| Tasks.ParseStatus | src/main.py:16 | a status is accepted exactly when its lower-cased form is one of the three names, and it is that status |
| Tasks.ParsePriority | src/main.py:18 | a priority is accepted exactly when its capitalised form is one of the three names, and it is that priority |
| Tasks.ParseStatusName | src/main.py:22 | every stored status name is accepted as its own status |
| Tasks.ParsePriorityName | src/main.py:23 | every stored priority name is accepted as its own priority |
| Tasks.MakeTask | src/main.py:11-23 | a task is built exactly when id >= 1, the stripped title is non-empty, and the status and the priority parse; it stores the stripped title, the lower-cased status and the capitalised priority and is valid; otherwise the error is the first failing check, in the order id, title, status, priority |
| Tasks.MakeTaskAccepts | src/main.py:20-23 | once every check passes, the task built holds the id, the stripped title and the parsed status and priority |
| Tasks.RebuildValid | src/main.py:161-166 | a valid task given its own stored fields passes `Task.__init__` unchanged |
| Tasks.FindIndex | src/main.py:178-179 | the position of the first task with the id, and none exactly when no task has it |
| Tasks.ApplyDetails | src/main.py:59-75 | an invalid supplied priority rejects the update and leaves the task unchanged; otherwise the title is replaced only by a non-empty stripped value, the priority only by a supplied one, and supplying neither reports no change; the id and the status are kept and validity is preserved |
| Tasks.ApplyDetailsAsWritten | src/main.py:64-75 | as written, the update keeps the id and the status |
| Tasks.AsWrittenAgrees | src/main.py:64-75 | as written, the update agrees with the validate-first update unless the supplied priority is invalid; then it keeps the title change alone and reports the invalid priority |
| Tasks.AsWrittenPartialUpdate | src/main.py:65-71 | as written, an update with a new non-empty title and an invalid priority reports the invalid priority, yet the title has changed |
| Tasks.AsWrittenPartialUpdateExample | src/main.py:65-71 | as written, `update_task(1, "New", "urgent")` on the task titled "Old" reports failure and renames it to "New" |
| Queries.StatusFilter | src/main.py:82-84 | "all" (in any case) is the wildcard, a status name (in any case) selects that status, and anything else is rejected |
| Queries.PriorityFilter | src/main.py:85-87 | "all" (in any case) is the wildcard, a priority name compared case-insensitively selects it, and anything else is rejected |
| Queries.Select | src/main.py:88-94 | the listing never holds more tasks than the list |
| Queries.SelectMembers | src/main.py:90-92 | a task is listed exactly when it is in the list and passes both filters |
| Queries.SelectAppend | src/main.py:90-94 | the listing keeps list order: listing a concatenation concatenates the listings |
| Queries.SelectAll | src/main.py:79-92 | with both filters "all", every task is listed in list order |
| Queries.SelectNext | src/main.py:90-94 | one more task of the loop is appended to the listing exactly when it passes the filters |
| Queries.Matching | src/main.py:119-124 | the search never finds more tasks than the list holds |
| Queries.MatchingMembers | src/main.py:121-122 | a task is found exactly when it is in the list and its lower-cased title contains the keyword |
| Queries.MatchingAppend | src/main.py:121-124 | search results keep list order: searching a concatenation concatenates the results |
| Queries.MatchingNext | src/main.py:121-124 | one more task of the loop is appended to the results exactly when its title matches |
| Sorting.ParseSortField | src/main.py:129-130 | a field is accepted exactly when its lower-cased form is id, title, status or priority |
| Sorting.KeyOf | src/main.py:134 | ids compare as numbers, every other field as its stored string |
| Sorting.KeyLtIrreflexive | src/main.py:134 | no key is below itself |
| Sorting.KeyLtTransitive | src/main.py:134 | key order is transitive |
| Sorting.KeyLtTotal | src/main.py:134 | of two different keys one is below the other |
| Sorting.NotBeforeTransitive | src/main.py:134 | "not strictly before" is transitive, in both directions of the sort |
| Sorting.BeforeTotal | src/main.py:134 | tasks with different keys are ordered one way or the other |
| Sorting.BeforeIrreflexive | src/main.py:134 | tasks with equal keys come neither before the other |
| Sorting.BeforeAsymmetric | src/main.py:134 | a task strictly before another is not also after it |
| Sorting.Insert | src/main.py:134 | inserting adds one element |
| Sorting.InsertMembers | src/main.py:134 | the tasks after inserting are the inserted task and the old ones |
| Sorting.InsertPermutes | src/main.py:134 | inserting adds exactly the one task |
| Sorting.InsertSorted | src/main.py:134 | inserting into an ordered list keeps it ordered |
| Sorting.InsertStable | src/main.py:134 | inserting a task places it ahead of every task with its key |
| Sorting.InsertDistinct | src/main.py:134 | inserting a task with a new id keeps ids distinct |
| Sorting.SortBy | src/main.py:134 | sorting keeps the length |
| Sorting.SortByPermutes | src/main.py:134 | the sorted list is a permutation of the list |
| Sorting.SortBySorted | src/main.py:134 | the sorted list is ordered by the field key, ascending or, with `reverse=True`, descending |
| Sorting.SortByStable | src/main.py:134 | for every key, the tasks with that key keep their relative order, in both directions |
| Sorting.SortByDistinct | src/main.py:134 | sorting keeps ids distinct |
| Sorting.SortedUnique | src/main.py:134 | without ties, two ordered arrangements of the same tasks are equal |
| Sorting.ReverseSorted | src/main.py:134 | an ascending list read backwards is descending |
| Sorting.Reverse | src/main.py:134 | the reversed list holds, at each position, the element mirrored from the other end |
| Sorting.ReversePermutes | src/main.py:134 | reversing is a permutation |
| Sorting.DescendingReversesAscending | src/main.py:134 | when no two tasks tie on the field, the descending order is the ascending order reversed |
| Persistence.ToRecord | src/main.py:25-31 | a task's record holds its id and title, and a status and a priority string that are accepted back as its status and priority |
| Persistence.ToRecords | src/main.py:144 | one record per task, in order, each being that task's `to_dict` |
| Persistence.Encode | src/main.py:143-146 | the document holds the counter and one record per task, in order, each being that task's record |
| Persistence.FromRecord | src/main.py:160-166 | a missing "id" or "title", and nothing else, fails the lookup; a record that loads gives a valid task |
| Persistence.FromRecordMeaning | src/main.py:160-166 | a record loads exactly when its id is at least 1, its title does not strip to empty, and its status and priority (defaulting to "todo" and "Low") are accepted; the task then holds that id, the stripped title, and the lower-cased status and capitalised priority; every other failure is a validation error |
| Persistence.FromRecordOf | src/main.py:161-166 | the record saved for a valid task loads back as that task |
| Persistence.DecodeTasks | src/main.py:158-167 | never more tasks than records, and every loaded task valid |
| Persistence.DecodeTasksFirstFailure | src/main.py:158-167 | a load succeeds exactly when every record loads, and then has one task per record; otherwise it reports the error of the first record that fails, at the position after the loaded tasks; every loaded task is what its record loads as |
| Persistence.DecodeLoaded | src/main.py:160-167 | each loaded task is what the record at its position loads as, and a load without failure has one task per record |
| Persistence.DecodeLength | src/main.py:160-167 | a load without failure has one task per record |
| Persistence.DecodeAt | src/main.py:160-167 | the task at a loaded position is what the record at that position loads as |
| Persistence.DecodeFailure | src/main.py:160-167 | a failed load stops before the end, at a record whose load fails with the reported error |
| Persistence.DecodeStops | src/main.py:160-167 | once an entry fails, the later entries change nothing |
| Persistence.DecodeAppendOk | src/main.py:160-167 | a record that loads is appended to a load that has not failed |
| Persistence.DecodeRecords | src/main.py:158-167 | loading the records of valid tasks gives back those tasks, in order, without failure |
| Persistence.MaxId | src/main.py:159-168 | `max_id` is 0 or the id of a loaded task, and bounds every loaded id |
| Persistence.LoadedNextId | src/main.py:169 | the loaded counter is at least 1 and at least the stored counter, exceeds every loaded id, and is one past `max_id` or the stored counter |
| Persistence.LoadedConsistent | src/main.py:158-169 | a complete load satisfies the invariant exactly when its ids are distinct |
| Persistence.RoundTrip | src/main.py:143-169 | loading what was saved from a list of valid tasks whose ids are all below the counter gives back the same tasks in the same order and the same counter; distinct ids are not needed |
| TaskManager.TaskList.Valid | src/main.py:35-46 | the invariant implies that no task has the counter as its id, so the next add cannot repeat an id |
| TaskManager.TaskList.constructor | src/main.py:35-37 | a new list is empty with counter 1 and satisfies the invariant |
| TaskManager.TaskList.Add | src/main.py:39-46 | on success exactly one task is appended, with the old counter as id and status `todo`, and the counter advances by one; on failure neither the list nor the counter changes; the invariant is kept |
| TaskManager.TaskList.UpdateStatus | src/main.py:48-57 | an absent id or an invalid status changes nothing; otherwise only the status of the first task with the id changes, to the parsed status; the invariant is kept |
| TaskManager.TaskList.UpdateDetails | src/main.py:59-77 | an absent id changes nothing; otherwise the found task is replaced by the validate-first update, and any failure leaves the list unchanged; the counter and the invariant are kept |
| TaskManager.TaskList.Delete | src/main.py:98-112 | an absent id or an unconfirmed delete changes nothing; a confirmed delete removes exactly the first task with the id, keeping the others in order; for a valid list the remaining tasks are exactly those without the id; the counter and the invariant are kept |
| TaskManager.TaskList.List | src/main.py:79-96 | invalid filters are rejected, status first; valid filters always succeed, with the in-order selection as the result; a task is in it exactly when it is in the list and passes both filters |
| TaskManager.TaskList.Search | src/main.py:114-126 | a keyword that strips to empty is rejected (and only such a keyword); otherwise exactly the tasks whose lower-cased title contains the lower-cased keyword, in list order |
| TaskManager.TaskList.Sort | src/main.py:128-138 | an unknown field changes nothing; otherwise the list becomes the stable sort on that field; the tasks as a multiset, the counter and the invariant are kept |
| TaskManager.TaskList.Save | src/main.py:140-149 | when the file can be written, the document is the encoded tasks and counter; otherwise an I/O failure is reported and the model returns no document |
| TaskManager.TaskList.Load | src/main.py:151-176 | a missing file keeps the state; an unreadable or malformed file resets to empty with counter 1; otherwise the state is the record loop's result, with the loaded counter on success or the old counter after a failing entry |
| TaskManager.TaskList.LoadDocument | src/main.py:158-169 | the tasks become the loop's result; on success the counter is the loaded counter and the invariant holds exactly when the ids are distinct |
| TaskManager.AppendPreserves | src/main.py:41-44 | appending a valid task whose id is the counter, then advancing the counter, keeps the invariant |
| TaskManager.DecodeNext | src/main.py:160-167 | one more iteration of the load loop extends the loaded prefix by that record's result |
| TaskManager.MaxIdNext | src/main.py:168 | `max_id` of one more task is the larger of the two |
| TaskManager.ReplacePreserves | src/main.py:56 | replacing a task by a valid one with the same id keeps the invariant |
| TaskManager.RemovePreserves | src/main.py:109 | removing a task keeps the invariant, so ids are never reused |
| TaskManager.RemoveIndex | src/main.py:109 | after removing a position, the later tasks move down by one |
| TaskManager.PermutationPreserves | src/main.py:134 | rearranging the tasks keeps every task valid and below the counter |
| Scenarios.BuildsTaskA | tests/test_tasklist.py:15 | "Task A" with priority "High" builds a valid `todo` task |
| Scenarios.BuildsTaskB | tests/test_tasklist.py:16 | "Task B" with priority "Low" builds a valid `todo` task |
| Scenarios.ParsesInProgress | tests/test_tasklist.py:26 | "in-progress" is a valid status |
| Scenarios.RejectsInvalidStatus | tests/test_tasklist.py:30 | "invalid-status" is rejected |
| Scenarios.BuildsOld | tests/test_tasklist.py:38 | "Old" with priority "Low" builds a valid task |
| Scenarios.RenamesOld | tests/test_tasklist.py:39-42 | updating "Old" with title "New" and priority "Medium" gives that task and reports success |
| Scenarios.DetailsApplied | src/main.py:65-71 | a non-empty title and a valid priority are both applied and reported as success |
| Tasks.RejectsUrgent | src/main.py:68 | "urgent" is not a priority |
| Scenarios.AddFirst | tests/test_tasklist.py:13-19 | the first add on a new list stores id 1 and advances the counter to 2 |
| Scenarios.AddSecond | tests/test_tasklist.py:16-20 | the second add appends id 2 and advances the counter to 3 |
| Scenarios.UpdateFirst | tests/test_tasklist.py:23-27 | a status update lands on the first task only |
| Scenarios.UpdateInvalid | tests/test_tasklist.py:29-31 | an invalid status leaves every task as it was |
| Scenarios.DeleteAbsent | src/main.py:98-102 | deleting an absent id changes nothing |
| Scenarios.AddBuilt | src/main.py:39-46 | an add whose arguments build a task appends that task and returns its id |
| Scenarios.BuildsLearn | tests/test_tasklist.py:47 | "Learn Python" with priority "High" builds a valid `todo` task, whatever the id |
| Scenarios.BuildsReadme | tests/test_tasklist.py:48 | "Write README" with priority "Medium" builds a valid `todo` task, whatever the id |
| Scenarios.AddLearn | tests/test_tasklist.py:46-47 | adding "Learn Python" on a new list stores it with id 1 |
| Scenarios.AddReadme | tests/test_tasklist.py:48 | adding "Write README" appends it with id 2 |
| Scenarios.LearnKeyword | tests/test_tasklist.py:49 | the keyword "learn" is not blank |
| Scenarios.LearnLower | tests/test_tasklist.py:49 | the keyword "learn" is already lower-case |
| Scenarios.LowerPrefixMatches | src/main.py:122 | a title that starts with the keyword, ignoring case, matches it |
| Scenarios.MissingFirstLetter | src/main.py:122 | a keyword whose first letter the title lacks does not match |
| Scenarios.LearnPythonMatches | tests/test_tasklist.py:49-51 | "Learn Python" matches the keyword "learn" |
| Scenarios.ReadmeLacksLearn | tests/test_tasklist.py:49 | "Write README" does not match the keyword "learn" |
| Scenarios.MatchingFirstOnly | src/main.py:121-124 | when only the first of two tasks matches, the search lists only that one |
| Scenarios.SearchLearn | tests/test_tasklist.py:49-51 | searching "learn" finds exactly the "Learn Python" task |
| Scenarios.ParsesTitle | tests/test_tasklist.py:54 | "title" is a sort field |
| Scenarios.TitleOrder | src/main.py:134 | two tasks whose titles are in order stay in that order when sorted by title ascending |
| Scenarios.SortTitles | tests/test_tasklist.py:53-56 | sorting by title ascending leaves "Learn Python" before "Write README", and the list is sorted by title |
| Scenarios.AddOld | tests/test_tasklist.py:36-38 | adding "Old" on a new list stores it with id 1 |
| Scenarios.RenameOld | tests/test_tasklist.py:39-42 | the update stores title "New" and priority "Medium" |
| Scenarios.RejectUrgent | src/main.py:65-71 | with validate-first updates, an invalid priority leaves the task untouched |
| Scenarios.SaveThenLoad | tests/test_tasklist.py:59-72 | loading into a new list what a consistent list saved gives the same tasks and the same counter, and the invariant holds |
| Scenarios.BuildsOne | tests/test_tasklist.py:63 | "One" with priority "High" builds a valid `todo` task, whatever the id |
| Scenarios.BuildsTwo | tests/test_tasklist.py:64 | "Two" with priority "Low" builds a valid `todo` task, whatever the id |
| Scenarios.OneAndTwo | tests/test_tasklist.py:62-64 | adding "One" and "Two" to a new list gives those two tasks with ids 1 and 2, counter 3, and the invariant |
| Scenarios.SaveLoadSession | tests/test_tasklist.py:59-72 | saving that list and loading it into a new list succeeds with two tasks, counter 3 and "One" first |
| Scenarios.Session | tests/test_tasklist.py:13-31 | after the adds, the status update and the rejected status, the list is "Task A" in progress and "Task B" to do, with counter 3 |
| Scenarios.SearchSortSession | tests/test_tasklist.py:45-56 | the search for "learn" finds exactly "Learn Python", and after sorting by title the list is unchanged and sorted |
| Scenarios.DetailsSession | tests/test_tasklist.py:36-42 | after the update the only task is titled "New" with priority "Medium", and the counter is 2 |

## Left out

- The command-line interface (`display_menu`, `main`, and their `input()` loops and string-to-int id parsing) is not modelled. It is a user-interface wrapper around `TaskList`.
- Printed messages are replaced by `Report` and `Result` values. The `list_tasks()` re-print after a successful sort is left out: it only prints.
- The yes/no prompt loop of `delete_task` is not modelled. It is user input, and the answer becomes the `confirmed` parameter.
- File and JSON handling are foreign library calls. They appear as parameters: `Load` receives a `FileState` (absent, unreadable, malformed JSON, or the parsed document), and `Save` receives whether the file is writable and returns the document it would write. File names, `indent=4` and the on-disk text are not modelled.
- JSON value types are not modelled. A stored id is an integer, a title a string, and the document an object. The `isinstance(task_id, int)` check therefore reduces to `id >= 1`, and a Python `bool` id is not represented.
- TaskManager.TaskList.Load: a `ValueError` or `KeyError` from a bad entry escapes `load_from_file` in the source. It is modelled as a `Failure` report over the state the source leaves behind: the tasks built so far, and `next_id` unchanged.
- Case and whitespace handling is ASCII only. `lower` and `capitalize` map A-Z and a-z. `strip` removes the ASCII characters that `str.isspace` accepts: 9-13 and 28-32. Unicode case mapping and non-ASCII whitespace are not modelled.
- Python's `list.sort` (Timsort) is represented by the reference stable insertion sort `Sorting.SortBy`. The properties proved are those `list.sort` guarantees: an ordered, stable permutation. The field name is checked against the four attributes that `Task.__init__` always sets (src/main.py:20-23, 129-130), so the `AttributeError` branch of `sort_tasks` cannot be reached and is not modelled.
- TaskManager.TaskList.UpdateDetails: it follows the validate-first update `Tasks.ApplyDetails`. The code as written, which commits the title before rejecting the priority, is `Tasks.ApplyDetailsAsWritten` (see "## Findings").

## Findings

| source | as written | input that shows it | evidently intended | confidence | as-written member | corrected member |
|---|---|---|---|---|---|---|
| src/main.py:65-71 | `update_task` stores the new title before it validates the priority, so a rejected update still renames the task | `update_task(1, "New", "urgent")` on task 1 titled "Old": prints the invalid-priority error, yet the title is now "New" | reject the whole update when the priority is invalid, leaving the task unchanged | not executed | Tasks.AsWrittenPartialUpdateExample | Tasks.ApplyDetails |
