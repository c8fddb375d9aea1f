/** The read-only queries of `TaskList`: the filtered listing of `list_tasks`
    and the keyword search of `search_tasks`, as order-preserving selections. */
module Queries {
  import opened Outcomes
  import opened Text
  import opened Tasks

  /** A `list_tasks` status filter: `Some(None)` for "all", `Some(Some(st))` for a
      status, `None` for anything else; compared case-insensitively. */
  function StatusFilter(s: string): (r: Option<Option<Status>>)
    ensures r == Some(None) <==> Lower(s) == "all"
    ensures forall st :: r == Some(Some(st)) <==> Lower(s) == StatusName(st)
  {
    if Lower(s) == "all" then Some(None)
    else match ParseStatus(s)
      case Some(st) => Some(Some(st))
      case None => None
  }

  /** A `list_tasks` priority filter, matched against the lower-cased priority names. */
  function PriorityFilter(s: string): (r: Option<Option<Priority>>)
    ensures r == Some(None) <==> Lower(s) == "all"
    ensures forall p :: r == Some(Some(p)) <==> Lower(s) == Lower(PriorityName(p))
  {
    var l := Lower(s);
    assert Lower(PriorityName(Low))[0] == 'l';
    if l == "all" then Some(None)
    else if l == Lower(PriorityName(High)) then Some(Some(High))
    else if l == Lower(PriorityName(Medium)) then Some(Some(Medium))
    else if l == Lower(PriorityName(Low)) then Some(Some(Low))
    else None
  }

  /** The per-task test of `list_tasks`; `None` is the wildcard "all". */
  predicate Matches(t: Task, sf: Option<Status>, pf: Option<Priority>) {
    (sf.None? || t.status == sf.value) && (pf.None? || t.priority == pf.value)
  }

  /** The tasks `list_tasks` prints, in list order. */
  function Select(ts: seq<Task>, sf: Option<Status>, pf: Option<Priority>): (r: seq<Task>)
    ensures |r| <= |ts|
  {
    if ts == [] then []
    else
      var last := ts[|ts| - 1];
      Select(ts[..|ts| - 1], sf, pf) + if Matches(last, sf, pf) then [last] else []
  }

  /** A task is listed exactly when it is in the list and passes both filters. */
  lemma {:induction false} SelectMembers(ts: seq<Task>, sf: Option<Status>, pf: Option<Priority>)
    ensures forall t :: t in Select(ts, sf, pf) <==> t in ts && Matches(t, sf, pf)
  {
    if ts != [] {
      SelectMembers(ts[..|ts| - 1], sf, pf);
      assert ts == ts[..|ts| - 1] + [ts[|ts| - 1]];
    }
  }

  /** Selecting from one more task of `ts` appends that task when it passes. */
  lemma SelectNext(ts: seq<Task>, i: int, sf: Option<Status>, pf: Option<Priority>)
    requires 0 <= i < |ts|
    ensures Select(ts[..i + 1], sf, pf) == Select(ts[..i], sf, pf) + if Matches(ts[i], sf, pf) then [ts[i]] else []
  {
    var p := ts[..i + 1];
    assert p[..|p| - 1] == ts[..i] && p[|p| - 1] == ts[i];
  }

  /** Selection keeps list order: selecting from a concatenation concatenates the selections. */
  lemma {:induction false} SelectAppend(a: seq<Task>, b: seq<Task>, sf: Option<Status>, pf: Option<Priority>)
    ensures Select(a + b, sf, pf) == Select(a, sf, pf) + Select(b, sf, pf)
  {
    if b != [] {
      var ab := a + b;
      assert ab[..|ab| - 1] == a + b[..|b| - 1];
      SelectAppend(a, b[..|b| - 1], sf, pf);
    } else {
      assert a + b == a;
    }
  }

  /** With both filters "all" every task is listed, in list order. */
  lemma {:induction false} SelectAll(ts: seq<Task>)
    ensures Select(ts, None, None) == ts
  {
    if ts != [] {
      SelectAll(ts[..|ts| - 1]);
    }
  }

  /** The per-task test of `search_tasks`: the lower-cased title contains the
      lower-cased keyword. */
  predicate TitleHas(t: Task, keyword: string) {
    Contains(Lower(t.title), keyword)
  }

  /** The tasks `search_tasks` prints for an already lower-cased keyword, in list order. */
  function Matching(ts: seq<Task>, keyword: string): (r: seq<Task>)
    ensures |r| <= |ts|
  {
    if ts == [] then []
    else
      var last := ts[|ts| - 1];
      Matching(ts[..|ts| - 1], keyword) + if TitleHas(last, keyword) then [last] else []
  }

  /** A task is found exactly when it is in the list and its title contains the keyword. */
  lemma {:induction false} MatchingMembers(ts: seq<Task>, keyword: string)
    ensures forall t :: t in Matching(ts, keyword) <==> t in ts && TitleHas(t, keyword)
  {
    if ts != [] {
      MatchingMembers(ts[..|ts| - 1], keyword);
      assert ts == ts[..|ts| - 1] + [ts[|ts| - 1]];
    }
  }

  /** Searching one more task of `ts` appends that task when its title matches. */
  lemma MatchingNext(ts: seq<Task>, i: int, keyword: string)
    requires 0 <= i < |ts|
    ensures Matching(ts[..i + 1], keyword) == Matching(ts[..i], keyword) + if TitleHas(ts[i], keyword) then [ts[i]] else []
  {
    var p := ts[..i + 1];
    assert p[..|p| - 1] == ts[..i] && p[|p| - 1] == ts[i];
  }

  /** Search keeps list order. */
  lemma {:induction false} MatchingAppend(a: seq<Task>, b: seq<Task>, keyword: string)
    ensures Matching(a + b, keyword) == Matching(a, keyword) + Matching(b, keyword)
  {
    if b != [] {
      var ab := a + b;
      assert ab[..|ab| - 1] == a + b[..|b| - 1];
      MatchingAppend(a, b[..|b| - 1], keyword);
    } else {
      assert a + b == a;
    }
  }
}
