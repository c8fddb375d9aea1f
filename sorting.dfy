/** `TaskList.sort_tasks`: a stable sort of the task list on one field. Python's
    `list.sort(key=..., reverse=...)` is modelled by a reference insertion sort
    whose properties (ordered, a permutation, stable in both directions) are
    proved below. */
module Sorting {
  import opened Outcomes
  import opened Text
  import opened Tasks

  datatype SortField = ById | ByTitle | ByStatus | ByPriority

  function FieldName(f: SortField): string {
    match f
    case ById => "id"
    case ByTitle => "title"
    case ByStatus => "status"
    case ByPriority => "priority"
  }

  /** The field `s` names, compared case-insensitively. */
  function ParseSortField(s: string): (r: Option<SortField>)
    ensures forall f :: r == Some(f) <==> Lower(s) == FieldName(f)
  {
    var l := Lower(s);
    if l == "id" then Some(ById)
    else if l == "title" then Some(ByTitle)
    else if l == "status" then Some(ByStatus)
    else if l == "priority" then Some(ByPriority)
    else None
  }

  /** The value `getattr(task, field)` compares on: the id as a number, the other
      fields as their stored strings. */
  datatype SortKey = IntKey(n: int) | StrKey(s: string)

  function KeyOf(f: SortField, t: Task): (k: SortKey)
    ensures k.IntKey? <==> f == ById
  {
    match f
    case ById => IntKey(t.id)
    case ByTitle => StrKey(t.title)
    case ByStatus => StrKey(StatusName(t.status))
    case ByPriority => StrKey(PriorityName(t.priority))
  }

  /** Python's `<` on keys of one field; keys of different kinds never meet, and
      are ordered numbers first only to make the order total. */
  predicate KeyLt(a: SortKey, b: SortKey) {
    match (a, b)
    case (IntKey(x), IntKey(y)) => x < y
    case (StrKey(x), StrKey(y)) => StrLt(x, y)
    case (IntKey(_), StrKey(_)) => true
    case (StrKey(_), IntKey(_)) => false
  }

  lemma KeyLtIrreflexive(a: SortKey)
    ensures !KeyLt(a, a)
  {
    if a.StrKey? { StrLtIrreflexive(a.s); }
  }

  lemma KeyLtTransitive(a: SortKey, b: SortKey, c: SortKey)
    requires KeyLt(a, b) && KeyLt(b, c)
    ensures KeyLt(a, c)
  {
    if a.StrKey? && b.StrKey? && c.StrKey? { StrLtTransitive(a.s, b.s, c.s); }
  }

  lemma KeyLtTotal(a: SortKey, b: SortKey)
    requires a != b
    ensures KeyLt(a, b) || KeyLt(b, a)
  {
    if a.StrKey? && b.StrKey? { StrLtTotal(a.s, b.s); }
  }

  /** `a` must come strictly before `b`: its key is smaller when ascending,
      larger when `reverse=True`. */
  predicate Before(f: SortField, asc: bool, a: Task, b: Task) {
    if asc then KeyLt(KeyOf(f, a), KeyOf(f, b)) else KeyLt(KeyOf(f, b), KeyOf(f, a))
  }

  /** Not coming strictly before is a total preorder. */
  lemma NotBeforeTransitive(f: SortField, asc: bool, a: Task, b: Task, c: Task)
    requires !Before(f, asc, b, a) && !Before(f, asc, c, b)
    ensures !Before(f, asc, c, a)
  {
    var ka, kb, kc := KeyOf(f, a), KeyOf(f, b), KeyOf(f, c);
    if Before(f, asc, c, a) {
      if ka != kb { KeyLtTotal(ka, kb); }
      if kb != kc { KeyLtTotal(kb, kc); }
      if asc {
        if ka != kb && kb != kc { KeyLtTransitive(ka, kb, kc); }
        KeyLtTransitive(kc, ka, kc);
        KeyLtIrreflexive(kc);
      } else {
        if ka != kb && kb != kc { KeyLtTransitive(kc, kb, ka); }
        KeyLtTransitive(ka, kc, ka);
        KeyLtIrreflexive(ka);
      }
    }
  }

  /** Two tasks of different keys come one before the other. */
  lemma BeforeTotal(f: SortField, asc: bool, a: Task, b: Task)
    requires KeyOf(f, a) != KeyOf(f, b)
    ensures Before(f, asc, a, b) || Before(f, asc, b, a)
  {
    KeyLtTotal(KeyOf(f, a), KeyOf(f, b));
  }

  /** Tasks with equal keys come neither before the other. */
  lemma BeforeIrreflexive(f: SortField, asc: bool, a: Task, b: Task)
    requires KeyOf(f, a) == KeyOf(f, b)
    ensures !Before(f, asc, a, b)
  {
    KeyLtIrreflexive(KeyOf(f, a));
  }

  /** No task comes strictly before an earlier one. */
  predicate Sorted(s: seq<Task>, f: SortField, asc: bool) {
    forall i, j :: 0 <= i < j < |s| ==> !Before(f, asc, s[j], s[i])
  }

  /** `x` placed before the first element it does not come strictly after. */
  function Insert(x: Task, s: seq<Task>, f: SortField, asc: bool): (r: seq<Task>)
    ensures |r| == |s| + 1
  {
    if s == [] then [x]
    else if Before(f, asc, s[0], x) then [s[0]] + Insert(x, s[1..], f, asc)
    else [x] + s
  }

  /** The reference stable sort: insert each task, from the last one back,
      ahead of the tasks with an equal key. */
  function SortBy(s: seq<Task>, f: SortField, asc: bool): (r: seq<Task>)
    ensures |r| == |s|
  {
    if s == [] then [] else Insert(s[0], SortBy(s[1..], f, asc), f, asc)
  }

  /** The tasks of `s` whose key is `k`, in order. */
  function WithKey(s: seq<Task>, f: SortField, k: SortKey): seq<Task> {
    if s == [] then [] else (if KeyOf(f, s[0]) == k then [s[0]] else []) + WithKey(s[1..], f, k)
  }

  lemma {:induction false} InsertPermutes(x: Task, s: seq<Task>, f: SortField, asc: bool)
    ensures multiset(Insert(x, s, f, asc)) == multiset(s) + multiset{x}
  {
    if s != [] && Before(f, asc, s[0], x) {
      InsertPermutes(x, s[1..], f, asc);
      assert s == [s[0]] + s[1..];
    }
  }

  /** Sorting rearranges the tasks and changes none of them. */
  lemma {:induction false} SortByPermutes(s: seq<Task>, f: SortField, asc: bool)
    ensures multiset(SortBy(s, f, asc)) == multiset(s)
  {
    if s != [] {
      SortByPermutes(s[1..], f, asc);
      InsertPermutes(s[0], SortBy(s[1..], f, asc), f, asc);
      assert s == [s[0]] + s[1..];
    }
  }

  /** The tasks of an insertion are the inserted one and the old ones. */
  lemma InsertMembers(x: Task, s: seq<Task>, f: SortField, asc: bool)
    ensures forall t :: t in Insert(x, s, f, asc) <==> t == x || t in s
  {
    InsertPermutes(x, s, f, asc);
    forall t ensures t in Insert(x, s, f, asc) <==> t == x || t in s {
      assert t in Insert(x, s, f, asc) <==> t in multiset(Insert(x, s, f, asc));
      assert t in s <==> t in multiset(s);
    }
  }

  /** A task that no later task comes before can head a sorted list. */
  lemma ConsSorted(y: Task, s: seq<Task>, f: SortField, asc: bool)
    requires Sorted(s, f, asc) && forall e :: e in s ==> !Before(f, asc, e, y)
    ensures Sorted([y] + s, f, asc)
  {
    var r := [y] + s;
    forall i, j | 0 <= i < j < |r| ensures !Before(f, asc, r[j], r[i]) {
      if i == 0 { assert r[j] == s[j - 1] && r[j] in s; }
      else { assert r[i] == s[i - 1] && r[j] == s[j - 1]; }
    }
  }

  lemma BeforeAsymmetric(f: SortField, asc: bool, a: Task, b: Task)
    requires Before(f, asc, a, b)
    ensures !Before(f, asc, b, a)
  {
    if Before(f, asc, b, a) {
      if asc {
        KeyLtTransitive(KeyOf(f, a), KeyOf(f, b), KeyOf(f, a));
      } else {
        KeyLtTransitive(KeyOf(f, b), KeyOf(f, a), KeyOf(f, b));
      }
      KeyLtIrreflexive(KeyOf(f, a));
      KeyLtIrreflexive(KeyOf(f, b));
    }
  }

  lemma {:induction false} InsertSorted(x: Task, s: seq<Task>, f: SortField, asc: bool)
    requires Sorted(s, f, asc)
    ensures Sorted(Insert(x, s, f, asc), f, asc)
  {
    if s == [] {
    } else if Before(f, asc, s[0], x) {
      assert Sorted(s[1..], f, asc) by {
        forall i, j | 0 <= i < j < |s[1..]| ensures !Before(f, asc, s[1..][j], s[1..][i]) {
          assert s[1..][i] == s[i + 1] && s[1..][j] == s[j + 1];
        }
      }
      InsertSorted(x, s[1..], f, asc);
      InsertMembers(x, s[1..], f, asc);
      BeforeAsymmetric(f, asc, s[0], x);
      forall e | e in s[1..] ensures !Before(f, asc, e, s[0]) {
        var j :| 0 <= j < |s[1..]| && s[1..][j] == e;
        assert s[j + 1] == e;
      }
      ConsSorted(s[0], Insert(x, s[1..], f, asc), f, asc);
    } else {
      forall e | e in s ensures !Before(f, asc, e, x) {
        var j :| 0 <= j < |s| && s[j] == e;
        if j > 0 { NotBeforeTransitive(f, asc, x, s[0], e); }
      }
      ConsSorted(x, s, f, asc);
    }
  }

  /** The sorted list is ordered by the field's key, ascending or descending. */
  lemma {:induction false} SortBySorted(s: seq<Task>, f: SortField, asc: bool)
    ensures Sorted(SortBy(s, f, asc), f, asc)
  {
    if s != [] {
      SortBySorted(s[1..], f, asc);
      InsertSorted(s[0], SortBy(s[1..], f, asc), f, asc);
    }
  }

  /** The tasks with key `k` in a list headed by `y`. */
  lemma WithKeyCons(y: Task, s: seq<Task>, f: SortField, k: SortKey)
    ensures WithKey([y] + s, f, k) == (if KeyOf(f, y) == k then [y] else []) + WithKey(s, f, k)
  {
    assert ([y] + s)[1..] == s;
  }

  lemma SwapEmpty(a: seq<Task>, b: seq<Task>, rest: seq<Task>)
    requires a == [] || b == []
    ensures a + (b + rest) == b + (a + rest)
  {
    if a == [] {
      assert a + (b + rest) == b + rest && a + rest == rest;
    } else {
      assert b + rest == rest && b + (a + rest) == a + rest;
    }
  }

  lemma {:induction false} InsertStable(x: Task, s: seq<Task>, f: SortField, asc: bool, k: SortKey)
    ensures WithKey(Insert(x, s, f, asc), f, k) == WithKey([x] + s, f, k)
  {
    if s != [] && Before(f, asc, s[0], x) {
      var hx := if KeyOf(f, x) == k then [x] else [];
      var h0 := if KeyOf(f, s[0]) == k then [s[0]] else [];
      var rest := WithKey(s[1..], f, k);
      InsertStable(x, s[1..], f, asc, k);
      WithKeyCons(s[0], Insert(x, s[1..], f, asc), f, k);
      WithKeyCons(x, s[1..], f, k);
      assert s == [s[0]] + s[1..];
      WithKeyCons(s[0], s[1..], f, k);
      WithKeyCons(x, s, f, k);
      if KeyOf(f, s[0]) == KeyOf(f, x) { BeforeIrreflexive(f, asc, s[0], x); }
      SwapEmpty(h0, hx, rest);
      calc {
        WithKey(Insert(x, s, f, asc), f, k);
        h0 + (hx + rest);
        hx + (h0 + rest);
        WithKey([x] + s, f, k);
      }
    }
  }

  /** Stability: for every key, the tasks with that key keep their relative order.
      This holds for `asc == false` too, as Python's `reverse=True` does. */
  lemma {:induction false} SortByStable(s: seq<Task>, f: SortField, asc: bool, k: SortKey)
    ensures WithKey(SortBy(s, f, asc), f, k) == WithKey(s, f, k)
  {
    if s != [] {
      SortByStable(s[1..], f, asc, k);
      InsertStable(s[0], SortBy(s[1..], f, asc), f, asc, k);
      assert ([s[0]] + SortBy(s[1..], f, asc))[1..] == SortBy(s[1..], f, asc);
    }
  }

  /** A task whose id is new can head a list of distinct ids. */
  lemma ConsDistinct(y: Task, s: seq<Task>)
    requires DistinctIds(s) && forall t :: t in s ==> t.id != y.id
    ensures DistinctIds([y] + s)
  {
    var r := [y] + s;
    forall i, j | 0 <= i < j < |r| ensures r[i].id != r[j].id {
      if i == 0 { assert r[j] == s[j - 1] && r[j] in s; }
      else { assert r[i] == s[i - 1] && r[j] == s[j - 1]; }
    }
  }

  lemma {:induction false} InsertDistinct(x: Task, s: seq<Task>, f: SortField, asc: bool)
    requires DistinctIds(s) && forall t :: t in s ==> t.id != x.id
    ensures DistinctIds(Insert(x, s, f, asc))
  {
    if s != [] && Before(f, asc, s[0], x) {
      assert DistinctIds(s[1..]) by {
        forall i, j | 0 <= i < j < |s[1..]| ensures s[1..][i].id != s[1..][j].id {
          assert s[1..][i] == s[i + 1] && s[1..][j] == s[j + 1];
        }
      }
      InsertDistinct(x, s[1..], f, asc);
      InsertMembers(x, s[1..], f, asc);
      forall e | e in s[1..] ensures e.id != s[0].id {
        var m :| 0 <= m < |s[1..]| && s[1..][m] == e;
        assert s[m + 1] == e;
      }
      assert s[0] in s;
      ConsDistinct(s[0], Insert(x, s[1..], f, asc));
    } else {
      ConsDistinct(x, s);
    }
  }

  /** Sorting keeps ids distinct. */
  lemma {:induction false} SortByDistinct(s: seq<Task>, f: SortField, asc: bool)
    requires DistinctIds(s)
    ensures DistinctIds(SortBy(s, f, asc))
  {
    if s != [] {
      assert DistinctIds(s[1..]) by {
        forall i, j | 0 <= i < j < |s[1..]| ensures s[1..][i].id != s[1..][j].id {
          assert s[1..][i] == s[i + 1] && s[1..][j] == s[j + 1];
        }
      }
      SortByDistinct(s[1..], f, asc);
      var rest := SortBy(s[1..], f, asc);
      SortByPermutes(s[1..], f, asc);
      forall t | t in rest ensures t.id != s[0].id {
        assert t in multiset(s[1..]);
        var m :| 0 <= m < |s[1..]| && s[1..][m] == t;
        assert s[m + 1] == t;
      }
      InsertDistinct(s[0], rest, f, asc);
    }
  }

  /** No two different tasks of `s` share a key. */
  predicate NoTies(s: seq<Task>, f: SortField) {
    forall x, y :: x in s && y in s && KeyOf(f, x) == KeyOf(f, y) ==> x == y
  }

  function Reverse(s: seq<Task>): (r: seq<Task>)
    ensures |r| == |s| && forall i :: 0 <= i < |s| ==> r[i] == s[|s| - 1 - i]
  {
    if s == [] then [] else Reverse(s[1..]) + [s[0]]
  }

  lemma SortedTail(s: seq<Task>, f: SortField, asc: bool)
    requires s != [] && Sorted(s, f, asc)
    ensures Sorted(s[1..], f, asc)
  {
    forall i, j | 0 <= i < j < |s[1..]| ensures !Before(f, asc, s[1..][j], s[1..][i]) {
      assert s[1..][i] == s[i + 1] && s[1..][j] == s[j + 1];
    }
  }

  /** Two sorted arrangements of the same tasks without ties start alike. */
  lemma SortedHeads(a: seq<Task>, b: seq<Task>, f: SortField, asc: bool)
    requires multiset(a) == multiset(b) && Sorted(a, f, asc) && Sorted(b, f, asc) && NoTies(a, f)
    requires a != [] && b != []
    ensures a[0] == b[0]
  {
    assert a[0] in multiset(b) && b[0] in multiset(a);
    var k :| 0 <= k < |b| && b[k] == a[0];
    var m :| 0 <= m < |a| && a[m] == b[0];
    if a[0] != b[0] {
      assert a[0] in a && b[0] in a;
      BeforeTotal(f, asc, a[0], b[0]);
      assert false;
    }
  }

  lemma MultisetTails(a: seq<Task>, b: seq<Task>)
    requires a != [] && b != [] && a[0] == b[0] && multiset(a) == multiset(b)
    ensures multiset(a[1..]) == multiset(b[1..])
  {
    assert a == [a[0]] + a[1..] && b == [b[0]] + b[1..];
    assert multiset(a) == multiset{a[0]} + multiset(a[1..]);
    assert multiset(b) == multiset{b[0]} + multiset(b[1..]);
    assert multiset(a[1..]) == multiset(a) - multiset{a[0]};
    assert multiset(b[1..]) == multiset(b) - multiset{b[0]};
  }

  lemma NoTiesTail(a: seq<Task>, f: SortField)
    requires a != [] && NoTies(a, f)
    ensures NoTies(a[1..], f)
  {
    assert forall x :: x in a[1..] ==> x in a;
  }

  /** Without ties there is only one sorted arrangement of a list. */
  lemma {:induction false} SortedUnique(a: seq<Task>, b: seq<Task>, f: SortField, asc: bool)
    requires multiset(a) == multiset(b) && Sorted(a, f, asc) && Sorted(b, f, asc) && NoTies(a, f)
    ensures a == b
  {
    assert |a| == |multiset(a)| == |multiset(b)| == |b|;
    if a != [] {
      SortedHeads(a, b, f, asc);
      MultisetTails(a, b);
      SortedTail(a, f, asc);
      SortedTail(b, f, asc);
      NoTiesTail(a, f);
      SortedUnique(a[1..], b[1..], f, asc);
      assert a == [a[0]] + a[1..] && b == [b[0]] + b[1..];
    }
  }

  /** Reading an ascending list backwards gives a descending one. */
  lemma ReverseSorted(s: seq<Task>, f: SortField)
    requires Sorted(s, f, true)
    ensures Sorted(Reverse(s), f, false)
  {
    var r := Reverse(s);
    forall i, j | 0 <= i < j < |r| ensures !Before(f, false, r[j], r[i]) {
      assert r[i] == s[|s| - 1 - i] && r[j] == s[|s| - 1 - j];
    }
  }

  /** When no two tasks tie on the field, the descending order is the ascending
      order reversed (with ties it is not: both keep tied tasks in list order). */
  lemma DescendingReversesAscending(s: seq<Task>, f: SortField)
    requires NoTies(s, f)
    ensures SortBy(s, f, false) == Reverse(SortBy(s, f, true))
  {
    var up := SortBy(s, f, true);
    var down := SortBy(s, f, false);
    SortByPermutes(s, f, true);
    SortByPermutes(s, f, false);
    SortBySorted(s, f, true);
    SortBySorted(s, f, false);
    ReverseSorted(up, f);
    ReversePermutes(up);
    forall x | x in down ensures x in s {
      assert x in multiset(down);
    }
    SortedUnique(down, Reverse(up), f, false);
  }

  lemma {:induction false} ReversePermutes(s: seq<Task>)
    ensures multiset(Reverse(s)) == multiset(s)
  {
    if s != [] {
      ReversePermutes(s[1..]);
      assert s == [s[0]] + s[1..];
    }
  }
}
