/**
 * The records the drag-and-drop front end moves around.
 *
 * Tasks and projects are both rows with a string `id`, an integer
 * `display_order` and further columns the reordering code never inspects.
 * `Item<F>` keeps the two ordering-relevant columns apart from the rest, so
 * that "only display_order changed" can be stated once for both entities.
 */
module Items {

  datatype Option<+T> = None | Some(value: T)

  /** The answer of a fetch: the rows, or an error (an error body or a thrown exception). */
  datatype Response<T> = Success(data: T) | Failure

  /** A row: its id, its display_order (nullable on the client side) and every other column. */
  datatype Item<+F> = Item(id: string, displayOrder: Option<int>, fields: F)

  datatype TaskStatus = Open | InProgress | Review | Done | Blocked
  datatype Priority = Low | Medium | High | Urgent
  datatype ProjectStatus = Active | Completed | Archived

  /** The task columns besides id and display_order; `other` stands for title, description, assignee and timestamps. */
  datatype TaskFields = TaskFields(
    projectId: string,
    status: TaskStatus,
    priority: Priority,
    dueDate: Option<string>,
    other: map<string, string>)

  /** The project columns besides id and display_order; `other` stands for owner and timestamps. */
  datatype ProjectFields = ProjectFields(
    name: string,
    description: Option<string>,
    status: ProjectStatus,
    other: map<string, string>)

  type Task = Item<TaskFields>
  type Project = Item<ProjectFields>

  /** The row with its display_order forgotten: two rows agree here iff only their order differs. */
  function WithoutOrder<F>(x: Item<F>): Item<F> {
    x.(displayOrder := None)
  }

  /** The whole list with every display_order forgotten. */
  function Unordered<F>(s: seq<Item<F>>): (r: seq<Item<F>>)
    ensures |r| == |s|
    ensures forall i :: 0 <= i < |s| ==> r[i] == WithoutOrder(s[i])
  {
    seq(|s|, i requires 0 <= i < |s| => WithoutOrder(s[i]))
  }

  /** `display_order` equals the array position, for every element: the dense, zero-based numbering. */
  predicate Dense<F>(s: seq<Item<F>>) {
    forall i :: 0 <= i < |s| ==> s[i].displayOrder == Some(i)
  }

  /** Ids are primary keys: no two rows of a list share one. */
  predicate UniqueIds<F>(s: seq<Item<F>>) {
    forall i, j :: 0 <= i < j < |s| ==> s[i].id != s[j].id
  }

  /** `items.map((item, index) => ({ ...item, display_order: index }))`. */
  function Renumber<F>(s: seq<Item<F>>): (r: seq<Item<F>>)
    ensures |r| == |s| && Dense(r)
    ensures Unordered(r) == Unordered(s)
  {
    seq(|s|, i requires 0 <= i < |s| => s[i].(displayOrder := Some(i)))
  }

  /** `Array.prototype.filter`. */
  function Filter<T>(s: seq<T>, p: T -> bool): (r: seq<T>)
    ensures |r| <= |s|
    ensures forall i :: 0 <= i < |r| ==> p(r[i]) && r[i] in s
    ensures multiset(r) <= multiset(s)
  {
    if s == [] then []
    else
      assert s == [s[0]] + s[1..];
      (if p(s[0]) then [s[0]] else []) + Filter(s[1..], p)
  }

  /** Filtering keeps every element that passes the predicate. */
  lemma {:induction false} FilterKeepsPassing<T>(s: seq<T>, p: T -> bool, i: nat)
    requires i < |s| && p(s[i])
    ensures s[i] in Filter(s, p)
    decreases |s|
  {
    if i > 0 {
      assert s[1..][i - 1] == s[i];
      FilterKeepsPassing(s[1..], p, i - 1);
    }
  }

  /** An element of any rearrangement of a filtered sequence passes the filter and comes from the original. */
  lemma InFilterSatisfies<T>(s: seq<T>, p: T -> bool, x: T)
    requires x in multiset(Filter(s, p))
    ensures p(x) && x in s
  {
    var r := Filter(s, p);
    assert x in r;
    var j :| 0 <= j < |r| && r[j] == x;
  }

  /** `items.find((t) => t.id === id)`: the first row carrying the id, or nothing. */
  function FindById<F>(s: seq<Item<F>>, id: string): (r: Option<Item<F>>)
    ensures r.None? <==> forall i :: 0 <= i < |s| ==> s[i].id != id
    ensures r.Some? ==> exists i :: 0 <= i < |s| && s[i] == r.value && forall j :: 0 <= j < i ==> s[j].id != id
    ensures r.Some? ==> r.value.id == id && r.value in s
  {
    if s == [] then None
    else if s[0].id == id then Some(s[0])
    else
      var r := FindById(s[1..], id);
      assert forall i :: 1 <= i < |s| ==> s[i] == s[1..][i - 1];
      if r.Some? then
        assert exists i :: 0 <= i < |s| && s[i] == r.value && forall j :: 0 <= j < i ==> s[j].id != id by {
          var k :| 0 <= k < |s[1..]| && s[1..][k] == r.value && forall j :: 0 <= j < k ==> s[1..][j].id != id;
          assert s[k + 1] == r.value;
        }
        r
      else r
  }

  /** How many rows carry the id. */
  function CountId<F>(s: seq<Item<F>>, id: string): nat {
    if s == [] then 0 else (if s[0].id == id then 1 else 0) + CountId(s[1..], id)
  }

  /** `Array.prototype.map`. */
  function Map<T, U>(s: seq<T>, f: T -> U): (r: seq<U>)
    ensures |r| == |s|
    ensures forall i :: 0 <= i < |s| ==> r[i] == f(s[i])
  {
    seq(|s|, i requires 0 <= i < |s| => f(s[i]))
  }

  /** Filtering out exactly one element, which everything around it passes, removes that element. */
  lemma {:induction false} FilterDropsOne<T>(front: seq<T>, x: T, back: seq<T>, p: T -> bool)
    requires !p(x)
    requires forall j :: 0 <= j < |front| ==> p(front[j])
    requires forall j :: 0 <= j < |back| ==> p(back[j])
    ensures Filter(front + [x] + back, p) == front + back
  {
    calc {
      Filter(front + [x] + back, p);
    == { FilterConcat(front + [x], back, p); }
      Filter(front + [x], p) + Filter(back, p);
    == { FilterConcat(front, [x], p); assert Filter([x], p) == []; }
      Filter(front, p) + [] + Filter(back, p);
    == { assert Filter(front, p) + [] == Filter(front, p); }
      Filter(front, p) + Filter(back, p);
    == { FilterKeepsAll(front, p); FilterKeepsAll(back, p); }
      front + back;
    }
  }

  /** Where each element of two mapped lists lands when they follow a head entry. */
  lemma {:induction false} MapAfterHead<T, U>(head: U, a: seq<T>, b: seq<T>, f: T -> U)
    ensures var r := [head] + Map(a, f) + Map(b, f);
            && |r| == 1 + |a| + |b|
            && r[0] == head
            && (forall k :: 0 <= k < |a| ==> r[1 + k] == f(a[k]))
            && (forall j :: 0 <= j < |b| ==> r[1 + |a| + j] == f(b[j]))
  {
    var r := [head] + Map(a, f) + Map(b, f);
    forall k | 0 <= k < |a| ensures r[1 + k] == f(a[k]) {
      assert r[1 + k] == Map(a, f)[k];
    }
    forall j | 0 <= j < |b| ensures r[1 + |a| + j] == f(b[j]) {
      assert r[1 + |a| + j] == Map(b, f)[j];
    }
  }

  /** An element that passes the filter is mapped into the mapped filtered list. */
  lemma {:induction false} MapFilterMember<T, U>(s: seq<T>, p: T -> bool, f: T -> U, i: nat)
    requires i < |s| && p(s[i])
    ensures f(s[i]) in Map(Filter(s, p), f)
  {
    FilterKeepsPassing(s, p, i);
    MapMember(Filter(s, p), f, s[i]);
  }

  /** When both mapped lists land inside `target`, so does every entry after the head. */
  lemma {:induction false} MapAfterHeadWithin<T, U>(head: U, a: seq<T>, b: seq<T>, f: T -> U, target: seq<U>)
    requires forall k :: 0 <= k < |a| ==> f(a[k]) in target
    requires forall j :: 0 <= j < |b| ==> f(b[j]) in target
    ensures var r := [head] + Map(a, f) + Map(b, f);
            forall k :: 1 <= k < |r| ==> r[k] in target
  {
    MapAfterHead(head, a, b, f);
  }

  /** Mapping carries membership along. */
  lemma {:induction false} MapMember<T, U>(s: seq<T>, f: T -> U, x: T)
    requires x in s
    ensures f(x) in Map(s, f)
  {
    var i :| 0 <= i < |s| && s[i] == x;
    assert Map(s, f)[i] == f(x);
  }

  /** The predicate `(t) => t.id !== id`. */
  function IdIsNot<F>(id: string): Item<F> -> bool {
    (x: Item<F>) => x.id != id
  }

  // ---------------------------------------------------------------------------
  // Facts about filtering and counting used by the page models

  lemma {:induction false} FilterConcat<T>(a: seq<T>, b: seq<T>, p: T -> bool)
    ensures Filter(a + b, p) == Filter(a, p) + Filter(b, p)
  {
    if a == [] {
      assert a + b == b;
    } else {
      assert (a + b)[1..] == a[1..] + b;
      FilterConcat(a[1..], b, p);
    }
  }

  /** Two lists that agree on which positions pass `p`, and agree at those positions, filter alike. */
  lemma {:induction false} FilterAgree<T>(a: seq<T>, b: seq<T>, p: T -> bool)
    requires |a| == |b|
    requires forall i :: 0 <= i < |a| ==> (p(a[i]) <==> p(b[i]))
    requires forall i :: 0 <= i < |a| && p(a[i]) ==> a[i] == b[i]
    ensures Filter(a, p) == Filter(b, p)
  {
    if a != [] {
      FilterAgree(a[1..], b[1..], p);
    }
  }

  lemma {:induction false} FilterCommute<T>(s: seq<T>, p: T -> bool, q: T -> bool)
    ensures Filter(Filter(s, p), q) == Filter(Filter(s, q), p)
  {
    if s != [] {
      FilterCommute(s[1..], p, q);
      var h := if p(s[0]) then [s[0]] else [];
      var k := if q(s[0]) then [s[0]] else [];
      FilterConcat(h, Filter(s[1..], p), q);
      FilterConcat(k, Filter(s[1..], q), p);
    }
  }

  /** Filtering by `p` and then by `q` is filtering once by their conjunction, in the same order. */
  lemma {:induction false} FilterBoth<T>(s: seq<T>, p: T -> bool, q: T -> bool, both: T -> bool)
    requires forall x :: both(x) == (p(x) && q(x))
    ensures Filter(Filter(s, p), q) == Filter(s, both)
  {
    if s != [] {
      FilterBoth(s[1..], p, q, both);
      var h := if p(s[0]) then [s[0]] else [];
      FilterConcat(h, Filter(s[1..], p), q);
      if p(s[0]) {
        assert Filter(h, q) == if q(s[0]) then [s[0]] else [];
      }
    }
  }

  lemma {:induction false} FilterKeepsAll<T>(s: seq<T>, p: T -> bool)
    requires forall i :: 0 <= i < |s| ==> p(s[i])
    ensures Filter(s, p) == s
  {
    if s != [] {
      FilterKeepsAll(s[1..], p);
    }
  }

  lemma {:induction false} CountIdConcat<F>(a: seq<Item<F>>, b: seq<Item<F>>, id: string)
    ensures CountId(a + b, id) == CountId(a, id) + CountId(b, id)
  {
    if a == [] {
      assert a + b == b;
    } else {
      assert (a + b)[1..] == a[1..] + b;
      CountIdConcat(a[1..], b, id);
    }
  }

  /** Removing every row with the id removes exactly as many rows as carry it. */
  lemma {:induction false} CountIdFilter<F>(s: seq<Item<F>>, id: string)
    ensures |Filter(s, IdIsNot(id))| + CountId(s, id) == |s|
    ensures CountId(Filter(s, IdIsNot(id)), id) == 0
  {
    if s != [] {
      CountIdFilter(s[1..], id);
      var h: seq<Item<F>> := if IdIsNot(id)(s[0]) then [s[0]] else [];
      CountIdConcat(h, Filter(s[1..], IdIsNot(id)), id);
    }
  }

  lemma {:induction false} CountIdAbsent<F>(s: seq<Item<F>>, id: string)
    requires forall i :: 0 <= i < |s| ==> s[i].id != id
    ensures CountId(s, id) == 0
  {
    if s != [] {
      CountIdAbsent(s[1..], id);
    }
  }

  /** Lists with the same ids position by position count every id alike. */
  lemma {:induction false} CountIdSameIds<F>(a: seq<Item<F>>, b: seq<Item<F>>, id: string)
    requires |a| == |b| && forall i :: 0 <= i < |a| ==> a[i].id == b[i].id
    ensures CountId(a, id) == CountId(b, id)
  {
    if a != [] {
      CountIdSameIds(a[1..], b[1..], id);
    }
  }

  /** In a list with unique ids, an id that occurs occurs once. */
  lemma {:induction false} CountIdUnique<F>(s: seq<Item<F>>, k: nat)
    requires UniqueIds(s) && k < |s|
    ensures CountId(s, s[k].id) == 1
  {
    if k == 0 {
      CountIdAbsent(s[1..], s[0].id);
    } else {
      CountIdUnique(s[1..], k - 1);
    }
  }

  /** Two rows of a list with unique ids that share an id are the same row. */
  lemma SameIdSameRow<F>(s: seq<Item<F>>, x: Item<F>, y: Item<F>)
    requires UniqueIds(s) && x in s && y in s && x.id == y.id
    ensures x == y
  {
    var i :| 0 <= i < |s| && s[i] == x;
    var j :| 0 <= j < |s| && s[j] == y;
    assert !(i < j) && !(j < i);
  }

  /** A list with unique ids holds each row at most once. */
  lemma {:induction false} UniqueOnce<F>(s: seq<Item<F>>, x: Item<F>)
    requires UniqueIds(s)
    ensures multiset(s)[x] <= 1
  {
    if s != [] {
      assert s == [s[0]] + s[1..];
      UniqueOnce(s[1..], x);
      if s[0] == x {
        assert x !in s[1..];
      }
    }
  }

  /** Any selection of rows from a list with unique ids (a filtered or sorted copy) has unique ids too. */
  lemma UniqueIdsSub<F>(s: seq<Item<F>>, t: seq<Item<F>>)
    requires UniqueIds(t) && multiset(s) <= multiset(t)
    ensures UniqueIds(s)
  {
    forall i, j | 0 <= i < j < |s| ensures s[i].id != s[j].id {
      if s[i].id == s[j].id {
        assert s[i] in multiset(t) && s[j] in multiset(t);
        SameIdSameRow(t, s[i], s[j]);
        assert s == s[..i] + [s[i]] + s[i + 1..j] + [s[j]] + s[j + 1..];
        assert multiset(s)[s[i]] >= 2;
        UniqueOnce(t, s[i]);
        assert false;
      }
    }
  }

  /** A list in which only position `at` carries `id`: `find` returns that row and the id is counted once. */
  lemma {:induction false} OnlyAt<F>(s: seq<Item<F>>, at: nat, id: string)
    requires at < |s| && s[at].id == id
    requires forall j :: 0 <= j < |s| && j != at ==> s[j].id != id
    ensures FindById(s, id) == Some(s[at])
    ensures CountId(s, id) == 1
  {
    var found := FindById(s, id);
    var k :| 0 <= k < |s| && s[k] == found.value && forall j :: 0 <= j < k ==> s[j].id != id;
    assert k == at;
    CountIdOnlyAt(s, at, id);
  }

  lemma {:induction false} CountIdOnlyAt<F>(s: seq<Item<F>>, at: nat, id: string)
    requires at < |s| && s[at].id == id
    requires forall j :: 0 <= j < |s| && j != at ==> s[j].id != id
    ensures CountId(s, id) == 1
  {
    var front, back := s[..at], s[at + 1..];
    assert s == front + [s[at]] + back;
    CountIdAbsent(front, id);
    CountIdAbsent(back, id);
    CountIdConcat(front + [s[at]], back, id);
    CountIdConcat(front, [s[at]], id);
  }

  /** Filtering by `q` after `p` changes nothing when every element passing `p` passes `q`. */
  lemma {:induction false} FilterImplied<T>(s: seq<T>, p: T -> bool, q: T -> bool)
    requires forall i :: 0 <= i < |s| && p(s[i]) ==> q(s[i])
    ensures Filter(Filter(s, p), q) == Filter(s, p)
  {
    if s != [] {
      FilterImplied(s[1..], p, q);
      var h := if p(s[0]) then [s[0]] else [];
      FilterConcat(h, Filter(s[1..], p), q);
    }
  }

  /** Removing rows that fail `p`, then appending one that fails it, leaves the `p`-rows as they were. */
  lemma FilterAfterRemoval<T>(s: seq<T>, q: T -> bool, p: T -> bool, x: T)
    requires forall i :: 0 <= i < |s| && p(s[i]) ==> q(s[i])
    requires !p(x)
    ensures Filter(Filter(s, q) + [x], p) == Filter(s, p)
  {
    FilterConcat(Filter(s, q), [x], p);
    assert [x][1..] == [];
    FilterCommute(s, q, p);
    FilterImplied(s, p, q);
  }

  /** Filtering a list extended by one element: the old result, extended by that element if it passes. */
  lemma FilterSnoc<T>(s: seq<T>, x: T, p: T -> bool)
    ensures Filter(s + [x], p) == Filter(s, p) + if p(x) then [x] else []
  {
    FilterConcat(s, [x], p);
    assert [x][1..] == [];
    if p(x) {
      assert Filter([x], p) == [x];
    } else {
      assert Filter([x], p) == [];
    }
  }

  /** Filtering keeps every copy of an element that passes and none of one that fails. */
  lemma {:induction false} FilterCount<T>(s: seq<T>, p: T -> bool, x: T)
    ensures multiset(Filter(s, p))[x] == if p(x) then multiset(s)[x] else 0
  {
    if s != [] {
      var t := s[1..];
      FilterCount(t, p, x);
      assert s == [s[0]] + t;
      if p(s[0]) {
        assert Filter(s, p) == [s[0]] + Filter(t, p);
      } else {
        assert Filter(s, p) == Filter(t, p);
      }
    }
  }
}
