/**
 * The task store of script.js: an ordered array of `{name, isDone}` records,
 * appended to by `add`, completed in place by `done`, spliced by `del`, and
 * projected by `list` (pending names) and `donelist` (completed names).
 */
module TaskStore {

  /** One task record. A task is created pending and only ever becomes done. */
  datatype Task = Task(name: string, isDone: bool)

  predicate IsDone(t: Task) { t.isDone }

  predicate IsNotDone(t: Task) { !IsDone(t) }

  /** `Array.prototype.filter`: the elements that satisfy `p`, in their order. */
  function Filter<T>(s: seq<T>, p: T -> bool): (r: seq<T>)
    ensures |r| <= |s|
  {
    if s == [] then [] else (if p(s[0]) then [s[0]] else []) + Filter(s[1..], p)
  }

  /** `.map(task => task.name)`. */
  function Names(ts: seq<Task>): (r: seq<string>)
    ensures |r| == |ts|
  {
    if ts == [] then [] else [ts[0].name] + Names(ts[1..])
  }

  /** The names `list()` returns for the records `ts`. */
  function Pending(ts: seq<Task>): seq<string> {
    Names(Filter(ts, IsNotDone))
  }

  /** The names `donelist()` returns for the records `ts`. */
  function Completed(ts: seq<Task>): seq<string> {
    Names(Filter(ts, IsDone))
  }

  /** Every position moved one place to the right. */
  function Shift(s: seq<nat>): seq<nat> {
    seq(|s|, k requires 0 <= k < |s| => s[k] + 1)
  }

  /**
   * The increasing positions of `s` whose elements satisfy `p`; see
   * `IndicesWhereSelects`, `IndicesWhereIncreasing` and `IndicesWhereExactly`
   * for how they describe `Filter`.
   */
  function IndicesWhere<T>(s: seq<T>, p: T -> bool): seq<nat> {
    if s == [] then []
    else if p(s[0]) then [0] + Shift(IndicesWhere(s[1..], p))
    else Shift(IndicesWhere(s[1..], p))
  }

  /** `Filter` keeps one element per position `IndicesWhere` lists, in that order. */
  lemma {:induction false} IndicesWhereSelects<T>(s: seq<T>, p: T -> bool)
    ensures |IndicesWhere(s, p)| == |Filter(s, p)|
    ensures forall k :: 0 <= k < |Filter(s, p)| ==>
      IndicesWhere(s, p)[k] < |s| && Filter(s, p)[k] == s[IndicesWhere(s, p)[k]]
  {
    if s != [] {
      var t, f := IndicesWhere(s[1..], p), Filter(s[1..], p);
      IndicesWhereSelects(s[1..], p);
      var rest := Shift(t);
      forall k | 0 <= k < |f| ensures rest[k] < |s| && f[k] == s[rest[k]] {
        assert f[k] == s[1..][t[k]];
      }
      if p(s[0]) {
        var r, g := [0] + rest, [s[0]] + f;
        assert IndicesWhere(s, p) == r && Filter(s, p) == g;
        forall k | 0 <= k < |g| ensures r[k] < |s| && g[k] == s[r[k]] {
          if k > 0 {
            assert r[k] == rest[k - 1] && g[k] == f[k - 1];
          }
        }
      } else {
        assert IndicesWhere(s, p) == rest && Filter(s, p) == f;
      }
    }
  }

  predicate StrictlyIncreasing(r: seq<nat>) {
    forall k, l :: 0 <= k < l < |r| ==> r[k] < r[l]
  }

  /** The positions `IndicesWhere` lists are strictly increasing. */
  lemma {:induction false} IndicesWhereIncreasing<T>(s: seq<T>, p: T -> bool)
    ensures StrictlyIncreasing(IndicesWhere(s, p))
  {
    if s != [] {
      IndicesWhereIncreasing(s[1..], p);
      var t := IndicesWhere(s[1..], p);
      var rest := Shift(t);
      assert StrictlyIncreasing(rest);
      if p(s[0]) {
        var r := [0] + rest;
        forall k, l | 0 <= k < l < |r| ensures r[k] < r[l] {
          assert r[l] == rest[l - 1];
          if k > 0 { assert r[k] == rest[k - 1]; }
        }
      }
    }
  }

  /** A position is listed by `IndicesWhere` exactly when its element satisfies `p`. */
  lemma {:induction false} IndicesWhereExactly<T>(s: seq<T>, p: T -> bool)
    ensures var r := IndicesWhere(s, p);
      forall i :: 0 <= i < |s| ==> (i in r <==> p(s[i]))
  {
    if s != [] {
      IndicesWhereExactly(s[1..], p);
      var t := IndicesWhere(s[1..], p);
      var rest := Shift(t);
      forall i | 1 <= i < |s| ensures i in rest <==> p(s[i]) {
        assert s[i] == s[1..][i - 1];
        if i in rest {
          var k :| 0 <= k < |rest| && rest[k] == i;
          assert t[k] == i - 1;
        }
        if i - 1 in t {
          var k :| 0 <= k < |t| && t[k] == i - 1;
          assert rest[k] == i;
        }
      }
      assert 0 !in rest;
    }
  }

  /** `tasks.findIndex(task => task.name === name)`: the first match, or -1. */
  function FindIndex(ts: seq<Task>, name: string): (r: int)
    ensures -1 <= r < |ts|
    ensures r == -1 <==> forall j :: 0 <= j < |ts| ==> ts[j].name != name
    ensures 0 <= r ==> ts[r].name == name && forall j :: 0 <= j < r ==> ts[j].name != name
  {
    if ts == [] then -1
    else if ts[0].name == name then 0
    else
      var k := FindIndex(ts[1..], name);
      assert forall j :: 1 <= j < |ts| ==> ts[j] == ts[1..][j - 1];
      if k == -1 then -1 else k + 1
  }

  /**
   * What `done(name)` leaves behind, defined by walking the records: the
   * first record called `name` is marked done, nothing else changes.
   */
  function MarkFirstDone(ts: seq<Task>, name: string): (r: seq<Task>)
    ensures |r| == |ts|
    ensures FindIndex(ts, name) == -1 ==> r == ts
    ensures FindIndex(ts, name) >= 0 ==>
      var i := FindIndex(ts, name);
      r[i] == Task(name, true) && forall j :: 0 <= j < |ts| && j != i ==> r[j] == ts[j]
  {
    if ts == [] then []
    else if ts[0].name == name then [ts[0].(isDone := true)] + ts[1..]
    else [ts[0]] + MarkFirstDone(ts[1..], name)
  }

  /**
   * What `del(name)` leaves behind, defined by walking the records: the first
   * record called `name` is dropped, the others keep their order.
   */
  function RemoveFirst(ts: seq<Task>, name: string): (r: seq<Task>)
    ensures FindIndex(ts, name) == -1 ==> r == ts
    ensures FindIndex(ts, name) >= 0 ==>
      var i := FindIndex(ts, name);
      |r| == |ts| - 1 &&
      (forall j {:trigger r[j]} :: 0 <= j < i ==> r[j] == ts[j]) &&
      (forall j {:trigger r[j]} :: i <= j < |r| ==> r[j] == ts[j + 1])
  {
    if ts == [] then []
    else if ts[0].name == name then ts[1..]
    else [ts[0]] + RemoveFirst(ts[1..], name)
  }

  /** No two records share a name (the store does not enforce this). */
  predicate DistinctNames(ts: seq<Task>) {
    forall i, j :: 0 <= i < j < |ts| ==> ts[i].name != ts[j].name
  }

  /** Mapping to names distributes over concatenation. */
  lemma {:induction false} NamesAppend(a: seq<Task>, b: seq<Task>)
    ensures Names(a + b) == Names(a) + Names(b)
  {
    if a != [] {
      NamesAppend(a[1..], b);
      assert (a + b)[1..] == a[1..] + b;
    } else {
      assert a + b == b;
    }
  }

  /** The `k`-th name is the name of the `k`-th record. */
  lemma {:induction false} NamesAt(ts: seq<Task>, k: nat)
    requires k < |ts|
    ensures Names(ts)[k] == ts[k].name
  {
    if k > 0 {
      NamesAt(ts[1..], k - 1);
    }
  }

  /** Filtering distributes over concatenation. */
  lemma {:induction false} FilterAppend<T>(a: seq<T>, b: seq<T>, p: T -> bool)
    ensures Filter(a + b, p) == Filter(a, p) + Filter(b, p)
  {
    if a != [] {
      FilterAppend(a[1..], b, p);
      assert (a + b)[0] == a[0];
      assert (a + b)[1..] == a[1..] + b;
      var h := if p(a[0]) then [a[0]] else [];
      calc {
        Filter(a + b, p);
        h + Filter(a[1..] + b, p);
        h + (Filter(a[1..], p) + Filter(b, p));
        (h + Filter(a[1..], p)) + Filter(b, p);
      }
    } else {
      assert a + b == b;
    }
  }

  /** Both projections distribute over concatenation. */
  lemma {:induction false} ProjectionsAppend(a: seq<Task>, b: seq<Task>)
    ensures Pending(a + b) == Pending(a) + Pending(b)
    ensures Completed(a + b) == Completed(a) + Completed(b)
  {
    FilterAppend(a, b, IsNotDone);
    FilterAppend(a, b, IsDone);
    NamesAppend(Filter(a, IsNotDone), Filter(b, IsNotDone));
    NamesAppend(Filter(a, IsDone), Filter(b, IsDone));
  }

  /** One record lands in exactly one projection. */
  lemma {:induction false} ProjectionsOne(t: Task)
    ensures Pending([t]) == if t.isDone then [] else [t.name]
    ensures Completed([t]) == if t.isDone then [t.name] else []
  {
  }

  /** Both projections of a record spliced between two runs of records. */
  lemma {:induction false} Splice(pre: seq<Task>, t: Task, post: seq<Task>)
    ensures Pending(pre + [t] + post) == Pending(pre) + (if t.isDone then [] else [t.name]) + Pending(post)
    ensures Completed(pre + [t] + post) == Completed(pre) + (if t.isDone then [t.name] else []) + Completed(post)
  {
    ProjectionsAppend(pre + [t], post);
    ProjectionsAppend(pre, [t]);
    ProjectionsOne(t);
  }

  /** Both projections, cut around position `i`. */
  lemma {:induction false} Around(ts: seq<Task>, i: nat)
    requires i < |ts|
    ensures Pending(ts) == Pending(ts[..i]) + (if ts[i].isDone then [] else [ts[i].name]) + Pending(ts[i + 1..])
    ensures Completed(ts) == Completed(ts[..i]) + (if ts[i].isDone then [ts[i].name] else []) + Completed(ts[i + 1..])
  {
    assert ts == ts[..i] + [ts[i]] + ts[i + 1..];
    Splice(ts[..i], ts[i], ts[i + 1..]);
  }

  /** Every record is counted by exactly one of the two projections. */
  lemma {:induction false} PartitionCount(ts: seq<Task>)
    ensures |Pending(ts)| + |Completed(ts)| == |ts|
  {
    if ts != [] {
      var t, rest := ts[0], ts[1..];
      assert ts == [t] + rest;
      PartitionCount(rest);
      ProjectionsAppend([t], rest);
      ProjectionsOne(t);
    }
  }

  /** Together the two projections hold every record's name exactly once. */
  lemma {:induction false} PartitionNames(ts: seq<Task>)
    ensures multiset(Pending(ts)) + multiset(Completed(ts)) == multiset(Names(ts))
  {
    if ts != [] {
      var t, rest := ts[0], ts[1..];
      assert ts == [t] + rest;
      PartitionNames(rest);
      ProjectionsAppend([t], rest);
      ProjectionsOne(t);
      var p, c, r := Pending(rest), Completed(rest), Names(rest);
      assert Names(ts) == [t.name] + r;
      assert multiset(Names(ts)) == multiset{t.name} + multiset(r);
      if t.isDone {
        assert Pending(ts) == p;
        assert Completed(ts) == [t.name] + c;
        assert multiset(Completed(ts)) == multiset{t.name} + multiset(c);
      } else {
        assert Pending(ts) == [t.name] + p;
        assert Completed(ts) == c;
        assert multiset(Pending(ts)) == multiset{t.name} + multiset(p);
      }
    }
  }

  /**
   * `list()` and `donelist()` split the records by `isDone`: together they
   * hold one name per record; every position is kept by exactly one of the
   * two filters; each lists its names in increasing record order.
   */
  lemma {:induction false} Partition(ts: seq<Task>)
    ensures |Pending(ts)| + |Completed(ts)| == |ts|
    ensures multiset(Pending(ts)) + multiset(Completed(ts)) == multiset(Names(ts))
    ensures forall i :: 0 <= i < |ts| ==>
      (i in IndicesWhere(ts, IsNotDone) <==> !ts[i].isDone) &&
      (i in IndicesWhere(ts, IsDone) <==> ts[i].isDone)
    ensures StrictlyIncreasing(IndicesWhere(ts, IsNotDone)) && StrictlyIncreasing(IndicesWhere(ts, IsDone))
    ensures |IndicesWhere(ts, IsNotDone)| == |Pending(ts)| &&
      forall k :: 0 <= k < |Pending(ts)| ==>
        IndicesWhere(ts, IsNotDone)[k] < |ts| && Pending(ts)[k] == ts[IndicesWhere(ts, IsNotDone)[k]].name
    ensures |IndicesWhere(ts, IsDone)| == |Completed(ts)| &&
      forall k :: 0 <= k < |Completed(ts)| ==>
        IndicesWhere(ts, IsDone)[k] < |ts| && Completed(ts)[k] == ts[IndicesWhere(ts, IsDone)[k]].name
  {
    PartitionCount(ts);
    PartitionNames(ts);
    IndicesWhereExactly(ts, IsNotDone);
    IndicesWhereExactly(ts, IsDone);
    IndicesWhereIncreasing(ts, IsNotDone);
    IndicesWhereIncreasing(ts, IsDone);
    IndicesWhereSelects(ts, IsNotDone);
    IndicesWhereSelects(ts, IsDone);
    forall k | 0 <= k < |Pending(ts)|
      ensures Pending(ts)[k] == ts[IndicesWhere(ts, IsNotDone)[k]].name
    {
      NamesAt(Filter(ts, IsNotDone), k);
    }
    forall k | 0 <= k < |Completed(ts)|
      ensures Completed(ts)[k] == ts[IndicesWhere(ts, IsDone)[k]].name
    {
      NamesAt(Filter(ts, IsDone), k);
    }
  }

  /** `add` appends its name to `list()` and leaves `donelist()` alone. */
  lemma {:induction false} AddProjections(ts: seq<Task>, n: string)
    ensures Pending(ts + [Task(n, false)]) == Pending(ts) + [n]
    ensures Completed(ts + [Task(n, false)]) == Completed(ts)
  {
    ProjectionsAppend(ts, [Task(n, false)]);
    ProjectionsOne(Task(n, false));
  }

  /** `MarkFirstDone` replaces the first match in place. */
  lemma {:induction false} MarkFirstDoneAt(ts: seq<Task>, n: string)
    requires FindIndex(ts, n) >= 0
    ensures var i := FindIndex(ts, n);
      MarkFirstDone(ts, n) == ts[..i] + [Task(n, true)] + ts[i + 1..]
  {
    var i := FindIndex(ts, n);
    assert MarkFirstDone(ts, n) == ts[..i] + [Task(n, true)] + ts[i + 1..];
  }

  /** Both projections of a done record spliced between two runs of records. */
  lemma {:induction false} SpliceDone(pre: seq<Task>, n: string, post: seq<Task>)
    ensures Pending(pre + [Task(n, true)] + post) == Pending(pre) + Pending(post)
    ensures Completed(pre + [Task(n, true)] + post) == Completed(pre) + [n] + Completed(post)
  {
    Splice(pre, Task(n, true), post);
  }

  /**
   * The effect of `done(n)` on the two projections when some record is named
   * `n`: the first such record leaves `list()` (if it was pending) and takes
   * its place in `donelist()`; every other name keeps its place.
   */
  lemma {:induction false} DoneProjections(ts: seq<Task>, n: string, i: nat)
    requires i == FindIndex(ts, n)
    ensures Pending(MarkFirstDone(ts, n)) == Pending(ts[..i]) + Pending(ts[i + 1..])
    ensures Completed(MarkFirstDone(ts, n)) == Completed(ts[..i]) + [n] + Completed(ts[i + 1..])
    ensures Pending(ts) == Pending(ts[..i]) + (if ts[i].isDone then [] else [n]) + Pending(ts[i + 1..])
    ensures Completed(ts) == Completed(ts[..i]) + (if ts[i].isDone then [n] else []) + Completed(ts[i + 1..])
  {
    var pre, post := ts[..i], ts[i + 1..];
    MarkFirstDoneAt(ts, n);
    SpliceDone(pre, n, post);
    Around(ts, i);
  }

  /** `RemoveFirst` splices out the first match. */
  lemma {:induction false} RemoveFirstAt(ts: seq<Task>, n: string)
    requires FindIndex(ts, n) >= 0
    ensures var i := FindIndex(ts, n);
      RemoveFirst(ts, n) == ts[..i] + ts[i + 1..]
  {
    var i := FindIndex(ts, n);
    assert RemoveFirst(ts, n) == ts[..i] + ts[i + 1..];
  }

  /**
   * The effect of `del(n)` on the two projections: the first record named
   * `n` disappears from whichever list held it; every other name keeps its
   * place. A missing name changes neither.
   */
  lemma {:induction false} DelProjections(ts: seq<Task>, n: string)
    ensures FindIndex(ts, n) == -1 ==>
      Pending(RemoveFirst(ts, n)) == Pending(ts) && Completed(RemoveFirst(ts, n)) == Completed(ts)
    ensures FindIndex(ts, n) >= 0 ==>
      var i, ts' := FindIndex(ts, n), RemoveFirst(ts, n);
      Pending(ts') == Pending(ts[..i]) + Pending(ts[i + 1..]) &&
      Completed(ts') == Completed(ts[..i]) + Completed(ts[i + 1..]) &&
      Pending(ts) == Pending(ts[..i]) + (if ts[i].isDone then [] else [n]) + Pending(ts[i + 1..]) &&
      Completed(ts) == Completed(ts[..i]) + (if ts[i].isDone then [n] else []) + Completed(ts[i + 1..])
  {
    var i := FindIndex(ts, n);
    if i >= 0 {
      RemoveFirstAt(ts, n);
      Around(ts, i);
      ProjectionsAppend(ts[..i], ts[i + 1..]);
    }
  }

  /** A name no record carries is in neither projection. */
  lemma {:induction false} AbsentFromProjections(ts: seq<Task>, n: string)
    requires forall j :: 0 <= j < |ts| ==> ts[j].name != n
    ensures n !in Pending(ts) && n !in Completed(ts)
  {
    if ts != [] {
      assert forall j :: 0 <= j < |ts[1..]| ==> ts[1..][j].name != n;
      AbsentFromProjections(ts[1..], n);
      ProjectionsAppend([ts[0]], ts[1..]);
      ProjectionsOne(ts[0]);
      assert ts == [ts[0]] + ts[1..];
    }
  }

  /**
   * When names are distinct, `done(n)` on a stored name takes `n` out of
   * `list()` and puts it in `donelist()`, and `del(n)` takes it out of both.
   */
  lemma {:induction false} DistinctDoneDel(ts: seq<Task>, n: string)
    requires DistinctNames(ts)
    requires FindIndex(ts, n) >= 0
    ensures n !in Pending(MarkFirstDone(ts, n)) && n in Completed(MarkFirstDone(ts, n))
    ensures n !in Pending(RemoveFirst(ts, n)) && n !in Completed(RemoveFirst(ts, n))
  {
    var i := FindIndex(ts, n);
    DoneProjections(ts, n, i);
    DelProjections(ts, n);
    AbsentFromProjections(ts[..i], n);
    var tail := ts[i + 1..];
    forall j | 0 <= j < |tail| ensures tail[j].name != n {
      assert tail[j] == ts[i + 1 + j];
    }
    AbsentFromProjections(tail, n);
  }

  /**
   * With a duplicate name, `done` and `del` act on the first record only:
   * if the first `A` is already done, `done("A")` changes nothing and `A`
   * stays pending, while `del("A")` removes the done record and keeps the
   * pending one.
   */
  lemma DuplicateNameFirstMatch()
    ensures MarkFirstDone([Task("A", true), Task("A", false)], "A") == [Task("A", true), Task("A", false)]
    ensures "A" in Pending(MarkFirstDone([Task("A", true), Task("A", false)], "A"))
    ensures RemoveFirst([Task("A", true), Task("A", false)], "A") == [Task("A", false)]
  {
  }

  /**
   * Distinct names stay distinct: `add` of a name not yet stored, and every
   * `done` and `del`.
   */
  lemma DistinctPreserved(ts: seq<Task>, n: string)
    requires DistinctNames(ts)
    ensures (forall j :: 0 <= j < |ts| ==> ts[j].name != n) ==> DistinctNames(ts + [Task(n, false)])
    ensures DistinctNames(MarkFirstDone(ts, n))
    ensures DistinctNames(RemoveFirst(ts, n))
  {
  }

  /** The module-level `tasks` array together with the functions that use it. */
  class Store {
    var tasks: seq<Task>

    constructor ()
      ensures tasks == []
    {
      tasks := [];
    }

    /** `add`: appends a pending record; the store does no validation itself. */
    method Add(taskName: string)
      modifies this
      ensures tasks == old(tasks) + [Task(taskName, false)]
    {
      tasks := tasks + [Task(taskName, false)];
    }

    /** `list()`. */
    function List(): seq<string>
      reads this
    {
      Pending(tasks)
    }

    /** `donelist()`. */
    function DoneList(): seq<string>
      reads this
    {
      Completed(tasks)
    }

    /** `done`: sets `isDone` on the first record with this name, in place. */
    method Done(taskName: string)
      modifies this
      ensures tasks == MarkFirstDone(old(tasks), taskName)
    {
      var indexFound := FindIndex(tasks, taskName);
      if indexFound != -1 {
        tasks := tasks[indexFound := tasks[indexFound].(isDone := true)];
      }
    }

    /** `del`: splices out the first record with this name. */
    method Del(taskName: string)
      modifies this
      ensures tasks == RemoveFirst(old(tasks), taskName)
    {
      var indexFound := FindIndex(tasks, taskName);
      if indexFound != -1 {
        tasks := tasks[..indexFound] + tasks[indexFound + 1..];
      }
    }
  }
}
