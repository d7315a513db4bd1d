/** The stable sort of tasks, told apart from every other rearrangement: it alone is
    ascending and keeps equally ranked tasks in the order they came. */
module TaskOrder {
  import opened TaskGroups

  predicate SameRank(loc: Collation, a: Task, b: Task) {
    Leq(loc, a, b) && Leq(loc, b, a)
  }

  /** The tasks ranked like `t`, in the order they come. */
  function Ranked(loc: Collation, ts: seq<Task>, t: Task): seq<Task> {
    if ts == [] then []
    else (if SameRank(loc, ts[0], t) then [ts[0]] else []) + Ranked(loc, ts[1..], t)
  }

  /** `ts'` keeps equally ranked tasks in the order `ts` has them. */
  ghost predicate KeepsTies(loc: Collation, ts: seq<Task>, ts': seq<Task>) {
    forall t :: Ranked(loc, ts', t) == Ranked(loc, ts, t)
  }

  lemma RankedCons(loc: Collation, head: Task, rest: seq<Task>, t: Task)
    ensures Ranked(loc, [head] + rest, t) == (if SameRank(loc, head, t) then [head] else []) + Ranked(loc, rest, t)
  {
    assert ([head] + rest)[1..] == rest;
    hide SameRank;
  }

  lemma {:induction false} RankedSnoc(loc: Collation, ts: seq<Task>, last: Task, t: Task)
    ensures Ranked(loc, ts + [last], t) == Ranked(loc, ts, t) + (if SameRank(loc, last, t) then [last] else [])
  {
    hide SameRank;
    if ts == [] {
      assert [] + [last] == [last] && [last][1..] == [];
    } else {
      var head, rest := ts[0], ts[1..];
      assert ts == [head] + rest && ts + [last] == [head] + (rest + [last]);
      RankedSnoc(loc, rest, last, t);
      RankedCons(loc, head, rest, t);
      RankedCons(loc, head, rest + [last], t);
      hide Ranked;
      var first, end := if SameRank(loc, head, t) then [head] else [], if SameRank(loc, last, t) then [last] else [];
      assert first + (Ranked(loc, rest, t) + end) == (first + Ranked(loc, rest, t)) + end;
    }
  }

  /** Above a task, nothing has its rank. */
  lemma {:induction false} NothingRanked(loc: Collation, ts: seq<Task>, t: Task)
    requires forall x | x in ts :: !SameRank(loc, x, t)
    ensures Ranked(loc, ts, t) == []
  {
    hide SameRank;
    if ts != [] {
      assert ts[0] in ts;
      NothingRanked(loc, ts[1..], t);
    }
  }

  lemma AboveIsNotRanked(loc: Collation, x: Task, y: Task, t: Task)
    requires IsCollation(loc) && CompareTasks(loc, x, y) < 0 && SameRank(loc, x, t)
    ensures forall z | Leq(loc, y, z) :: !SameRank(loc, z, t)
  {
    forall z | Leq(loc, y, z) ensures !SameRank(loc, z, t) {
      CompareIsTotalPreorder(loc, x, y, x);
      if SameRank(loc, z, t) {
        LeqTransitive(loc, z, t, x);
        LeqTransitive(loc, y, z, x);
        assert false;
      }
    }
  }

  lemma InsertedFirst(loc: Collation, sorted: seq<Task>, x: Task, t: Task)
    requires IsCollation(loc) && Sorted(loc, sorted) && sorted != [] && CompareTasks(loc, x, sorted[0]) < 0
    requires SameRank(loc, x, t)
    ensures Ranked(loc, sorted, t) == []
  {
    AboveIsNotRanked(loc, x, sorted[0], t);
    CompareIsTotalPreorder(loc, sorted[0], sorted[0], sorted[0]);
    hide IsCollation, CompareTasks, SameRank;
    forall y | y in sorted ensures Leq(loc, sorted[0], y) {
      var i :| 0 <= i < |sorted| && sorted[i] == y;
      assert i == 0 || Leq(loc, sorted[0], sorted[i]);
    }
    NothingRanked(loc, sorted, t);
  }

  lemma {:induction false} InsertKeepsTies(loc: Collation, sorted: seq<Task>, x: Task, t: Task)
    requires IsCollation(loc) && Sorted(loc, sorted)
    ensures Ranked(loc, InsertTask(loc, sorted, x), t)
            == Ranked(loc, sorted, t) + (if SameRank(loc, x, t) then [x] else [])
  {
    if sorted == [] {
      RankedSnoc(loc, [], x, t);
      assert [] + [x] == [x];
    } else if CompareTasks(loc, x, sorted[0]) < 0 {
      RankedCons(loc, x, sorted, t);
      if SameRank(loc, x, t) {
        InsertedFirst(loc, sorted, x, t);
      }
    } else {
      var head, rest := sorted[0], sorted[1..];
      assert sorted == [head] + rest;
      SortedCons(loc, head, rest);
      assert InsertTask(loc, sorted, x) == [head] + InsertTask(loc, rest, x);
      hide IsCollation, CompareTasks, SameRank, Sorted, InsertTask;
      InsertKeepsTies(loc, rest, x, t);
      RankedCons(loc, head, rest, t);
      RankedCons(loc, head, InsertTask(loc, rest, x), t);
      hide Ranked;
      var first, end := if SameRank(loc, head, t) then [head] else [], if SameRank(loc, x, t) then [x] else [];
      assert first + (Ranked(loc, rest, t) + end) == (first + Ranked(loc, rest, t)) + end;
    }
  }

  lemma {:induction false} SortKeepsTies(loc: Collation, ts: seq<Task>, t: Task)
    requires IsCollation(loc)
    ensures Ranked(loc, SortTasks(loc, ts), t) == Ranked(loc, ts, t)
  {
    if ts != [] {
      var front, last := ts[..|ts| - 1], ts[|ts| - 1];
      SortTasksSnoc(loc, ts);
      SortTasksSorts(loc, front);
      assert ts == front + [last];
      hide SortTasks, InsertTask, IsCollation, Sorted, SameRank;
      SortKeepsTies(loc, front, t);
      InsertKeepsTies(loc, SortTasks(loc, front), last, t);
      RankedSnoc(loc, front, last, t);
    }
  }

  lemma {:induction false} RankedIsMember(loc: Collation, ts: seq<Task>, t: Task)
    requires Ranked(loc, ts, t) != []
    ensures Ranked(loc, ts, t)[0] in ts
  {
    hide SameRank;
    if !SameRank(loc, ts[0], t) {
      assert Ranked(loc, ts, t) == Ranked(loc, ts[1..], t);
      RankedIsMember(loc, ts[1..], t);
    }
  }

  lemma FirstIsRanked(loc: Collation, ts: seq<Task>, t: Task)
    requires ts != [] && SameRank(loc, ts[0], t)
    ensures Ranked(loc, ts, t) != [] && Ranked(loc, ts, t)[0] == ts[0]
  {
    hide SameRank;
  }

  /** Of two ascending lists with the same ties, the first task of one is at most
      that of the other. */
  lemma FirstAtMost(loc: Collation, a: seq<Task>, b: seq<Task>)
    requires IsCollation(loc) && Sorted(loc, a) && a != [] && b != []
    requires Ranked(loc, a, b[0]) == Ranked(loc, b, b[0])
    ensures Leq(loc, a[0], b[0])
  {
    CompareIsTotalPreorder(loc, b[0], b[0], b[0]);
    CompareIsTotalPreorder(loc, a[0], a[0], a[0]);
    FirstIsRanked(loc, b, b[0]);
    hide IsCollation, CompareTasks, SameRank;
    RankedIsMember(loc, a, b[0]);
    hide Ranked;
    var i :| 0 <= i < |a| && a[i] == b[0];
    assert i == 0 || Leq(loc, a[0], a[i]);
  }

  lemma SameFirst(loc: Collation, a: seq<Task>, b: seq<Task>)
    requires IsCollation(loc) && Sorted(loc, a) && Sorted(loc, b) && KeepsTies(loc, a, b)
    ensures a == [] <==> b == []
    ensures a != [] ==> a[0] == b[0]
  {
    hide IsCollation, CompareTasks, Sorted;
    if a == [] && b != [] {
      assert Ranked(loc, b, b[0]) == Ranked(loc, a, b[0]) == [];
      SelfRanked(loc, b);
    } else if b == [] && a != [] {
      assert Ranked(loc, b, a[0]) == Ranked(loc, a, a[0]);
      SelfRanked(loc, a);
    } else if a != [] {
      assert Ranked(loc, b, a[0]) == Ranked(loc, a, a[0]);
      assert Ranked(loc, b, b[0]) == Ranked(loc, a, b[0]);
      FirstAtMost(loc, a, b);
      FirstAtMost(loc, b, a);
      SelfRanked(loc, a);
      FirstIsRanked(loc, b, a[0]);
    }
  }

  lemma SelfRanked(loc: Collation, ts: seq<Task>)
    requires IsCollation(loc) && ts != []
    ensures Ranked(loc, ts, ts[0]) != [] && Ranked(loc, ts, ts[0])[0] == ts[0]
  {
    CompareIsTotalPreorder(loc, ts[0], ts[0], ts[0]);
    hide IsCollation, CompareTasks;
    FirstIsRanked(loc, ts, ts[0]);
  }

  lemma {:induction false} OnlyOneStableOrder(loc: Collation, a: seq<Task>, b: seq<Task>)
    requires IsCollation(loc) && Sorted(loc, a) && Sorted(loc, b) && KeepsTies(loc, a, b)
    ensures a == b
  {
    SameFirst(loc, a, b);
    if a != [] {
      var head, x, y := a[0], a[1..], b[1..];
      assert a == [head] + x && b == [head] + y;
      SortedCons(loc, head, x);
      SortedCons(loc, head, y);
      hide IsCollation, Sorted, SameRank;
      forall t ensures Ranked(loc, y, t) == Ranked(loc, x, t) {
        RankedCons(loc, head, x, t);
        RankedCons(loc, head, y, t);
        assert Ranked(loc, b, t) == Ranked(loc, a, t);
        hide Ranked;
        var first := if SameRank(loc, head, t) then [head] else [];
        assert (first + Ranked(loc, x, t))[|first|..] == Ranked(loc, x, t);
        assert (first + Ranked(loc, y, t))[|first|..] == Ranked(loc, y, t);
      }
      OnlyOneStableOrder(loc, x, y);
    }
  }

  /** What the sort computes is what any stable sort computes. */
  lemma SortIsTheStableSort(loc: Collation, ts: seq<Task>, sorted: seq<Task>)
    requires IsCollation(loc)
    ensures Sorted(loc, sorted) && KeepsTies(loc, ts, sorted) <==> sorted == SortTasks(loc, ts)
  {
    SortTasksSorts(loc, ts);
    hide IsCollation, Sorted, SortTasks, Ranked;
    forall t ensures Ranked(loc, SortTasks(loc, ts), t) == Ranked(loc, ts, t) {
      SortKeepsTies(loc, ts, t);
    }
    if Sorted(loc, sorted) && KeepsTies(loc, ts, sorted) {
      assert KeepsTies(loc, SortTasks(loc, ts), sorted);
      OnlyOneStableOrder(loc, SortTasks(loc, ts), sorted);
    }
  }
}
