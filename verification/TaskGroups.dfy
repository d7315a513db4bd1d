/** Grouping the task list by conversation for the web console. `localeCompare`
    is any comparison that is a total preorder. */
module TaskGroups {
  import opened Text
  import opened Wrappers

  datatype Task = Task(
    taskId: string,
    conversationKey: string,
    status: string,
    executor: string,
    endedAt: Option<string>,
    startedAt: Option<string>,
    queuedAt: Option<string>,
    receivedAt: Option<string>,
    additions: int,
    deletions: int
  )

  type Collation = (string, string) -> int

  ghost predicate IsCollation(loc: Collation) {
    && (forall a, b :: loc(a, b) < 0 <==> loc(b, a) > 0)
    && (forall a, b, c :: loc(a, b) <= 0 && loc(b, c) <= 0 ==> loc(a, c) <= 0)
  }

  predicate IsActive(status: string) {
    status == "RUNNING" || status == "RETRYING" || status == "QUEUED" || status == "VALIDATED" || status == "RECEIVED"
  }

  predicate IsLive(status: string) {
    status == "RUNNING" || status == "RETRYING"
  }

  function StatusPriority(status: string): int {
    if status == "RUNNING" then 0
    else if status == "RETRYING" then 1
    else if status == "QUEUED" then 2
    else if status == "VALIDATED" then 3
    else if status == "RECEIVED" then 4
    else if status == "FAILED" then 5
    else if status == "RETURNED" then 6
    else if status == "CANCELED" then 7
    else if status == "INTERRUPTED" then 8
    else 99
  }

  function SortTimestamp(t: Task): string {
    if t.endedAt.Some? then t.endedAt.value
    else if t.startedAt.Some? then t.startedAt.value
    else if t.queuedAt.Some? then t.queuedAt.value
    else if t.receivedAt.Some? then t.receivedAt.value
    else ""
  }

  function CompareTasks(loc: Collation, a: Task, b: Task): int {
    var aActive, bActive := IsActive(a.status), IsActive(b.status);
    if aActive != bActive then (if aActive then -1 else 1)
    else
      var pa, pb := StatusPriority(a.status), StatusPriority(b.status);
      if aActive && bActive && pa != pb then pa - pb
      else loc(SortTimestamp(b), SortTimestamp(a))
  }

  predicate Leq(loc: Collation, a: Task, b: Task) {
    CompareTasks(loc, a, b) <= 0
  }

  /** The comparator is a total preorder, so sorting by it means something. */
  lemma CompareIsTotalPreorder(loc: Collation, a: Task, b: Task, c: Task)
    requires IsCollation(loc)
    ensures CompareTasks(loc, a, b) < 0 <==> CompareTasks(loc, b, a) > 0
    ensures Leq(loc, a, b) || Leq(loc, b, a)
    ensures Leq(loc, a, b) && Leq(loc, b, c) ==> Leq(loc, a, c)
  {
    hide IsActive, StatusPriority, SortTimestamp;
  }

  // ------------------------------------------------- the library's stable sort

  function InsertTask(loc: Collation, sorted: seq<Task>, t: Task): seq<Task> {
    if sorted == [] then [t]
    else if CompareTasks(loc, t, sorted[0]) < 0 then [t] + sorted
    else [sorted[0]] + InsertTask(loc, sorted[1..], t)
  }

  function SortTasks(loc: Collation, ts: seq<Task>): seq<Task> {
    if ts == [] then [] else InsertTask(loc, SortTasks(loc, ts[..|ts| - 1]), ts[|ts| - 1])
  }

  predicate Sorted(loc: Collation, ts: seq<Task>) {
    forall i, j | 0 <= i < j < |ts| :: Leq(loc, ts[i], ts[j])
  }

  predicate AllAfter(loc: Collation, t: Task, ts: seq<Task>) {
    forall i | 0 <= i < |ts| :: Leq(loc, t, ts[i])
  }

  lemma SortedCons(loc: Collation, t: Task, ts: seq<Task>)
    ensures Sorted(loc, [t] + ts) <==> Sorted(loc, ts) && AllAfter(loc, t, ts)
  {
    hide Leq;
    var all := [t] + ts;
    if Sorted(loc, all) {
      forall i | 0 <= i < |ts| ensures Leq(loc, t, ts[i]) {
        assert Leq(loc, all[0], all[i + 1]);
      }
      forall i, j | 0 <= i < j < |ts| ensures Leq(loc, ts[i], ts[j]) {
        assert Leq(loc, all[i + 1], all[j + 1]);
      }
    }
  }

  lemma {:induction false} InsertTaskSorts(loc: Collation, sorted: seq<Task>, t: Task, low: Task)
    requires IsCollation(loc) && Sorted(loc, sorted)
    ensures Sorted(loc, InsertTask(loc, sorted, t))
    ensures AllAfter(loc, low, sorted) && Leq(loc, low, t) ==> AllAfter(loc, low, InsertTask(loc, sorted, t))
  {
    if sorted != [] {
      var head, rest := sorted[0], sorted[1..];
      assert sorted == [head] + rest;
      SortedCons(loc, head, rest);
      CompareIsTotalPreorder(loc, t, head, head);
      if CompareTasks(loc, t, head) < 0 {
        forall i | 0 <= i < |sorted| ensures Leq(loc, t, sorted[i]) {
          CompareIsTotalPreorder(loc, t, head, sorted[i]);
        }
        SortedCons(loc, t, sorted);
      } else {
        InsertTaskSorts(loc, rest, t, head);
        SortedCons(loc, head, InsertTask(loc, rest, t));
        if AllAfter(loc, low, sorted) && Leq(loc, low, t) {
          assert forall i | 0 <= i < |rest| :: rest[i] == sorted[i + 1];
          InsertTaskSorts(loc, rest, t, low);
        }
      }
    }
    hide CompareTasks, IsCollation;
  }

  lemma {:induction false} InsertTaskPermutes(loc: Collation, sorted: seq<Task>, t: Task)
    ensures multiset(InsertTask(loc, sorted, t)) == multiset(sorted) + multiset{t}
  {
    if sorted != [] {
      InsertTaskPermutes(loc, sorted[1..], t);
      assert sorted == [sorted[0]] + sorted[1..];
    }
    hide CompareTasks;
  }

  lemma SortTasksSnoc(loc: Collation, ts: seq<Task>)
    requires ts != []
    ensures var front, last := ts[..|ts| - 1], ts[|ts| - 1];
            && SortTasks(loc, ts) == InsertTask(loc, SortTasks(loc, front), last)
            && multiset(ts) == multiset(front) + multiset{last}
  {
    assert ts == ts[..|ts| - 1] + [ts[|ts| - 1]];
    hide InsertTask;
  }

  lemma {:induction false} SortTasksPermutes(loc: Collation, ts: seq<Task>)
    ensures multiset(SortTasks(loc, ts)) == multiset(ts)
  {
    if ts != [] {
      SortTasksSnoc(loc, ts);
      hide SortTasks, InsertTask;
      var front, last := ts[..|ts| - 1], ts[|ts| - 1];
      SortTasksPermutes(loc, front);
      InsertTaskPermutes(loc, SortTasks(loc, front), last);
    }
  }

  lemma {:induction false} SortTasksSorts(loc: Collation, ts: seq<Task>)
    requires IsCollation(loc)
    ensures Sorted(loc, SortTasks(loc, ts))
  {
    if ts != [] {
      SortTasksSnoc(loc, ts);
      hide SortTasks, InsertTask, Sorted, IsCollation;
      var front, last := ts[..|ts| - 1], ts[|ts| - 1];
      SortTasksSorts(loc, front);
      InsertTaskSorts(loc, SortTasks(loc, front), last, last);
    }
  }

  lemma SortTasksKeepsLength(loc: Collation, ts: seq<Task>)
    ensures |SortTasks(loc, ts)| == |ts|
  {
    SortTasksPermutes(loc, ts);
    hide SortTasks;
    assert |multiset(SortTasks(loc, ts))| == |SortTasks(loc, ts)| && |multiset(ts)| == |ts|;
  }

  // ------------------------------------------------------------------ groups

  datatype Group = Group(
    key: string,
    tasks: seq<Task>,
    status: string,
    executors: seq<string>,
    latestAt: string,
    additions: int,
    deletions: int,
    liveCount: int
  )

  function KeyOf(t: Task): string {
    if t.conversationKey != "" then t.conversationKey else t.taskId
  }

  datatype Field = Additions | Deletions | Live

  function Weight(t: Task, f: Field): int {
    match f
    case Additions => t.additions
    case Deletions => t.deletions
    case Live => if IsLive(t.status) then 1 else 0
  }

  function Sum(ts: seq<Task>, f: Field): int {
    if ts == [] then 0 else Weight(ts[0], f) + Sum(ts[1..], f)
  }

  /** First occurrences, in order: JavaScript's `Set` and `Map` key order. */
  function Distinct(xs: seq<string>): seq<string> {
    if xs == [] then []
    else
      var front := Distinct(xs[..|xs| - 1]);
      if xs[|xs| - 1] in front then front else front + [xs[|xs| - 1]]
  }

  function KeysOf(ts: seq<Task>): (keys: seq<string>)
    ensures |keys| == |ts|
    ensures forall i | 0 <= i < |ts| :: keys[i] == KeyOf(ts[i])
  {
    seq(|ts|, i requires 0 <= i < |ts| => KeyOf(ts[i]))
  }

  function ExecutorsOf(ts: seq<Task>): (xs: seq<string>)
    ensures |xs| == |ts|
    ensures forall i | 0 <= i < |ts| :: xs[i] == ts[i].executor
  {
    seq(|ts|, i requires 0 <= i < |ts| => ts[i].executor)
  }

  function ForKey(ts: seq<Task>, key: string): seq<Task> {
    if ts == [] then []
    else
      var front := ForKey(ts[..|ts| - 1], key);
      if KeyOf(ts[|ts| - 1]) == key then front + [ts[|ts| - 1]] else front
  }

  function MakeGroup(loc: Collation, key: string, items: seq<Task>): Group {
    var sorted := SortTasks(loc, items);
    Group(key, sorted,
          if sorted == [] then "" else sorted[0].status,
          Distinct(ExecutorsOf(sorted)),
          if sorted == [] then "" else SortTimestamp(sorted[0]),
          Sum(sorted, Additions), Sum(sorted, Deletions), Sum(sorted, Live))
  }

  function MakeGroups(loc: Collation, keys: seq<string>, ts: seq<Task>): seq<Group> {
    if keys == [] then [] else [MakeGroup(loc, keys[0], ForKey(ts, keys[0]))] + MakeGroups(loc, keys[1..], ts)
  }

  predicate HeadLess(loc: Collation, a: Group, b: Group) {
    a.tasks != [] && b.tasks != [] && CompareTasks(loc, a.tasks[0], b.tasks[0]) < 0
  }

  function InsertGroup(loc: Collation, sorted: seq<Group>, g: Group): seq<Group> {
    if sorted == [] then [g]
    else if HeadLess(loc, g, sorted[0]) then [g] + sorted
    else [sorted[0]] + InsertGroup(loc, sorted[1..], g)
  }

  function SortGroups(loc: Collation, gs: seq<Group>): seq<Group> {
    if gs == [] then [] else InsertGroup(loc, SortGroups(loc, gs[..|gs| - 1]), gs[|gs| - 1])
  }

  function GroupsOf(loc: Collation, ts: seq<Task>): seq<Group> {
    SortGroups(loc, MakeGroups(loc, Distinct(KeysOf(ts)), ts))
  }

  /** The map after some tasks: keys in first-seen order, each with its tasks. */
  ghost predicate Filled(order: seq<string>, grouped: map<string, seq<Task>>, ts: seq<Task>) {
    && order == Distinct(KeysOf(ts))
    && (forall k :: k in grouped <==> k in order)
    && (forall k | k in grouped :: grouped[k] == ForKey(ts, k))
    && (forall k | k !in grouped :: ForKey(ts, k) == [])
  }

  lemma ForKeySnoc(ts: seq<Task>, t: Task, k: string)
    ensures ForKey(ts + [t], k) == if KeyOf(t) == k then ForKey(ts, k) + [t] else ForKey(ts, k)
  {
    var all := ts + [t];
    assert all[..|all| - 1] == ts;
    hide KeyOf;
  }

  lemma FillOne(order: seq<string>, grouped: map<string, seq<Task>>, ts: seq<Task>, t: Task)
    requires Filled(order, grouped, ts)
    ensures var key := KeyOf(t);
            Filled(if key in grouped then order else order + [key],
                   grouped[key := (if key in grouped then grouped[key] else []) + [t]], ts + [t])
  {
    hide ForKey, Distinct;
    var key := KeyOf(t);
    var before := if key in grouped then grouped[key] else [];
    assert before == ForKey(ts, key);
    var after := grouped[key := before + [t]];
    var keys := if key in grouped then order else order + [key];
    KeysSnoc(ts, t);
    hide KeyOf, KeysOf;
    assert keys == Distinct(KeysOf(ts + [t]));
    forall k ensures k in after <==> k in keys {
    }
    forall k ensures if k in after then after[k] == ForKey(ts + [t], k) else ForKey(ts + [t], k) == [] {
      ForKeySnoc(ts, t, k);
    }
  }

  /** Fill the map task by task, then build and sort the groups. */
  method GroupTasksByConversation(loc: Collation, tasks: seq<Task>) returns (groups: seq<Group>)
    ensures groups == GroupsOf(loc, tasks)
  {
    var order, grouped := FillGroups(tasks);
    var unsorted := BuildGroups(loc, order, grouped, tasks);
    groups := SortGroups(loc, unsorted);
    assert order == Distinct(KeysOf(tasks));
    hide Distinct, KeysOf, SortGroups, MakeGroups, Filled;
  }

  method FillGroups(tasks: seq<Task>) returns (order: seq<string>, grouped: map<string, seq<Task>>)
    ensures Filled(order, grouped, tasks)
  {
    order, grouped := [], map[];
    for i := 0 to |tasks|
      invariant Filled(order, grouped, tasks[..i])
    {
      var task := tasks[i];
      var key := KeyOf(task);
      FillSoFar(order, grouped, tasks, i);
      hide Filled, KeyOf;
      if key in grouped {
        grouped := grouped[key := grouped[key] + [task]];
      } else {
        order := order + [key];
        grouped := grouped[key := [task]];
      }
    }
    assert tasks[..|tasks|] == tasks;
  }

  lemma FillSoFar(order: seq<string>, grouped: map<string, seq<Task>>, tasks: seq<Task>, i: nat)
    requires i < |tasks| && Filled(order, grouped, tasks[..i])
    ensures var t, key := tasks[i], KeyOf(tasks[i]);
            if key in grouped then Filled(order, grouped[key := grouped[key] + [t]], tasks[..i + 1])
            else Filled(order + [key], grouped[key := [t]], tasks[..i + 1])
  {
    hide KeyOf, Filled;
    FillOne(order, grouped, tasks[..i], tasks[i]);
    assert tasks[..i + 1] == tasks[..i] + [tasks[i]];
    assert [] + [tasks[i]] == [tasks[i]];
  }

  method BuildGroups(loc: Collation, order: seq<string>, grouped: map<string, seq<Task>>, ghost tasks: seq<Task>)
    returns (groups: seq<Group>)
    requires Filled(order, grouped, tasks)
    ensures groups == MakeGroups(loc, order, tasks)
  {
    groups := [];
    assert order[..0] == [];
    for i := 0 to |order|
      invariant groups == MakeGroups(loc, order[..i], tasks)
    {
      BuiltSoFar(loc, order, grouped, tasks, i);
      hide MakeGroup, MakeGroups, Filled;
      groups := groups + [MakeGroup(loc, order[i], grouped[order[i]])];
    }
    assert order[..|order|] == order;
  }

  lemma BuiltSoFar(loc: Collation, order: seq<string>, grouped: map<string, seq<Task>>, tasks: seq<Task>, i: nat)
    requires Filled(order, grouped, tasks) && i < |order|
    ensures order[i] in grouped
    ensures MakeGroups(loc, order[..i + 1], tasks)
            == MakeGroups(loc, order[..i], tasks) + [MakeGroup(loc, order[i], grouped[order[i]])]
  {
    hide MakeGroup, MakeGroups, ForKey, Filled, Distinct;
    FilledAt(order, grouped, tasks, order[i]);
    MakeGroupsSnoc(loc, order[..i], order[i], tasks);
    assert order[..i + 1] == order[..i] + [order[i]];
  }

  lemma FilledAt(order: seq<string>, grouped: map<string, seq<Task>>, ts: seq<Task>, key: string)
    requires Filled(order, grouped, ts) && key in order
    ensures key in grouped && grouped[key] == ForKey(ts, key)
  {
    hide ForKey, Distinct;
  }

  lemma {:induction false} MakeGroupsSnoc(loc: Collation, keys: seq<string>, key: string, ts: seq<Task>)
    ensures MakeGroups(loc, keys + [key], ts) == MakeGroups(loc, keys, ts) + [MakeGroup(loc, key, ForKey(ts, key))]
  {
    hide MakeGroup, ForKey;
    var all := keys + [key];
    if keys == [] {
      assert all == [key] && all[1..] == [];
    } else {
      assert all[0] == keys[0] && all[1..] == keys[1..] + [key];
      MakeGroupsSnoc(loc, keys[1..], key, ts);
    }
  }

  lemma KeysSnoc(ts: seq<Task>, t: Task)
    ensures Distinct(KeysOf(ts + [t])) ==
            if KeyOf(t) in Distinct(KeysOf(ts)) then Distinct(KeysOf(ts)) else Distinct(KeysOf(ts)) + [KeyOf(t)]
  {
    hide KeyOf;
    assert KeysOf(ts + [t]) == KeysOf(ts) + [KeyOf(t)];
    var keys := KeysOf(ts) + [KeyOf(t)];
    assert keys[..|keys| - 1] == KeysOf(ts);
  }

  // ------------------------------------------------------------- properties

  lemma {:induction false} DistinctIsDistinct(xs: seq<string>)
    ensures NoRepeats(Distinct(xs))
    ensures forall x :: x in Distinct(xs) <==> x in xs
  {
    if xs != [] {
      var front, last := xs[..|xs| - 1], xs[|xs| - 1];
      DistinctIsDistinct(front);
      assert xs == front + [last];
    }
  }

  lemma {:induction false} ForKeyCounts(ts: seq<Task>, key: string, t: Task)
    ensures multiset(ForKey(ts, key))[t] == if KeyOf(t) == key then multiset(ts)[t] else 0
    ensures forall x | x in ForKey(ts, key) :: KeyOf(x) == key && x in ts
    ensures (exists x | x in ts :: KeyOf(x) == key) ==> ForKey(ts, key) != []
  {
    hide KeyOf;
    if ts != [] {
      var front, last := ts[..|ts| - 1], ts[|ts| - 1];
      ForKeyCounts(front, key, t);
      assert ts == front + [last];
    }
  }

  function Flatten(gs: seq<Group>): seq<Task> {
    if gs == [] then [] else gs[0].tasks + Flatten(gs[1..])
  }

  lemma FlattenCons(head: Group, rest: seq<Group>)
    ensures multiset(Flatten([head] + rest)) == multiset(head.tasks) + multiset(Flatten(rest))
  {
    assert ([head] + rest)[1..] == rest;
    assert Flatten([head] + rest) == head.tasks + Flatten(rest);
  }

  lemma {:induction false} GroupsPartition(loc: Collation, keys: seq<string>, ts: seq<Task>, t: Task)
    requires NoRepeats(keys)
    ensures multiset(Flatten(MakeGroups(loc, keys, ts)))[t] == if KeyOf(t) in keys then multiset(ts)[t] else 0
  {
    hide KeyOf, ForKey;
    if keys != [] {
      var rest := MakeGroups(loc, keys[1..], ts);
      var head := MakeGroup(loc, keys[0], ForKey(ts, keys[0]));
      assert MakeGroups(loc, keys, ts) == [head] + rest;
      assert head.tasks == SortTasks(loc, ForKey(ts, keys[0]));
      NoRepeatsCons(keys);
      hide MakeGroup, MakeGroups, NoRepeats, SortTasks;
      GroupsPartition(loc, keys[1..], ts, t);
      SortTasksPermutes(loc, ForKey(ts, keys[0]));
      ForKeyCounts(ts, keys[0], t);
      FlattenCons(head, rest);
      hide Flatten;
    }
  }

  lemma {:induction false} InsertGroupPermutes(loc: Collation, sorted: seq<Group>, g: Group)
    ensures multiset(InsertGroup(loc, sorted, g)) == multiset(sorted) + multiset{g}
    ensures multiset(Flatten(InsertGroup(loc, sorted, g))) == multiset(Flatten(sorted)) + multiset(g.tasks)
  {
    hide HeadLess;
    if sorted != [] {
      var head, rest := sorted[0], sorted[1..];
      assert sorted == [head] + rest;
      if HeadLess(loc, g, head) {
        assert ([g] + sorted)[1..] == sorted;
      } else {
        var inner := InsertGroup(loc, rest, g);
        InsertGroupPermutes(loc, rest, g);
        assert ([head] + inner)[1..] == inner;
      }
    } else {
      assert [g][1..] == [];
      assert Flatten([g]) == g.tasks + [];
    }
  }

  lemma {:induction false} FlattenSnoc(gs: seq<Group>, g: Group)
    ensures Flatten(gs + [g]) == Flatten(gs) + g.tasks
  {
    if gs == [] {
      assert [] + [g] == [g] && [g][1..] == [];
    } else {
      assert (gs + [g])[1..] == gs[1..] + [g];
      FlattenSnoc(gs[1..], g);
    }
  }

  lemma SortGroupsSnoc(loc: Collation, gs: seq<Group>)
    requires gs != []
    ensures var front, last := gs[..|gs| - 1], gs[|gs| - 1];
            && SortGroups(loc, gs) == InsertGroup(loc, SortGroups(loc, front), last)
            && multiset(gs) == multiset(front) + multiset{last}
            && multiset(Flatten(gs)) == multiset(Flatten(front)) + multiset(last.tasks)
  {
    var front, last := gs[..|gs| - 1], gs[|gs| - 1];
    assert gs == front + [last];
    FlattenSnoc(front, last);
    hide InsertGroup, Flatten;
  }

  lemma {:induction false} SortGroupsPermutes(loc: Collation, gs: seq<Group>)
    ensures multiset(SortGroups(loc, gs)) == multiset(gs)
    ensures multiset(Flatten(SortGroups(loc, gs))) == multiset(Flatten(gs))
  {
    if gs != [] {
      SortGroupsSnoc(loc, gs);
      hide SortGroups, InsertGroup, Flatten;
      var front, last := gs[..|gs| - 1], gs[|gs| - 1];
      SortGroupsPermutes(loc, front);
      InsertGroupPermutes(loc, SortGroups(loc, front), last);
    }
  }

  predicate HeadsSorted(loc: Collation, gs: seq<Group>) {
    forall i, j | 0 <= i < j < |gs| :: !HeadLess(loc, gs[j], gs[i])
  }

  predicate NoneBefore(loc: Collation, low: Group, gs: seq<Group>) {
    forall i | 0 <= i < |gs| :: !HeadLess(loc, gs[i], low)
  }

  predicate AllNonEmpty(gs: seq<Group>) {
    forall i | 0 <= i < |gs| :: gs[i].tasks != []
  }

  lemma HeadsSortedCons(loc: Collation, g: Group, gs: seq<Group>)
    ensures HeadsSorted(loc, [g] + gs) <==> HeadsSorted(loc, gs) && NoneBefore(loc, g, gs)
  {
    hide HeadLess;
    var all := [g] + gs;
    if HeadsSorted(loc, all) {
      forall i | 0 <= i < |gs| ensures !HeadLess(loc, gs[i], g) {
        assert !HeadLess(loc, all[i + 1], all[0]);
      }
      forall i, j | 0 <= i < j < |gs| ensures !HeadLess(loc, gs[j], gs[i]) {
        assert !HeadLess(loc, all[j + 1], all[i + 1]);
      }
    }
  }

  lemma HeadLessOrders(loc: Collation, a: Group, b: Group, c: Group)
    requires IsCollation(loc) && a.tasks != [] && b.tasks != [] && c.tasks != []
    ensures HeadLess(loc, a, b) ==> !HeadLess(loc, b, a)
    ensures !HeadLess(loc, b, a) && !HeadLess(loc, c, b) ==> !HeadLess(loc, c, a)
  {
    CompareIsTotalPreorder(loc, a.tasks[0], b.tasks[0], c.tasks[0]);
    CompareIsTotalPreorder(loc, c.tasks[0], b.tasks[0], a.tasks[0]);
    CompareIsTotalPreorder(loc, a.tasks[0], c.tasks[0], a.tasks[0]);
    hide CompareTasks, IsCollation;
  }

  lemma NoneBeforeFirst(loc: Collation, sorted: seq<Group>, g: Group)
    requires IsCollation(loc) && HeadsSorted(loc, sorted) && AllNonEmpty(sorted) && g.tasks != []
    requires sorted != [] && HeadLess(loc, g, sorted[0])
    ensures NoneBefore(loc, g, sorted)
  {
    hide IsCollation, HeadLess;
    HeadLessOrders(loc, g, sorted[0], sorted[0]);
    forall i | 0 <= i < |sorted| ensures !HeadLess(loc, sorted[i], g) {
      HeadLessOrders(loc, g, sorted[0], sorted[i]);
    }
  }

  lemma {:induction false} InsertGroupSorts(loc: Collation, sorted: seq<Group>, g: Group, low: Group)
    requires IsCollation(loc) && HeadsSorted(loc, sorted) && AllNonEmpty(sorted) && g.tasks != [] && low.tasks != []
    ensures HeadsSorted(loc, InsertGroup(loc, sorted, g)) && AllNonEmpty(InsertGroup(loc, sorted, g))
    ensures NoneBefore(loc, low, sorted) && !HeadLess(loc, g, low) ==> NoneBefore(loc, low, InsertGroup(loc, sorted, g))
  {
    hide IsCollation, HeadLess;
    if sorted == [] {
    } else {
      var head, rest := sorted[0], sorted[1..];
      assert sorted == [head] + rest;
      assert forall i | 0 <= i < |rest| :: rest[i] == sorted[i + 1];
      HeadsSortedCons(loc, head, rest);
      HeadLessOrders(loc, g, head, head);
      if HeadLess(loc, g, head) {
        NoneBeforeFirst(loc, sorted, g);
        HeadsSortedCons(loc, g, sorted);
        hide HeadsSorted;
      } else {
        InsertGroupSorts(loc, rest, g, head);
        HeadsSortedCons(loc, head, InsertGroup(loc, rest, g));
        hide HeadsSorted;
        if NoneBefore(loc, low, sorted) && !HeadLess(loc, g, low) {
          InsertGroupSorts(loc, rest, g, low);
        }
      }
    }
  }

  lemma {:induction false} SortGroupsSorts(loc: Collation, gs: seq<Group>)
    requires IsCollation(loc) && AllNonEmpty(gs)
    ensures HeadsSorted(loc, SortGroups(loc, gs)) && AllNonEmpty(SortGroups(loc, gs))
  {
    if gs != [] {
      var front, last := gs[..|gs| - 1], gs[|gs| - 1];
      assert AllNonEmpty(front) && last.tasks != [];
      SortGroupsSorts(loc, front);
      InsertGroupSorts(loc, SortGroups(loc, front), last, last);
    }
    hide IsCollation, InsertGroup, HeadsSorted;
  }

  /** What each group built for a key is. */
  lemma {:induction false} MakeGroupsAre(loc: Collation, keys: seq<string>, ts: seq<Task>)
    ensures |MakeGroups(loc, keys, ts)| == |keys|
    ensures forall i | 0 <= i < |keys| :: MakeGroups(loc, keys, ts)[i] == MakeGroup(loc, keys[i], ForKey(ts, keys[i]))
  {
    hide MakeGroup, ForKey;
    if keys != [] {
      MakeGroupsAre(loc, keys[1..], ts);
    }
  }

  /** The total a group shows for a field. */
  function TotalOf(g: Group, f: Field): int {
    match f
    case Additions => g.additions
    case Deletions => g.deletions
    case Live => g.liveCount
  }

  /** A well-made group: its tasks are exactly the tasks of its key, sorted, and
      its totals and labels come from them. */
  ghost predicate WellMade(loc: Collation, g: Group, ts: seq<Task>) {
    && g.tasks != [] && Sorted(loc, g.tasks)
    && multiset(g.tasks) == multiset(ForKey(ts, g.key))
    && g.status == g.tasks[0].status && g.latestAt == SortTimestamp(g.tasks[0])
    && (forall f: Field :: TotalOf(g, f) == Sum(g.tasks, f))
  }

  lemma MakeGroupTotals(loc: Collation, key: string, items: seq<Task>, f: Field)
    ensures TotalOf(MakeGroup(loc, key, items), f) == Sum(SortTasks(loc, items), f)
  {
    hide SortTasks, Sum, Distinct, ExecutorsOf, SortTimestamp;
  }

  lemma MakeGroupHead(loc: Collation, key: string, items: seq<Task>)
    requires items != []
    ensures var g := MakeGroup(loc, key, items);
            && g.key == key && g.tasks == SortTasks(loc, items) != []
            && g.status == g.tasks[0].status && g.latestAt == SortTimestamp(g.tasks[0])
  {
    SortTasksKeepsLength(loc, items);
    hide SortTasks, Sum, Distinct, ExecutorsOf, SortTimestamp;
  }

  lemma MakeGroupIsWellMade(loc: Collation, key: string, ts: seq<Task>, t: Task)
    requires IsCollation(loc) && t in ts && KeyOf(t) == key
    ensures WellMade(loc, MakeGroup(loc, key, ForKey(ts, key)), ts)
  {
    var items := ForKey(ts, key);
    ForKeyCounts(ts, key, t);
    assert items != [];
    hide IsCollation, SortTasks, Sorted, ForKey, Sum, KeyOf, SortTimestamp;
    SortTasksSorts(loc, items);
    SortTasksPermutes(loc, items);
    MakeGroupHead(loc, key, items);
    hide MakeGroup;
    forall f: Field ensures TotalOf(MakeGroup(loc, key, items), f) == Sum(SortTasks(loc, items), f) {
      MakeGroupTotals(loc, key, items, f);
    }
    hide TotalOf;
  }

  function Keys(gs: seq<Group>): (keys: seq<string>)
    ensures |keys| == |gs|
    ensures forall i | 0 <= i < |gs| :: keys[i] == gs[i].key
  {
    seq(|gs|, i requires 0 <= i < |gs| => gs[i].key)
  }

  lemma RowsOfGroups(loc: Collation, ts: seq<Task>)
    ensures multiset(Flatten(MakeGroups(loc, Distinct(KeysOf(ts)), ts))) == multiset(ts)
  {
    var keys := Distinct(KeysOf(ts));
    DistinctIsDistinct(KeysOf(ts));
    hide Distinct, NoRepeats, Flatten, MakeGroups;
    var rows := Flatten(MakeGroups(loc, keys, ts));
    forall t ensures multiset(rows)[t] == multiset(ts)[t] {
      GroupsPartition(loc, keys, ts, t);
      if t in ts {
        var i :| 0 <= i < |ts| && ts[i] == t;
        assert KeysOf(ts)[i] == KeyOf(t);
      }
    }
    hide KeyOf, KeysOf;
    assert multiset(rows) == multiset(ts);
  }

  lemma GroupOfKey(loc: Collation, ts: seq<Task>, key: string)
    requires IsCollation(loc) && key in KeysOf(ts)
    ensures var g := MakeGroup(loc, key, ForKey(ts, key));
            g.key == key && g.tasks != [] && WellMade(loc, g, ts)
  {
    var j :| 0 <= j < |ts| && KeysOf(ts)[j] == key;
    assert ts[j] in ts && KeyOf(ts[j]) == key;
    assert MakeGroup(loc, key, ForKey(ts, key)).key == key;
    hide IsCollation, ForKey, MakeGroup, WellMade, KeyOf, KeysOf;
    MakeGroupIsWellMade(loc, key, ts, ts[j]);
    WellMadeNonEmpty(loc, MakeGroup(loc, key, ForKey(ts, key)), ts);
  }

  /** The unsorted groups: one per key, each well made. */
  lemma UnsortedGroups(loc: Collation, ts: seq<Task>)
    requires IsCollation(loc)
    ensures var gs := MakeGroups(loc, Distinct(KeysOf(ts)), ts);
            && Keys(gs) == Distinct(KeysOf(ts)) && NoRepeats(Keys(gs)) && AllNonEmpty(gs)
            && (forall g | g in gs :: WellMade(loc, g, ts))
            && multiset(Flatten(gs)) == multiset(ts)
  {
    var keys := Distinct(KeysOf(ts));
    var gs := MakeGroups(loc, keys, ts);
    RowsOfGroups(loc, ts);
    DistinctIsDistinct(KeysOf(ts));
    MakeGroupsAre(loc, keys, ts);
    hide IsCollation, Distinct, WellMade, Flatten, MakeGroups, MakeGroup, ForKey, KeyOf, KeysOf, NoRepeats;
    forall i | 0 <= i < |gs| ensures gs[i].key == keys[i] && WellMade(loc, gs[i], ts) && gs[i].tasks != [] {
      assert keys[i] in keys;
      GroupOfKey(loc, ts, keys[i]);
    }
    assert Keys(gs) == keys;
  }

  lemma WellMadeNonEmpty(loc: Collation, g: Group, ts: seq<Task>)
    requires WellMade(loc, g, ts)
    ensures g.tasks != []
  {
  }

  lemma NoRepeatsPermute(a: seq<Group>, b: seq<Group>)
    requires multiset(a) == multiset(b) && NoRepeats(Keys(a))
    ensures NoRepeats(Keys(b))
  {
    assert |multiset(a)| == |a| && |multiset(b)| == |b|;
    KeySetSize(a);
    KeySetSize(b);
    assert KeySet(a) == KeySet(b) by {
      assert forall g :: g in a <==> g in multiset(a);
      assert forall g :: g in b <==> g in multiset(b);
    }
  }

  function KeySet(gs: seq<Group>): set<string> {
    set g | g in gs :: g.key
  }

  lemma {:induction false} KeySetSize(gs: seq<Group>)
    ensures |KeySet(gs)| <= |gs|
    ensures NoRepeats(Keys(gs)) <==> |KeySet(gs)| == |gs|
  {
    if gs != [] {
      var front, last := gs[..|gs| - 1], gs[|gs| - 1];
      KeySetSize(front);
      assert gs == front + [last];
      assert KeySet(gs) == KeySet(front) + {last.key};
      NoRepeatsSnoc(front, last);
    }
  }

  lemma NoRepeatsSnoc(front: seq<Group>, last: Group)
    ensures NoRepeats(Keys(front + [last])) <==> NoRepeats(Keys(front)) && last.key !in KeySet(front)
  {
    var all := front + [last];
    var keys := Keys(all);
    assert forall i | 0 <= i < |front| :: keys[i] == front[i].key && Keys(front)[i] == front[i].key;
    assert keys[|front|] == last.key;
    if last.key in KeySet(front) {
      var g :| g in front && g.key == last.key;
      var i :| 0 <= i < |front| && front[i] == g;
      assert keys[i] == keys[|front|];
    } else {
      assert forall i | 0 <= i < |front| :: front[i] in front && front[i].key in KeySet(front);
    }
  }

  lemma SumWithout(b: seq<Task>, i: nat, f: Field)
    requires i < |b|
    ensures Sum(b, f) == Weight(b[i], f) + Sum(b[..i] + b[i + 1..], f)
  {
    hide Weight;
    var tail := b[i + 1..];
    SumSplits(b[..i], tail, f);
    SumSplits(b[..i], [b[i]] + tail, f);
    assert b == b[..i] + ([b[i]] + tail);
    assert ([b[i]] + tail)[1..] == tail;
  }

  lemma WithoutOne(b: seq<Task>, i: nat)
    requires i < |b|
    ensures multiset(b[..i] + b[i + 1..]) == multiset(b) - multiset{b[i]}
  {
    assert b == b[..i] + [b[i]] + b[i + 1..];
  }

  /** `b` without one occurrence of the first element of `a`. */
  function Withdraw(a: seq<Task>, b: seq<Task>): seq<Task>
    requires a != [] && a[0] in multiset(b)
  {
    var i := IndexOf(b, a[0]);
    b[..i] + b[i + 1..]
  }

  function IndexOf(b: seq<Task>, t: Task): (i: nat)
    requires t in multiset(b)
    ensures i < |b| && b[i] == t
  {
    if b[0] == t then 0 else assert b == [b[0]] + b[1..]; 1 + IndexOf(b[1..], t)
  }

  lemma WithdrawPermutes(a: seq<Task>, b: seq<Task>)
    requires a != [] && multiset(a) == multiset(b)
    ensures a[0] in multiset(b)
    ensures multiset(Withdraw(a, b)) == multiset(a[1..])
  {
    assert a[0] in multiset(a);
    var i := IndexOf(b, a[0]);
    assert Withdraw(a, b) == b[..i] + b[i + 1..];
    hide IndexOf, Withdraw;
    WithoutOne(b, i);
    FirstTakenOut(a);
  }

  lemma FirstTakenOut(a: seq<Task>)
    requires a != []
    ensures multiset(a[1..]) == multiset(a) - multiset{a[0]}
  {
    assert a == [a[0]] + a[1..];
  }

  lemma WithdrawKeepsSum(a: seq<Task>, b: seq<Task>, f: Field)
    requires a != [] && a[0] in multiset(b)
    ensures Sum(b, f) == Weight(a[0], f) + Sum(Withdraw(a, b), f)
  {
    hide IndexOf;
    SumWithout(b, IndexOf(b, a[0]), f);
    hide Sum, Weight;
  }

  /** Sums depend on the tasks only, not on their order. */
  lemma {:induction false} SumPermutes(a: seq<Task>, b: seq<Task>, f: Field)
    requires multiset(a) == multiset(b)
    ensures Sum(a, f) == Sum(b, f)
  {
    hide Weight;
    if a == [] {
      assert |multiset(b)| == |b|;
    } else {
      WithdrawPermutes(a, b);
      WithdrawKeepsSum(a, b, f);
      hide Withdraw;
      SumPermutes(a[1..], Withdraw(a, b), f);
    }
  }

  lemma {:induction false} SumSplits(a: seq<Task>, b: seq<Task>, f: Field)
    ensures Sum(a + b, f) == Sum(a, f) + Sum(b, f)
  {
    hide Weight;
    if a == [] {
      assert a + b == b;
    } else {
      assert (a + b)[0] == a[0] && (a + b)[1..] == a[1..] + b;
      SumSplits(a[1..], b, f);
    }
  }

  function Total(gs: seq<Group>, f: Field): int {
    if gs == [] then 0
    else TotalOf(gs[0], f) + Total(gs[1..], f)
  }

  lemma {:induction false} TotalIsSum(loc: Collation, gs: seq<Group>, ts: seq<Task>, f: Field)
    requires forall g | g in gs :: WellMade(loc, g, ts)
    ensures Total(gs, f) == Sum(Flatten(gs), f)
  {
    if gs != [] {
      assert WellMade(loc, gs[0], ts);
      TotalIsSum(loc, gs[1..], ts, f);
      SumSplits(gs[0].tasks, Flatten(gs[1..]), f);
    }
    hide Sum, Sorted, ForKey;
  }

  /** The list shown is a sorted partition of the tasks: flattening it permutes
      the input, keys are distinct, every group is well made, group heads ascend,
      and additions, deletions and live counts are conserved. */
  lemma GroupingIsASortedPartition(loc: Collation, ts: seq<Task>, f: Field)
    requires IsCollation(loc)
    ensures var gs := GroupsOf(loc, ts);
            && multiset(Flatten(gs)) == multiset(ts)
            && NoRepeats(Keys(gs))
            && (forall g | g in gs :: WellMade(loc, g, ts))
            && HeadsSorted(loc, gs) && AllNonEmpty(gs)
            && Total(gs, f) == Sum(ts, f)
  {
    ShownGroups(loc, ts);
    var gs := GroupsOf(loc, ts);
    hide IsCollation, GroupsOf, WellMade, Flatten, HeadsSorted, AllNonEmpty, NoRepeats, Sum, Total;
    TotalIsSum(loc, gs, ts, f);
    SumPermutes(Flatten(gs), ts, f);
  }

  lemma ShownGroups(loc: Collation, ts: seq<Task>)
    requires IsCollation(loc)
    ensures var gs := GroupsOf(loc, ts);
            && multiset(Flatten(gs)) == multiset(ts)
            && NoRepeats(Keys(gs))
            && (forall g | g in gs :: WellMade(loc, g, ts))
            && HeadsSorted(loc, gs) && AllNonEmpty(gs)
  {
    var unsorted := MakeGroups(loc, Distinct(KeysOf(ts)), ts);
    UnsortedGroups(loc, ts);
    hide IsCollation, MakeGroups, SortGroups, WellMade, Flatten, HeadsSorted, AllNonEmpty, Distinct, NoRepeats, Keys;
    var gs := SortGroups(loc, unsorted);
    SortGroupsPermutes(loc, unsorted);
    SortGroupsSorts(loc, unsorted);
    NoRepeatsPermute(unsorted, gs);
    forall g | g in gs ensures WellMade(loc, g, ts) {
      assert g in multiset(gs);
      assert g in multiset(unsorted);
    }
  }

  lemma HeadIsLeast(loc: Collation, g: Group, ts: seq<Task>, t: Task)
    requires IsCollation(loc) && WellMade(loc, g, ts) && t in g.tasks
    ensures Leq(loc, g.tasks[0], t)
  {
    CompareIsTotalPreorder(loc, g.tasks[0], g.tasks[0], t);
    hide IsCollation, CompareTasks, ForKey, Sum;
    var j :| 0 <= j < |g.tasks| && g.tasks[j] == t;
    assert j == 0 || Leq(loc, g.tasks[0], t);
  }

  lemma FirstHeadIsLeast(loc: Collation, gs: seq<Group>, i: nat)
    requires IsCollation(loc) && HeadsSorted(loc, gs) && AllNonEmpty(gs) && i < |gs|
    ensures gs[0].tasks != [] && gs[i].tasks != [] && Leq(loc, gs[0].tasks[0], gs[i].tasks[0])
  {
    CompareIsTotalPreorder(loc, gs[0].tasks[0], gs[i].tasks[0], gs[0].tasks[0]);
    hide IsCollation, CompareTasks;
    assert i == 0 || !HeadLess(loc, gs[i], gs[0]);
  }

  /** The first row of the first group is minimal among all tasks. */
  lemma FirstHeadIsMinimal(loc: Collation, ts: seq<Task>, t: Task)
    requires IsCollation(loc) && t in ts
    ensures var gs := GroupsOf(loc, ts);
            gs != [] && gs[0].tasks != [] && Leq(loc, gs[0].tasks[0], t)
  {
    var gs := GroupsOf(loc, ts);
    ShownGroups(loc, ts);
    hide GroupsOf, IsCollation, Leq, WellMade, HeadsSorted, AllNonEmpty, NoRepeats, Flatten, Keys;
    assert t in multiset(ts);
    assert t in Flatten(gs);
    var i := GroupHolding(gs, t);
    assert gs[i] in gs;
    HeadIsLeast(loc, gs[i], ts, t);
    FirstHeadIsLeast(loc, gs, i);
    LeqTransitive(loc, gs[0].tasks[0], gs[i].tasks[0], t);
  }

  lemma LeqTransitive(loc: Collation, a: Task, b: Task, c: Task)
    requires IsCollation(loc) && Leq(loc, a, b) && Leq(loc, b, c)
    ensures Leq(loc, a, c)
  {
    CompareIsTotalPreorder(loc, a, b, c);
    hide IsCollation, CompareTasks;
  }

  lemma {:induction false} GroupHolding(gs: seq<Group>, t: Task) returns (i: nat)
    requires t in Flatten(gs)
    ensures i < |gs| && t in gs[i].tasks
  {
    if t in gs[0].tasks {
      i := 0;
    } else {
      var k := GroupHolding(gs[1..], t);
      i := k + 1;
    }
  }
}
