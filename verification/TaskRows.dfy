/** What the grouped list shows, told from the tasks' own fields: in which order rows
    and groups come, and what a group's summary says about its tasks. */
module TaskRows {
  import opened Text
  import opened Wrappers
  import opened TaskGroups

  /** The active statuses, most urgent first. */
  const ACTIVE: seq<string> := ["RUNNING", "RETRYING", "QUEUED", "VALIDATED", "RECEIVED"]

  /** The first of the stamps that is there. */
  function FirstStamp(stamps: seq<Option<string>>): string {
    if stamps == [] then "" else if stamps[0].Some? then stamps[0].value else FirstStamp(stamps[1..])
  }

  /** When a task ended, else started, else was queued, else received. */
  function TimeOf(t: Task): string {
    FirstStamp([t.endedAt, t.startedAt, t.queuedAt, t.receivedAt])
  }

  /** `a` may stand before `b`: no inactive task before an active one, active ones by
      status, and otherwise no earlier time before a later one. */
  predicate MayPrecede(loc: Collation, a: Task, b: Task) {
    && (a.status !in ACTIVE ==> b.status !in ACTIVE)
    && (forall i, j | 0 <= i < |ACTIVE| && 0 <= j < |ACTIVE| && a.status == ACTIVE[i] && b.status == ACTIVE[j] ::
          i <= j)
    && (a.status == b.status || (a.status !in ACTIVE && b.status !in ACTIVE) ==> !(loc(TimeOf(a), TimeOf(b)) < 0))
  }

  lemma TimesAgree(t: Task)
    ensures TimeOf(t) == SortTimestamp(t)
  {
    assert [t.endedAt, t.startedAt, t.queuedAt, t.receivedAt] == [t.endedAt] + [t.startedAt, t.queuedAt, t.receivedAt];
    assert [t.startedAt, t.queuedAt, t.receivedAt] == [t.startedAt] + [t.queuedAt, t.receivedAt];
    assert [t.queuedAt, t.receivedAt] == [t.queuedAt] + [t.receivedAt] && [t.receivedAt] + [] == [t.receivedAt];
    FirstStampCons(t.endedAt, [t.startedAt, t.queuedAt, t.receivedAt]);
    FirstStampCons(t.startedAt, [t.queuedAt, t.receivedAt]);
    FirstStampCons(t.queuedAt, [t.receivedAt]);
    FirstStampCons(t.receivedAt, []);
  }

  lemma FirstStampCons(stamp: Option<string>, rest: seq<Option<string>>)
    ensures FirstStamp([stamp] + rest) == if stamp.Some? then stamp.value else FirstStamp(rest)
  {
    assert ([stamp] + rest)[1..] == rest;
  }

  lemma ActiveOnes(status: string)
    ensures status in ACTIVE <==> IsActive(status)
    ensures forall i | 0 <= i < |ACTIVE| && status == ACTIVE[i] :: StatusPriority(status) == i
  {
  }

  lemma LeqMayPrecede(loc: Collation, a: Task, b: Task)
    requires IsCollation(loc) && Leq(loc, a, b)
    ensures MayPrecede(loc, a, b)
  {
    TimesAgree(a);
    TimesAgree(b);
    ActiveOnes(a.status);
    ActiveOnes(b.status);
    hide TimeOf, SortTimestamp, IsActive, StatusPriority;
    assert loc(SortTimestamp(b), SortTimestamp(a)) <= 0 ==> !(loc(SortTimestamp(a), SortTimestamp(b)) < 0);
  }

  /** The rows of every group, and the groups by their first rows, come in that order. */
  lemma RowsComeInOrder(loc: Collation, ts: seq<Task>)
    requires IsCollation(loc)
    ensures var gs := GroupsOf(loc, ts);
            && (forall g, i, j | g in gs && 0 <= i < j < |g.tasks| :: MayPrecede(loc, g.tasks[i], g.tasks[j]))
            && (forall g | g in gs :: g.tasks != [])
            && forall i, j | 0 <= i < j < |gs| :: MayPrecede(loc, gs[i].tasks[0], gs[j].tasks[0])
  {
    var gs := GroupsOf(loc, ts);
    ShownGroups(loc, ts);
    hide GroupsOf, IsCollation, Leq, MayPrecede, Flatten, NoRepeats, Keys, CompareTasks;
    forall g | g in gs ensures g.tasks != [] && Sorted(loc, g.tasks) {
      assert WellMade(loc, g, ts);
    }
    forall g, i, j | g in gs && 0 <= i < j < |g.tasks| ensures MayPrecede(loc, g.tasks[i], g.tasks[j]) {
      assert Sorted(loc, g.tasks);
      LeqMayPrecede(loc, g.tasks[i], g.tasks[j]);
    }
    hide WellMade, Sorted;
    forall i, j | 0 <= i < j < |gs| ensures MayPrecede(loc, gs[i].tasks[0], gs[j].tasks[0]) {
      HeadsInOrder(loc, gs, i, j);
      LeqMayPrecede(loc, gs[i].tasks[0], gs[j].tasks[0]);
    }
  }

  lemma HeadsInOrder(loc: Collation, gs: seq<Group>, i: nat, j: nat)
    requires IsCollation(loc) && HeadsSorted(loc, gs) && AllNonEmpty(gs) && i < j < |gs|
    ensures gs[i].tasks != [] && gs[j].tasks != [] && Leq(loc, gs[i].tasks[0], gs[j].tasks[0])
  {
    assert !HeadLess(loc, gs[j], gs[i]);
    CompareIsTotalPreorder(loc, gs[i].tasks[0], gs[j].tasks[0], gs[i].tasks[0]);
    hide IsCollation, CompareTasks;
  }

  // ------------------------------------------------------------ a group's summary

  function Added(ts: seq<Task>): int {
    if ts == [] then 0 else ts[0].additions + Added(ts[1..])
  }

  function Removed(ts: seq<Task>): int {
    if ts == [] then 0 else ts[0].deletions + Removed(ts[1..])
  }

  function LivePlaces(ts: seq<Task>): set<nat> {
    set i: nat | i < |ts| && ts[i].status in {"RUNNING", "RETRYING"}
  }

  lemma {:induction false} SumsAre(ts: seq<Task>)
    ensures Sum(ts, Additions) == Added(ts) && Sum(ts, Deletions) == Removed(ts)
    ensures Sum(ts, Live) == |LivePlaces(ts)|
  {
    if ts == [] {
      assert LivePlaces(ts) == {};
    } else {
      SumsAre(ts[1..]);
      Shifted(ts);
    }
  }

  function ShiftedUp(places: set<nat>): set<nat> {
    set i: nat | i in places :: i + 1
  }

  lemma LivePlacesSplit(ts: seq<Task>, i: nat)
    requires ts != []
    ensures i in LivePlaces(ts) <==> if i == 0 then ts[0].status in {"RUNNING", "RETRYING"}
                                     else i - 1 in LivePlaces(ts[1..])
    ensures i in ShiftedUp(LivePlaces(ts[1..])) <==> i > 0 && i - 1 in LivePlaces(ts[1..])
  {
  }

  lemma Shifted(ts: seq<Task>)
    requires ts != []
    ensures |LivePlaces(ts)| == (if ts[0].status in {"RUNNING", "RETRYING"} then 1 else 0) + |LivePlaces(ts[1..])|
  {
    var rest := LivePlaces(ts[1..]);
    var first: set<nat> := if ts[0].status in {"RUNNING", "RETRYING"} then {0} else {};
    SameSize(rest);
    forall i: nat ensures i in LivePlaces(ts) <==> i in first + ShiftedUp(rest) {
      LivePlacesSplit(ts, i);
    }
    LivePlacesSplit(ts, 0);
    hide LivePlaces, ShiftedUp;
    assert LivePlaces(ts) == first + ShiftedUp(rest) && first !! ShiftedUp(rest);
  }

  lemma {:induction false} SameSize(places: set<nat>)
    ensures |ShiftedUp(places)| == |places|
    decreases places
  {
    if places != {} {
      var x :| x in places;
      SameSize(places - {x});
      forall k: nat ensures k in ShiftedUp(places) <==> k in ShiftedUp(places - {x}) + {x + 1} {
        if k in ShiftedUp(places) {
          assert k - 1 == x || k - 1 in places - {x};
        }
      }
      assert ShiftedUp(places) == ShiftedUp(places - {x}) + {x + 1} && x + 1 !in ShiftedUp(places - {x});
    }
  }

  /** `x` is met before `y` in the tasks' executors. */
  predicate MetBefore(ts: seq<Task>, x: string, y: string) {
    exists k | 0 <= k < |ts| :: ts[k].executor == x && forall m | 0 <= m <= k :: ts[m].executor != y
  }

  /** What a group says of its tasks, from their fields. */
  ghost predicate Summarizes(g: Group) {
    && g.tasks != []
    && (forall t | t in g.tasks :: g.key == if t.conversationKey == "" then t.taskId else t.conversationKey)
    && g.status == g.tasks[0].status && g.latestAt == TimeOf(g.tasks[0])
    && g.additions == Added(g.tasks) && g.deletions == Removed(g.tasks) && g.liveCount == |LivePlaces(g.tasks)|
    && NoRepeats(g.executors)
    && (forall x :: x in g.executors <==> exists t | t in g.tasks :: t.executor == x)
    && forall i, j | 0 <= i < j < |g.executors| :: MetBefore(g.tasks, g.executors[i], g.executors[j])
  }

  /** `x` is met before `y` in a list of names. */
  predicate NamedBefore(xs: seq<string>, x: string, y: string) {
    exists k | 0 <= k < |xs| :: xs[k] == x && y !in xs[..k + 1]
  }

  lemma {:induction false} DistinctInOrder(xs: seq<string>, i: nat, j: nat)
    requires i < j < |Distinct(xs)|
    ensures NamedBefore(xs, Distinct(xs)[i], Distinct(xs)[j])
  {
    var front, last := xs[..|xs| - 1], xs[|xs| - 1];
    var d := Distinct(front);
    assert xs == front + [last];
    var x, y := Distinct(xs)[i], Distinct(xs)[j];
    if j < |d| {
      DistinctInOrder(front, i, j);
      var k :| 0 <= k < |front| && front[k] == x && y !in front[..k + 1];
      assert xs[..k + 1] == front[..k + 1] && xs[k] == x;
    } else {
      DistinctIsDistinct(front);
      assert Distinct(xs) == d + [last] && x == d[i] && y == last;
      assert x in d;
      var k :| 0 <= k < |front| && front[k] == x;
      assert y !in front;
      assert forall z | z in xs[..k + 1] :: z in front;
      assert xs[k] == x;
    }
  }

  lemma ExecutorsShown(ts: seq<Task>, xs: seq<string>)
    requires xs == Distinct(ExecutorsOf(ts))
    ensures NoRepeats(xs)
    ensures forall x :: x in xs <==> exists t | t in ts :: t.executor == x
    ensures forall i, j | 0 <= i < j < |xs| :: MetBefore(ts, xs[i], xs[j])
  {
    var names := ExecutorsOf(ts);
    DistinctIsDistinct(names);
    hide Distinct, NoRepeats;
    forall x ensures x in xs <==> exists t | t in ts :: t.executor == x {
      if x in names {
        var k :| 0 <= k < |names| && names[k] == x;
        assert ts[k] in ts && ts[k].executor == x;
      }
      if t :| t in ts && t.executor == x {
        var k :| 0 <= k < |ts| && ts[k] == t;
        assert names[k] == x;
      }
    }
    forall i, j | 0 <= i < j < |xs| ensures MetBefore(ts, xs[i], xs[j]) {
      DistinctInOrder(names, i, j);
      var k :| 0 <= k < |names| && names[k] == xs[i] && xs[j] !in names[..k + 1];
      forall m | 0 <= m <= k ensures ts[m].executor != xs[j] {
        assert names[..k + 1][m] == names[m];
      }
      assert ts[k].executor == xs[i];
    }
  }

  lemma MadeGroupSummarizes(loc: Collation, key: string, ts: seq<Task>)
    requires ForKey(ts, key) != []
    ensures Summarizes(MakeGroup(loc, key, ForKey(ts, key)))
  {
    var items := ForKey(ts, key);
    var g := MakeGroup(loc, key, items);
    MadeGroupFields(loc, key, items);
    KeyOfGroup(loc, key, ts);
    hide MakeGroup, SortTasks, ForKey, TimeOf, SortTimestamp, Sum, Added, Removed, LivePlaces, Distinct, NoRepeats;
    hide MetBefore;
    TimesAgree(g.tasks[0]);
    SumsAre(g.tasks);
    ExecutorsShown(g.tasks, g.executors);
  }

  lemma MadeGroupFields(loc: Collation, key: string, items: seq<Task>)
    requires items != []
    ensures var g := MakeGroup(loc, key, items);
            && g.key == key && g.tasks == SortTasks(loc, items) != []
            && g.status == g.tasks[0].status && g.latestAt == SortTimestamp(g.tasks[0])
            && g.executors == Distinct(ExecutorsOf(g.tasks))
            && g.additions == Sum(g.tasks, Additions) && g.deletions == Sum(g.tasks, Deletions)
            && g.liveCount == Sum(g.tasks, Live)
  {
    MakeGroupHead(loc, key, items);
    hide SortTasks, Sum, Distinct, ExecutorsOf, SortTimestamp;
  }

  lemma KeyOfGroup(loc: Collation, key: string, ts: seq<Task>)
    ensures forall t | t in SortTasks(loc, ForKey(ts, key)) ::
              key == if t.conversationKey == "" then t.taskId else t.conversationKey
  {
    var items := ForKey(ts, key);
    SortTasksPermutes(loc, items);
    hide SortTasks, ForKey;
    forall t | t in SortTasks(loc, items) ensures KeyOf(t) == key {
      assert t in multiset(SortTasks(loc, items));
      assert t in multiset(items);
      ForKeyCounts(ts, key, t);
    }
  }

  lemma MadeGroupsSummarize(loc: Collation, ts: seq<Task>)
    ensures forall g | g in MakeGroups(loc, Distinct(KeysOf(ts)), ts) :: Summarizes(g)
  {
    var keys := Distinct(KeysOf(ts));
    var unsorted := MakeGroups(loc, keys, ts);
    MakeGroupsAre(loc, keys, ts);
    DistinctIsDistinct(KeysOf(ts));
    hide *;
    forall g | g in unsorted ensures Summarizes(g) {
      var i :| 0 <= i < |unsorted| && unsorted[i] == g;
      KeyIsUsed(ts, keys[i]);
      MadeGroupSummarizes(loc, keys[i], ts);
    }
  }

  /** Every group shown summarises its tasks, and is the only one with its key. */
  lemma GroupsSummarize(loc: Collation, ts: seq<Task>)
    requires IsCollation(loc)
    ensures var gs := GroupsOf(loc, ts);
            && (forall g | g in gs :: Summarizes(g))
            && forall i, j | 0 <= i < j < |gs| :: gs[i].key != gs[j].key
  {
    var gs := GroupsOf(loc, ts);
    assert gs == SortGroups(loc, MakeGroups(loc, Distinct(KeysOf(ts)), ts));
    ShownGroups(loc, ts);
    assert forall i, j | 0 <= i < j < |gs| :: Keys(gs)[i] != Keys(gs)[j];
    hide *;
    SortGroupsPermutes(loc, MakeGroups(loc, Distinct(KeysOf(ts)), ts));
    MadeGroupsSummarize(loc, ts);
    forall g | g in gs ensures Summarizes(g) {
      assert g in multiset(gs);
    }
  }

  lemma KeyIsUsed(ts: seq<Task>, key: string)
    requires key in KeysOf(ts)
    ensures ForKey(ts, key) != []
  {
    var j :| 0 <= j < |ts| && KeysOf(ts)[j] == key;
    assert ts[j] in ts && KeyOf(ts[j]) == key;
    ForKeyCounts(ts, key, ts[j]);
    hide ForKey, KeyOf;
  }
}
