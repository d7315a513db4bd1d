/** The peek callout's row cap: past it the least urgent rows are dropped and the
    rest keep their order. The library sort is any ascending rearrangement. */
module PeekTrim {
  import opened Wrappers
  import opened QuotaWindows
  import opened QuotaPools

  const MAX_ROWS: nat := 4

  datatype Row = Row(id: string, snapshot: Option<Snapshot>, uncapped: bool)

  datatype Section = Section(id: string, title: Option<string>, rows: seq<Row>)

  datatype Urgency = Finite(value: real) | Greatest

  function UrgencyOf(r: Row): Urgency {
    if r.uncapped || r.snapshot.None? then Greatest
    else Finite(if Depleted(r.snapshot.value) then -1.0 else r.snapshot.value.remaining)
  }

  predicate AtMost(a: Urgency, b: Urgency) {
    b.Greatest? || (a.Finite? && a.value <= b.value)
  }

  function Flatten(sections: seq<Section>): seq<Row> {
    if sections == [] then [] else sections[0].rows + Flatten(sections[1..])
  }

  function Ids(rows: seq<Row>): set<string> {
    set r | r in rows :: r.id
  }

  function OnlyIds(rows: seq<Row>, keep: set<string>): seq<Row> {
    if rows == [] then []
    else (if rows[0].id in keep then [rows[0]] else []) + OnlyIds(rows[1..], keep)
  }

  function OnlySections(sections: seq<Section>, keep: set<string>): seq<Section> {
    if sections == [] then []
    else
      var rows := OnlyIds(sections[0].rows, keep);
      (if rows == [] then [] else [sections[0].(rows := rows)]) + OnlySections(sections[1..], keep)
  }

  /** `sorted` is some rearrangement of `rows` with ascending urgency. */
  predicate IsSorting(rows: seq<Row>, sorted: seq<Row>) {
    && multiset(rows) == multiset(sorted)
    && forall i, j | 0 <= i < j < |sorted| :: AtMost(UrgencyOf(sorted[i]), UrgencyOf(sorted[j]))
  }

  /** `trimmed`, given the order the library sort produced. */
  function Capped(sections: seq<Section>, sorted: seq<Row>): seq<Section>
    requires IsSorting(Flatten(sections), sorted)
  {
    SameLength(Flatten(sections), sorted);
    if |Flatten(sections)| <= MAX_ROWS then sections
    else OnlySections(sections, Ids(sorted[..MAX_ROWS]))
  }

  lemma SameLength(a: seq<Row>, b: seq<Row>)
    requires multiset(a) == multiset(b)
    ensures |a| == |b|
  {
    assert |multiset(a)| == |a| && |multiset(b)| == |b|;
  }

  // ------------------------------------------------------------ properties

  predicate Subsequence(a: seq<Row>, b: seq<Row>) {
    a == [] || (b != [] && if a[0] == b[0] then Subsequence(a[1..], b[1..]) else Subsequence(a, b[1..]))
  }

  predicate UniqueIds(rows: seq<Row>) {
    forall i, j | 0 <= i < j < |rows| :: rows[i].id != rows[j].id
  }

  lemma {:induction false} OnlyIdsConcat(a: seq<Row>, b: seq<Row>, keep: set<string>)
    ensures OnlyIds(a + b, keep) == OnlyIds(a, keep) + OnlyIds(b, keep)
  {
    if a == [] {
      assert a + b == b;
    } else {
      assert (a + b)[0] == a[0] && (a + b)[1..] == a[1..] + b;
      OnlyIdsConcat(a[1..], b, keep);
      var first := if a[0].id in keep then [a[0]] else [];
      assert first + (OnlyIds(a[1..], keep) + OnlyIds(b, keep)) == (first + OnlyIds(a[1..], keep)) + OnlyIds(b, keep);
    }
  }

  lemma {:induction false} OnlyIdsAll(rows: seq<Row>, keep: set<string>)
    requires forall r | r in rows :: r.id in keep
    ensures OnlyIds(rows, keep) == rows
  {
    if rows != [] {
      OnlyIdsAll(rows[1..], keep);
      assert rows == [rows[0]] + rows[1..];
    }
  }

  lemma {:induction false} OnlyIdsMembers(rows: seq<Row>, keep: set<string>)
    ensures forall r :: r in OnlyIds(rows, keep) <==> r in rows && r.id in keep
    ensures OnlyIds(rows, keep) == [] <==> forall r | r in rows :: r.id !in keep
  {
    if rows != [] {
      OnlyIdsMembers(rows[1..], keep);
      assert forall r :: r in rows <==> r == rows[0] || r in rows[1..];
      if rows[0].id in keep {
        assert OnlyIds(rows, keep)[0] == rows[0];
      }
    }
  }

  lemma {:induction false} OnlyIdsCounts(rows: seq<Row>, keep: set<string>, r: Row)
    ensures multiset(OnlyIds(rows, keep))[r] == if r.id in keep then multiset(rows)[r] else 0
  {
    if rows != [] {
      OnlyIdsCounts(rows[1..], keep, r);
      assert rows == [rows[0]] + rows[1..];
      assert multiset(rows) == multiset{rows[0]} + multiset(rows[1..]);
    }
  }

  lemma {:induction false} OnlyIdsInOrder(rows: seq<Row>, keep: set<string>)
    ensures Subsequence(OnlyIds(rows, keep), rows)
  {
    if rows != [] {
      var rest := OnlyIds(rows[1..], keep);
      OnlyIdsInOrder(rows[1..], keep);
      if rows[0].id in keep {
        assert ([rows[0]] + rest)[1..] == rest;
      } else {
        OnlyIdsMembers(rows[1..], keep);
        assert forall r | r in rest :: r != rows[0];
        assert rest == [] || rest[0] in rest;
        assert OnlyIds(rows, keep) == rest;
      }
    }
  }

  /** Filtering section by section is filtering the whole list. */
  lemma {:induction false} OnlySectionsFlatten(sections: seq<Section>, keep: set<string>)
    ensures Flatten(OnlySections(sections, keep)) == OnlyIds(Flatten(sections), keep)
    ensures forall s | s in OnlySections(sections, keep) :: s.rows != []
  {
    if sections != [] {
      var rows, rest := OnlyIds(sections[0].rows, keep), OnlySections(sections[1..], keep);
      OnlySectionsFlatten(sections[1..], keep);
      OnlyIdsConcat(sections[0].rows, Flatten(sections[1..]), keep);
      if rows == [] {
        assert OnlySections(sections, keep) == rest;
      } else {
        var head := sections[0].(rows := rows);
        assert ([head] + rest)[1..] == rest;
      }
    }
  }

  lemma {:induction false} UniqueIffFullIdSet(rows: seq<Row>)
    ensures |Ids(rows)| <= |rows|
    ensures UniqueIds(rows) <==> |Ids(rows)| == |rows|
  {
    if rows != [] {
      var head, rest := rows[0], rows[1..];
      UniqueIffFullIdSet(rest);
      assert forall r :: r in rows <==> r == head || r in rest;
      assert Ids(rows) == Ids(rest) + {head.id};
      UniqueHead(rows);
    }
  }

  lemma UniqueHead(rows: seq<Row>)
    requires rows != []
    ensures UniqueIds(rows) <==> UniqueIds(rows[1..]) && rows[0].id !in Ids(rows[1..])
  {
    var rest := rows[1..];
    if UniqueIds(rows) {
      assert forall i | 0 <= i < |rest| :: rest[i] == rows[i + 1];
    } else if UniqueIds(rest) && rows[0].id !in Ids(rest) {
      forall i, j | 0 <= i < j < |rows| ensures rows[i].id != rows[j].id {
        assert rows[j] == rest[j - 1];
        if i > 0 {
          assert rows[i] == rest[i - 1];
        } else {
          assert rest[j - 1] in rest;
        }
      }
      assert false;
    }
  }

  lemma UniqueSurvivesSorting(rows: seq<Row>, sorted: seq<Row>)
    requires UniqueIds(rows) && multiset(rows) == multiset(sorted)
    ensures UniqueIds(sorted)
  {
    SameLength(rows, sorted);
    assert Ids(rows) == Ids(sorted) by {
      assert forall r :: r in rows <==> r in multiset(rows);
      assert forall r :: r in sorted <==> r in multiset(sorted);
    }
    UniqueIffFullIdSet(rows);
    UniqueIffFullIdSet(sorted);
  }

  lemma OnlyIdsPermute(a: seq<Row>, b: seq<Row>, keep: set<string>)
    requires multiset(a) == multiset(b)
    ensures |OnlyIds(a, keep)| == |OnlyIds(b, keep)|
  {
    forall r ensures multiset(OnlyIds(a, keep))[r] == multiset(OnlyIds(b, keep))[r] {
      OnlyIdsCounts(a, keep, r);
      OnlyIdsCounts(b, keep, r);
    }
    hide OnlyIds;
    assert multiset(OnlyIds(a, keep)) == multiset(OnlyIds(b, keep));
    SameLength(OnlyIds(a, keep), OnlyIds(b, keep));
  }

  lemma KeptOfSorted(sorted: seq<Row>)
    requires |sorted| > MAX_ROWS
    ensures var keep := Ids(sorted[..MAX_ROWS]);
            |OnlyIds(sorted, keep)| == MAX_ROWS + |OnlyIds(sorted[MAX_ROWS..], keep)|
  {
    var front, back := sorted[..MAX_ROWS], sorted[MAX_ROWS..];
    assert sorted == front + back;
    OnlyIdsConcat(front, back, Ids(front));
    OnlyIdsAll(front, Ids(front));
    hide OnlyIds;
  }

  /** How many rows survive: the cap, plus every further row that shares its id
      with a kept one. So the cap is met exactly when no such row exists. */
  lemma RowsKept(sections: seq<Section>, sorted: seq<Row>)
    requires IsSorting(Flatten(sections), sorted) && |Flatten(sections)| > MAX_ROWS
    ensures |sorted| > MAX_ROWS
    ensures |Flatten(Capped(sections, sorted))| ==
            MAX_ROWS + |OnlyIds(sorted[MAX_ROWS..], Ids(sorted[..MAX_ROWS]))|
    ensures |Flatten(Capped(sections, sorted))| == MAX_ROWS <==>
            forall r | r in sorted[MAX_ROWS..] :: r.id !in Ids(sorted[..MAX_ROWS])
  {
    SameLength(Flatten(sections), sorted);
    var keep := Ids(sorted[..MAX_ROWS]);
    OnlySectionsFlatten(sections, keep);
    OnlyIdsMembers(sorted[MAX_ROWS..], keep);
    OnlyIdsPermute(Flatten(sections), sorted, keep);
    KeptOfSorted(sorted);
    hide OnlyIds, OnlySections, Flatten, Ids, UrgencyOf, AtMost;
  }

  lemma LaterRowsAreNotKept(sorted: seq<Row>)
    requires |sorted| > MAX_ROWS && UniqueIds(sorted)
    ensures forall r | r in sorted[MAX_ROWS..] :: r.id !in Ids(sorted[..MAX_ROWS])
  {
    var front, back := sorted[..MAX_ROWS], sorted[MAX_ROWS..];
    forall r | r in back ensures r.id !in Ids(front) {
      var j :| 0 <= j < |back| && back[j] == r;
      assert sorted[MAX_ROWS + j] == r;
      assert forall i | 0 <= i < MAX_ROWS :: front[i] == sorted[i] && sorted[i].id != r.id;
    }
  }

  lemma KeptBeforeDropped(sorted: seq<Row>, kept: Row, dropped: Row)
    requires |sorted| > MAX_ROWS && UniqueIds(sorted)
    requires forall i, j | 0 <= i < j < |sorted| :: AtMost(UrgencyOf(sorted[i]), UrgencyOf(sorted[j]))
    requires kept in sorted && kept.id in Ids(sorted[..MAX_ROWS])
    requires dropped in sorted && dropped.id !in Ids(sorted[..MAX_ROWS])
    ensures AtMost(UrgencyOf(kept), UrgencyOf(dropped))
  {
    LaterRowsAreNotKept(sorted);
    hide UrgencyOf, AtMost, UniqueIds;
    var front, back := sorted[..MAX_ROWS], sorted[MAX_ROWS..];
    InFrontOrBack(sorted, kept);
    InFrontOrBack(sorted, dropped);
    assert dropped in back by { assert forall r | r in front :: r.id in Ids(front); }
    var i :| 0 <= i < |front| && front[i] == kept;
    var j :| 0 <= j < |back| && back[j] == dropped;
    assert sorted[i] == kept && sorted[MAX_ROWS + j] == dropped;
  }

  /** Trimming is an order-keeping top-k. With distinct ids and more rows than
      the cap, exactly the cap many rows remain, in their original order; every
      dropped row is at least as far from exhaustion as every kept one; and no
      section is left empty. */
  lemma TrimmingKeepsTheMostUrgent(sections: seq<Section>, sorted: seq<Row>)
    requires IsSorting(Flatten(sections), sorted)
    requires |Flatten(sections)| > MAX_ROWS && UniqueIds(Flatten(sections))
    ensures var rows := Flatten(Capped(sections, sorted));
            && |rows| == MAX_ROWS
            && Subsequence(rows, Flatten(sections))
            && (forall kept, dropped | kept in rows && dropped in Flatten(sections) && dropped !in rows ::
                  AtMost(UrgencyOf(kept), UrgencyOf(dropped)))
            && (forall s | s in Capped(sections, sorted) :: s.rows != [])
  {
    var all := Flatten(sections);
    UniqueSurvivesSorting(all, sorted);
    RowsKept(sections, sorted);
    LaterRowsAreNotKept(sorted);
    var keep := Ids(sorted[..MAX_ROWS]);
    OnlySectionsFlatten(sections, keep);
    OnlyIdsInOrder(all, keep);
    OnlyIdsMembers(all, keep);
    assert Flatten(Capped(sections, sorted)) == OnlyIds(all, keep);
    hide OnlyIds, OnlySections, Flatten, UrgencyOf, AtMost, Subsequence, UniqueIds, Ids, Capped;
    forall kept, dropped | kept in OnlyIds(all, keep) && dropped in all && dropped !in OnlyIds(all, keep)
      ensures AtMost(UrgencyOf(kept), UrgencyOf(dropped))
    {
      assert kept in multiset(all) && dropped in multiset(all);
      assert kept in multiset(sorted) && dropped in multiset(sorted);
      KeptBeforeDropped(sorted, kept, dropped);
    }
  }

  /** The row's own limit does not bind it, or nothing is known of it. */
  predicate Unlimited(r: Row) {
    r.uncapped || r.snapshot == None
  }

  /** Spent, unless the provider says its limit is not reached. */
  predicate RowSpent(r: Row) {
    && !Unlimited(r)
    && r.snapshot.value.remaining <= 0.0 && r.snapshot.value.limitReached != Some(false)
  }

  predicate NoDebts(rows: seq<Row>) {
    forall r | r in rows && r.snapshot.Some? :: r.snapshot.value.remaining >= 0.0
  }

  /** What trimming keeps, by remaining quota: a row without a limit goes first, then
      those with the most left, and a spent one last. */
  lemma SpentRowsStay(sections: seq<Section>, sorted: seq<Row>, kept: Row, dropped: Row)
    requires IsSorting(Flatten(sections), sorted)
    requires UniqueIds(Flatten(sections)) && NoDebts(Flatten(sections))
    requires kept in Flatten(Capped(sections, sorted))
    requires dropped in Flatten(sections) && dropped !in Flatten(Capped(sections, sorted))
    ensures |Flatten(Capped(sections, sorted))| == 4
    ensures Unlimited(kept) ==> Unlimited(dropped)
    ensures RowSpent(dropped) ==> RowSpent(kept)
    ensures !Unlimited(kept) && !Unlimited(dropped) ==>
              RowSpent(kept) || kept.snapshot.value.remaining <= dropped.snapshot.value.remaining
  {
    if |Flatten(sections)| <= 4 {
      assert false;
    }
    TrimmingKeepsTheMostUrgent(sections, sorted);
    SubsequenceMembers(Flatten(Capped(sections, sorted)), Flatten(sections));
    assert AtMost(UrgencyOf(kept), UrgencyOf(dropped));
    assert kept in Flatten(sections);
    hide Flatten, Capped, IsSorting, UniqueIds, Subsequence;
  }

  lemma {:induction false} SubsequenceMembers(a: seq<Row>, b: seq<Row>)
    requires Subsequence(a, b)
    ensures forall r | r in a :: r in b
    decreases |b|
  {
    if a != [] {
      assert a == [a[0]] + a[1..] && b == [b[0]] + b[1..];
      if a[0] == b[0] {
        SubsequenceMembers(a[1..], b[1..]);
      } else {
        SubsequenceMembers(a, b[1..]);
      }
    }
  }

  lemma InFrontOrBack(sorted: seq<Row>, r: Row)
    requires |sorted| > MAX_ROWS && r in sorted
    ensures r in sorted[..MAX_ROWS] || r in sorted[MAX_ROWS..]
  {
    assert sorted == sorted[..MAX_ROWS] + sorted[MAX_ROWS..];
  }

  // ---------------------------------------------------------- split pools

  function TagName(tag: PoolTag): string {
    match tag
    case GEM => "GEM"
    case EXT => "EXT"
  }

  function PoolRows(q: PoolQuota): seq<Row> {
    (if q.five.Some? then [Row(TagName(q.tag) + ".5h", q.five, false)] else [])
    + (if q.weekly.Some? then [Row(TagName(q.tag) + ".wk", q.weekly, false)] else [])
  }

  function PoolSections(pools: seq<PoolQuota>): seq<Section> {
    if pools == [] then []
    else
      var name, rows := TagName(pools[0].tag), PoolRows(pools[0]);
      (if rows == [] then [] else [Section(name, Some(name), rows)])
      + PoolSections(pools[1..])
  }

  lemma {:induction false} TwoRowsPerPool(pools: seq<PoolQuota>)
    ensures |Flatten(PoolSections(pools))| <= 2 * |pools|
  {
    if pools != [] {
      TwoRowsPerPool(pools[1..]);
      var rest := PoolSections(pools[1..]);
      var rows := PoolRows(pools[0]);
      if rows == [] {
        assert PoolSections(pools) == rest;
      } else {
        var head := Section(TagName(pools[0].tag), Some(TagName(pools[0].tag)), rows);
        assert ([head] + rest)[1..] == rest;
      }
    }
  }

  /** The cap fits every split-pool provider: its callout is never trimmed. */
  lemma SplitPoolsAreNeverTrimmed(p: Presenter, u: ProviderUsage, sorted: seq<Row>)
    requires IsSorting(Flatten(PoolSections(PoolsOf(p, u))), sorted)
    ensures Capped(PoolSections(PoolsOf(p, u)), sorted) == PoolSections(PoolsOf(p, u))
  {
    TwoRowsPerPool(PoolsOf(p, u));
    assert |PoolsOf(p, u)| <= 2 by { hide PoolOf; }
    hide PoolsOf, PoolSections, Flatten;
  }
}
