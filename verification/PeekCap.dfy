/** When the callout meets its cap although row ids repeat, told from the rows alone:
    the library sort may order equally urgent rows either way. */
module PeekCap {
  import opened Wrappers
  import opened PeekTrim

  // ---------------------------------------------------------- rows by urgency

  datatype Cut = Less(u: Urgency) | Within(u: Urgency, v: Urgency) | More(v: Urgency)

  predicate InCut(r: Row, c: Cut) {
    match c
    case Less(u) => !AtMost(u, UrgencyOf(r))
    case Within(u, v) => AtMost(u, UrgencyOf(r)) && AtMost(UrgencyOf(r), v)
    case More(v) => !AtMost(UrgencyOf(r), v)
  }

  function Pick(rows: seq<Row>, c: Cut): seq<Row> {
    if rows == [] then [] else (if InCut(rows[0], c) then [rows[0]] else []) + Pick(rows[1..], c)
  }

  lemma {:induction false} PickCounts(rows: seq<Row>, c: Cut, r: Row)
    ensures multiset(Pick(rows, c))[r] == if InCut(r, c) then multiset(rows)[r] else 0
  {
    hide InCut;
    if rows != [] {
      PickCounts(rows[1..], c, r);
      assert rows == [rows[0]] + rows[1..];
      assert multiset(rows) == multiset{rows[0]} + multiset(rows[1..]);
    }
  }

  lemma PickPermutes(a: seq<Row>, b: seq<Row>, c: Cut)
    requires multiset(a) == multiset(b)
    ensures |Pick(a, c)| == |Pick(b, c)|
  {
    forall r ensures multiset(Pick(a, c))[r] == multiset(Pick(b, c))[r] {
      PickCounts(a, c, r);
      PickCounts(b, c, r);
    }
    hide Pick, InCut;
    assert multiset(Pick(a, c)) == multiset(Pick(b, c));
    SameLength(Pick(a, c), Pick(b, c));
  }

  lemma {:induction false} PickBound(a: seq<Row>, b: seq<Row>, c: Cut)
    requires forall r | r in b :: !InCut(r, c)
    ensures |Pick(a + b, c)| <= |a|
  {
    hide InCut;
    if a != [] {
      assert (a + b)[0] == a[0] && (a + b)[1..] == a[1..] + b;
      PickBound(a[1..], b, c);
    } else if b != [] {
      assert b[0] in b && a + b == b;
      assert a + b[1..] == b[1..];
      PickBound(a, b[1..], c);
    }
  }

  lemma {:induction false} PickBoundBehind(a: seq<Row>, b: seq<Row>, c: Cut)
    requires forall r | r in a :: !InCut(r, c)
    ensures |Pick(a + b, c)| <= |b|
  {
    hide InCut;
    if a != [] {
      assert a[0] in a;
      assert (a + b)[0] == a[0] && (a + b)[1..] == a[1..] + b;
      PickBoundBehind(a[1..], b, c);
    } else {
      assert a + b == b + [];
      PickBound(b, [], c);
    }
  }

  // ------------------------------------------------------------ sorted rows

  predicate Ascending(rows: seq<Row>) {
    forall i, j | 0 <= i < j < |rows| :: AtMost(UrgencyOf(rows[i]), UrgencyOf(rows[j]))
  }

  predicate UpTo(rows: seq<Row>, u: Urgency) {
    forall r | r in rows :: AtMost(UrgencyOf(r), u)
  }

  predicate AtLeast(rows: seq<Row>, u: Urgency) {
    forall r | r in rows :: AtMost(u, UrgencyOf(r))
  }

  /** Ascending rows on both sides of an urgency are ascending together. */
  lemma AscendingConcat(a: seq<Row>, u: Urgency, b: seq<Row>)
    requires Ascending(a) && UpTo(a, u) && Ascending(b) && AtLeast(b, u)
    ensures Ascending(a + b)
  {
    hide UrgencyOf;
    var all := a + b;
    forall i, j | 0 <= i < j < |all| ensures AtMost(UrgencyOf(all[i]), UrgencyOf(all[j])) {
      if i < |a| <= j {
        assert all[i] in a && all[j] in b;
      }
    }
  }

  lemma {:induction false} InsertRow(sorted: seq<Row>, r: Row) returns (with: seq<Row>)
    requires Ascending(sorted)
    ensures Ascending(with) && multiset(with) == multiset(sorted) + multiset{r}
  {
    var u := UrgencyOf(r);
    assert AtMost(u, u);
    if sorted == [] || AtMost(u, UrgencyOf(sorted[0])) {
      with := [r] + sorted;
      FirstIsLeast(sorted, u);
      AscendingConcat([r], u, sorted);
    } else {
      var head, tail := sorted[0], sorted[1..];
      assert AtMost(UrgencyOf(head), u) && AtMost(UrgencyOf(head), UrgencyOf(head));
      FirstIsLeast(sorted, UrgencyOf(head));
      AscendingTail(sorted);
      hide UrgencyOf, AtMost, Ascending;
      var rest := InsertRow(tail, r);
      with := [head] + rest;
      LowerBoundKept(sorted, tail, r, rest, UrgencyOf(head));
      AscendingConcat([head], UrgencyOf(head), rest);
    }
  }

  lemma AscendingTail(sorted: seq<Row>)
    requires Ascending(sorted) && sorted != []
    ensures Ascending(sorted[1..]) && multiset(sorted) == multiset{sorted[0]} + multiset(sorted[1..])
  {
    hide UrgencyOf, AtMost;
    var tail := sorted[1..];
    assert sorted == [sorted[0]] + tail;
    assert forall i | 0 <= i < |tail| :: tail[i] == sorted[i + 1];
  }

  lemma LowerBoundKept(sorted: seq<Row>, tail: seq<Row>, r: Row, rest: seq<Row>, u: Urgency)
    requires AtLeast(sorted, u) && AtMost(u, UrgencyOf(r)) && sorted != [] && tail == sorted[1..]
    requires multiset(rest) == multiset(tail) + multiset{r}
    ensures AtLeast(rest, u)
  {
    hide UrgencyOf, AtMost;
    forall x | x in rest ensures AtMost(u, UrgencyOf(x)) {
      assert x in multiset(rest);
      assert x == r || x in multiset(tail);
      assert x == r || x in sorted;
    }
  }

  lemma FirstIsLeast(sorted: seq<Row>, u: Urgency)
    requires Ascending(sorted) && (sorted == [] || AtMost(u, UrgencyOf(sorted[0])))
    ensures AtLeast(sorted, u)
  {
    hide UrgencyOf;
    forall r | r in sorted ensures AtMost(u, UrgencyOf(r)) {
      var j :| 0 <= j < |sorted| && sorted[j] == r;
      assert j == 0 || AtMost(UrgencyOf(sorted[0]), UrgencyOf(sorted[j]));
    }
  }

  lemma {:induction false} SortRows(rows: seq<Row>) returns (sorted: seq<Row>)
    ensures Ascending(sorted) && multiset(sorted) == multiset(rows)
  {
    if rows == [] {
      sorted := [];
    } else {
      var rest := SortRows(rows[1..]);
      assert rows == [rows[0]] + rows[1..];
      hide Ascending;
      sorted := InsertRow(rest, rows[0]);
    }
  }

  lemma {:induction false} TakeOut(rows: seq<Row>, r: Row) returns (rest: seq<Row>)
    requires r in multiset(rows)
    ensures multiset(rest) == multiset(rows) - multiset{r}
  {
    assert rows == [rows[0]] + rows[1..];
    if rows[0] == r {
      rest := rows[1..];
    } else {
      var tail := TakeOut(rows[1..], r);
      rest := [rows[0]] + tail;
    }
  }

  // ------------------------------------------------------------ the condition

  /** Two rows share an id, and ties can fall so that one is kept for its rank and
      the other is past the cap: fewer rows than the cap are more urgent than the
      first, and the rows up to the second's urgency overflow the cap. */
  ghost predicate CanStraddle(rows: seq<Row>) {
    exists x, y :: Straddles(rows, x, y)
  }

  predicate Straddles(rows: seq<Row>, x: Row, y: Row) {
    && x in rows && y in multiset(rows) - multiset{x}
    && x.id == y.id && AtMost(UrgencyOf(x), UrgencyOf(y))
    && |Pick(rows, Less(UrgencyOf(x)))| < MAX_ROWS
    && |Pick(rows, More(UrgencyOf(y)))| + MAX_ROWS < |rows|
  }

  lemma SortedBounds(sorted: seq<Row>, i: nat)
    requires Ascending(sorted) && i < |sorted|
    ensures |Pick(sorted, Less(UrgencyOf(sorted[i])))| <= i
    ensures |Pick(sorted, More(UrgencyOf(sorted[i])))| <= |sorted| - 1 - i
  {
    var front, x, back := sorted[..i], sorted[i], sorted[i + 1..];
    assert AtMost(UrgencyOf(x), UrgencyOf(x));
    assert sorted == front + ([x] + back);
    assert sorted == (front + [x]) + back;
    forall r | r in [x] + back ensures !InCut(r, Less(UrgencyOf(x))) {
      var j :| 0 <= j < |[x] + back| && ([x] + back)[j] == r;
      assert sorted[i + j] == r;
    }
    forall r | r in front + [x] ensures !InCut(r, More(UrgencyOf(x))) {
      var j :| 0 <= j < |front + [x]| && (front + [x])[j] == r;
      assert sorted[j] == r;
    }
    hide Pick, InCut, AtMost, UrgencyOf;
    PickBound(front, [x] + back, Less(UrgencyOf(x)));
    PickBoundBehind(front + [x], back, More(UrgencyOf(x)));
  }

  lemma OtherOccurrence(rows: seq<Row>, i: nat, j: nat)
    requires i < j < |rows|
    ensures rows[j] in multiset(rows) - multiset{rows[i]}
  {
    var rest := rows[..i] + rows[i + 1..];
    assert rows == rows[..i] + [rows[i]] + rows[i + 1..];
    assert multiset(rows) == multiset(rest) + multiset{rows[i]};
    assert rest[j - 1] == rows[j];
    assert rows[j] in multiset(rest);
  }

  /** Two rows of one id end up on either side of the cap. */
  predicate Splits(sorted: seq<Row>, i: nat, j: nat) {
    i < MAX_ROWS <= j < |sorted| && sorted[i].id == sorted[j].id
  }

  /** A sort that splits two rows of one id shows that they can straddle. */
  lemma SplitMeansStraddle(rows: seq<Row>, sorted: seq<Row>, i: nat, j: nat)
    requires IsSorting(rows, sorted) && Splits(sorted, i, j)
    ensures Straddles(rows, sorted[i], sorted[j])
  {
    var x, y := sorted[i], sorted[j];
    SameLength(rows, sorted);
    OtherOccurrence(sorted, i, j);
    assert x in multiset(sorted);
    assert x in multiset(rows);
    assert Ascending(sorted);
    hide Pick, UrgencyOf, AtMost;
    SortedBounds(sorted, i);
    SortedBounds(sorted, j);
    PickPermutes(rows, sorted, Less(UrgencyOf(x)));
    PickPermutes(rows, sorted, More(UrgencyOf(y)));
  }

  /** The rows between two urgencies, without the two that mark them. */
  lemma MiddleRows(rows: seq<Row>, x: Row, y: Row) returns (middle: seq<Row>)
    requires Straddles(rows, x, y)
    ensures Ascending(middle)
    ensures multiset(middle) == multiset(Pick(rows, Within(UrgencyOf(x), UrgencyOf(y)))) - multiset{x} - multiset{y}
    ensures multiset{x} + multiset{y} <= multiset(Pick(rows, Within(UrgencyOf(x), UrgencyOf(y))))
  {
    var c := Within(UrgencyOf(x), UrgencyOf(y));
    var all := Pick(rows, c);
    PickCounts(rows, c, x);
    PickCounts(rows, c, y);
    assert x in multiset(rows);
    assert InCut(x, c) && InCut(y, c);
    hide Pick, InCut, UrgencyOf, AtMost, Ascending;
    assert multiset(all)[x] >= 1 && multiset(all)[y] >= (if x == y then 2 else 1);
    var one := TakeOut(all, x);
    var two := TakeOut(one, y);
    middle := SortRows(two);
  }

  lemma InPick(rows: seq<Row>, picked: seq<Row>, c: Cut)
    requires multiset(picked) <= multiset(Pick(rows, c))
    ensures forall r | r in picked :: InCut(r, c)
  {
    forall r | r in picked ensures InCut(r, c) {
      PickCounts(rows, c, r);
      assert r in multiset(picked);
    }
  }

  lemma CutsPartition(rows: seq<Row>, x: Row, y: Row)
    requires AtMost(UrgencyOf(x), UrgencyOf(y))
    ensures var u, v := UrgencyOf(x), UrgencyOf(y);
            multiset(rows)
            == multiset(Pick(rows, Less(u))) + multiset(Pick(rows, Within(u, v))) + multiset(Pick(rows, More(v)))
  {
    var u, v := UrgencyOf(x), UrgencyOf(y);
    forall r
      ensures multiset(rows)[r]
              == multiset(Pick(rows, Less(u)))[r] + multiset(Pick(rows, Within(u, v)))[r]
                 + multiset(Pick(rows, More(v)))[r]
    {
      PickCounts(rows, Less(u), r);
      PickCounts(rows, Within(u, v), r);
      PickCounts(rows, More(v), r);
    }
    hide Pick, UrgencyOf;
  }

  lemma CutSides(rows: seq<Row>, c: Cut)
    requires forall r | r in rows :: InCut(r, c)
    ensures c.Less? ==> UpTo(rows, c.u)
    ensures c.Within? ==> AtLeast(rows, c.u) && UpTo(rows, c.v)
    ensures c.More? ==> AtLeast(rows, c.v)
  {
    hide UrgencyOf;
  }

  lemma UpToConcat(a: seq<Row>, b: seq<Row>, u: Urgency, v: Urgency)
    requires UpTo(a, u) && UpTo(b, v) && AtMost(u, v)
    ensures UpTo(a + b, v)
  {
    hide UrgencyOf;
  }

  /** `x` first and `y` last among their ties. */
  lemma Arranged(low: seq<Row>, x: Row, middle: seq<Row>, y: Row, high: seq<Row>)
    requires Ascending(low) && Ascending(middle) && Ascending(high) && AtMost(UrgencyOf(x), UrgencyOf(y))
    requires UpTo(low, UrgencyOf(x)) && AtLeast(high, UrgencyOf(y))
    requires AtLeast(middle, UrgencyOf(x)) && UpTo(middle, UrgencyOf(y))
    ensures Ascending(low + [x] + middle + [y] + high)
  {
    var u, v := UrgencyOf(x), UrgencyOf(y);
    assert AtMost(u, u) && AtMost(v, v);
    assert UpTo([x], u) && AtLeast([x], u) && UpTo([y], v) && AtLeast([y], v);
    hide UrgencyOf, AtMost, Ascending, UpTo, AtLeast;
    AscendingConcat(low, u, [x]);
    UpToConcat(low, [x], u, u);
    AscendingConcat(low + [x], u, middle);
    UpToConcat(low + [x], middle, u, v);
    AscendingConcat(low + [x] + middle, v, [y]);
    UpToConcat(low + [x] + middle, [y], v, v);
    AscendingConcat(low + [x] + middle + [y], v, high);
  }

  /** The rows on either side of the two, sorted. */
  lemma OuterRows(rows: seq<Row>, x: Row, y: Row) returns (low: seq<Row>, high: seq<Row>)
    requires Straddles(rows, x, y)
    ensures Ascending(low) && UpTo(low, UrgencyOf(x)) && |low| < MAX_ROWS
    ensures Ascending(high) && AtLeast(high, UrgencyOf(y)) && |high| + MAX_ROWS < |rows|
    ensures multiset(low) == multiset(Pick(rows, Less(UrgencyOf(x))))
    ensures multiset(high) == multiset(Pick(rows, More(UrgencyOf(y))))
  {
    var u, v := UrgencyOf(x), UrgencyOf(y);
    low := SortRows(Pick(rows, Less(u)));
    high := SortRows(Pick(rows, More(v)));
    InPick(rows, low, Less(u));
    InPick(rows, high, More(v));
    hide Pick, InCut, UrgencyOf, AtMost, Ascending;
    CutSides(low, Less(u));
    CutSides(high, More(v));
    SameLength(low, Pick(rows, Less(u)));
    SameLength(high, Pick(rows, More(v)));
  }

  /** Rows that can straddle do, in some sort. */
  lemma StraddleMeansSplit(rows: seq<Row>, x: Row, y: Row) returns (sorted: seq<Row>, i: nat, j: nat)
    requires Straddles(rows, x, y)
    ensures IsSorting(rows, sorted) && Splits(sorted, i, j)
  {
    var u, v := UrgencyOf(x), UrgencyOf(y);
    var low, high := OuterRows(rows, x, y);
    var middle := MiddleRows(rows, x, y);
    InPick(rows, middle, Within(u, v));
    CutSides(middle, Within(u, v));
    CutsPartition(rows, x, y);
    var less, within, more := Pick(rows, Less(u)), Pick(rows, Within(u, v)), Pick(rows, More(v));
    hide Pick, InCut, UrgencyOf, AtMost, UpTo, AtLeast;
    Arranged(low, x, middle, y, high);
    ArrangedCounts(rows, low, x, middle, y, high, less, within, more);
    sorted, i, j := Placed(rows, low, x, middle, y, high);
  }

  lemma Placed(rows: seq<Row>, low: seq<Row>, x: Row, middle: seq<Row>, y: Row, high: seq<Row>)
    returns (sorted: seq<Row>, i: nat, j: nat)
    requires x.id == y.id && |low| < MAX_ROWS && |high| + MAX_ROWS < |rows|
    requires multiset(low + [x] + middle + [y] + high) == multiset(rows)
    ensures sorted == low + [x] + middle + [y] + high && Splits(sorted, i, j)
  {
    sorted, i := low + [x] + middle + [y] + high, |low|;
    SameLength(sorted, rows);
    j := |rows| - 1 - |high|;
    assert sorted[i] == x && sorted[j] == y;
  }

  lemma ArrangedCounts(rows: seq<Row>, low: seq<Row>, x: Row, middle: seq<Row>, y: Row, high: seq<Row>,
                       less: seq<Row>, within: seq<Row>, more: seq<Row>)
    requires multiset(low) == multiset(less) && multiset(high) == multiset(more)
    requires multiset{x} + multiset{y} <= multiset(within)
    requires multiset(middle) == multiset(within) - multiset{x} - multiset{y}
    requires multiset(rows) == multiset(less) + multiset(within) + multiset(more)
    ensures multiset(low + [x] + middle + [y] + high) == multiset(rows)
  {
    FiveParts(low, [x], middle, [y], high);
    assert multiset([x]) == multiset{x} && multiset([y]) == multiset{y};
    Reordered(multiset(low), multiset{x}, multiset(within), multiset{y}, multiset(high));
  }

  lemma Reordered(a: multiset<Row>, b: multiset<Row>, within: multiset<Row>, d: multiset<Row>, e: multiset<Row>)
    requires b + d <= within
    ensures a + b + (within - b - d) + d + e == a + within + e
  {
    assert (within - b - d) + (b + d) == within;
    var c := within - b - d;
    assert a + b + c + d == a + (c + (b + d));
  }

  lemma FiveParts(a: seq<Row>, b: seq<Row>, c: seq<Row>, d: seq<Row>, e: seq<Row>)
    ensures multiset(a + b + c + d + e) == multiset(a) + multiset(b) + multiset(c) + multiset(d) + multiset(e)
  {
  }

  /** The cap is met whatever order the sort gives ties exactly when no two rows of
      one id can straddle it. */
  lemma CapMetWhateverTheSort(sections: seq<Section>)
    requires |Flatten(sections)| > MAX_ROWS
    ensures (forall sorted | IsSorting(Flatten(sections), sorted) :: |Flatten(Capped(sections, sorted))| == MAX_ROWS)
            <==> !CanStraddle(Flatten(sections))
  {
    var rows := Flatten(sections);
    if x, y :| Straddles(rows, x, y) {
      var sorted, i, j := StraddleMeansSplit(rows, x, y);
      SplitBreaksCap(sections, sorted, i, j);
    }
    if sorted :| IsSorting(rows, sorted) && |Flatten(Capped(sections, sorted))| != MAX_ROWS {
      var i, j := BrokenCapSplits(sections, sorted);
      SplitMeansStraddle(rows, sorted, i, j);
    }
  }

  lemma SplitBreaksCap(sections: seq<Section>, sorted: seq<Row>, i: nat, j: nat)
    requires |Flatten(sections)| > MAX_ROWS && IsSorting(Flatten(sections), sorted) && Splits(sorted, i, j)
    ensures |Flatten(Capped(sections, sorted))| != MAX_ROWS
  {
    RowsKept(sections, sorted);
    hide IsSorting, Flatten, OnlyIds, Capped;
    assert sorted[MAX_ROWS..][j - MAX_ROWS] == sorted[j];
    assert sorted[..MAX_ROWS][i] == sorted[i];
  }

  lemma RowWithId(rows: seq<Row>, id: string) returns (i: nat)
    requires id in Ids(rows)
    ensures i < |rows| && rows[i].id == id
  {
    var r :| r in rows && r.id == id;
    i :| 0 <= i < |rows| && rows[i] == r;
  }

  lemma BrokenCapSplits(sections: seq<Section>, sorted: seq<Row>) returns (i: nat, j: nat)
    requires |Flatten(sections)| > MAX_ROWS && IsSorting(Flatten(sections), sorted)
    requires |Flatten(Capped(sections, sorted))| != MAX_ROWS
    ensures Splits(sorted, i, j)
  {
    RowsKept(sections, sorted);
    var front, back := sorted[..MAX_ROWS], sorted[MAX_ROWS..];
    var r :| r in back && r.id in Ids(front);
    hide IsSorting, Flatten, OnlyIds, Capped, Ids;
    var k :| 0 <= k < |back| && back[k] == r;
    i := RowWithId(front, r.id);
    j := MAX_ROWS + k;
  }
}
