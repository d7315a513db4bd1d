/** The rows of the peek callout: how they are built from a provider, for which
    providers their ids are unique, and a provider for which they are not. */
module PeekRows {
  import opened Text
  import opened Wrappers
  import opened QuotaWindows
  import opened QuotaPools
  import opened QuotaState
  import opened PeekTrim

  // ------------------------------------------------------------------ the builder

  /** Codex reports a weekly limit and, for a time, no five-hour one. */
  predicate TemporarilyUncapped(u: ProviderUsage) {
    && Lower(u.provider) == "codex" && u.status == "ok"
    && (exists w | w in u.windows :: LooksWeekly(w))
    && !(exists w | w in u.windows :: LooksFiveHour(w))
  }

  predicate LooksFiveHour(w: QuotaWindow) {
    w.windowMinutes == Some(300) || Contains(Haystack(w), "5h") || Contains(Haystack(w), "5-hour")
  }

  predicate LooksWeekly(w: QuotaWindow) {
    w.windowMinutes == Some(10080) || Contains(Haystack(w), "7d") || Contains(Haystack(w), "week")
  }

  /** The scoped windows that have a snapshot, in window order. */
  function ScopedOf(ws: seq<QuotaWindow>): seq<QuotaWindow> {
    if ws == [] then []
    else
      var front, last := ScopedOf(ws[..|ws| - 1]), ws[|ws| - 1];
      if IsScoped(last) && last.usedPercent.Some? then front + [last] else front
  }

  function ScopedRow(p: Presenter, u: ProviderUsage, w: QuotaWindow): Row {
    var name := if w.key.Some? then w.key.value else if w.title.Some? then w.title.value else "model";
    Row("scoped." + name, TakeSnapshot(p, u, w, Weekly), false)
  }

  function ScopedRows(p: Presenter, u: ProviderUsage, ws: seq<QuotaWindow>): seq<Row> {
    if ws == [] then [] else ScopedRows(p, u, ws[..|ws| - 1]) + [ScopedRow(p, u, ws[|ws| - 1])]
  }

  /** The rows of the two unscoped windows. */
  function PlainRows(p: Presenter, u: ProviderUsage): seq<Row> {
    var five, weekly := ActiveWindow(p, u, FiveHour), ActiveWindow(p, u, Weekly);
    (if five.Some? || TemporarilyUncapped(u) then [Row("5h", five, TemporarilyUncapped(u))] else [])
    + (if weekly.Some? then [Row("wk", weekly, false)] else [])
  }

  function SingleRows(p: Presenter, u: ProviderUsage): seq<Row> {
    PlainRows(p, u) + ScopedRows(p, u, ScopedOf(u.windows))
  }

  /** The sections before trimming. */
  function PeekSections(p: Presenter, u: ProviderUsage): seq<Section> {
    if |PoolsOf(p, u)| >= 2 then PoolSections(PoolsOf(p, u))
    else if SingleRows(p, u) == [] then []
    else [Section("windows", None, SingleRows(p, u))]
  }

  /** Build the sections row by row. */
  method BuildSections(p: Presenter, u: ProviderUsage) returns (sections: seq<Section>)
    ensures sections == PeekSections(p, u)
  {
    var pools := TaggedPools(p, u);
    if |pools| >= 2 {
      sections := BuildPoolSections(pools);
      return;
    }
    var rows := BuildPlainRows(p, u);
    var scoped := BuildScopedRows(p, u);
    rows := rows + scoped;
    hide PoolsOf, PlainRows, ScopedRows, ScopedOf;
    sections := if rows == [] then [] else [Section("windows", None, rows)];
  }

  method BuildPoolSections(pools: seq<PoolQuota>) returns (sections: seq<Section>)
    ensures sections == PoolSections(pools)
  {
    sections := [];
    for i := 0 to |pools|
      invariant sections == PoolSections(pools[..i])
    {
      var pool, name := pools[i], TagName(pools[i].tag);
      var rows: seq<Row> := [];
      if pool.five.Some? {
        rows := rows + [Row(name + ".5h", pool.five, false)];
      }
      if pool.weekly.Some? {
        rows := rows + [Row(name + ".wk", pool.weekly, false)];
      }
      assert rows == PoolRows(pool);
      assert pools[..i + 1] == pools[..i] + [pool];
      PoolSectionsSnoc(pools[..i], pool);
      hide PoolRows, PoolSections, TagName;
      if rows == [] { continue; }
      sections := sections + [Section(name, Some(name), rows)];
    }
    assert pools[..|pools|] == pools;
  }

  lemma {:induction false} PoolSectionsSnoc(pools: seq<PoolQuota>, pool: PoolQuota)
    ensures var rows, name := PoolRows(pool), TagName(pool.tag);
            PoolSections(pools + [pool])
            == if rows == [] then PoolSections(pools) else PoolSections(pools) + [Section(name, Some(name), rows)]
  {
    hide PoolRows, TagName;
    var all := pools + [pool];
    if pools == [] {
      assert all == [pool] && all[1..] == [];
    } else {
      assert all[0] == pools[0] && all[1..] == pools[1..] + [pool];
      PoolSectionsSnoc(pools[1..], pool);
    }
  }

  method BuildPlainRows(p: Presenter, u: ProviderUsage) returns (rows: seq<Row>)
    ensures rows == PlainRows(p, u)
  {
    hide ActiveWindow, TemporarilyUncapped;
    rows := [];
    var five, weekly := ActiveWindow(p, u, FiveHour), ActiveWindow(p, u, Weekly);
    var uncapped := TemporarilyUncapped(u);
    if five.Some? || uncapped {
      rows := rows + [Row("5h", five, uncapped)];
    }
    if weekly.Some? {
      rows := rows + [Row("wk", weekly, false)];
    }
  }

  method BuildScopedRows(p: Presenter, u: ProviderUsage) returns (rows: seq<Row>)
    ensures rows == ScopedRows(p, u, ScopedOf(u.windows))
  {
    rows := [];
    for i := 0 to |u.windows|
      invariant rows == ScopedRows(p, u, ScopedOf(u.windows[..i]))
    {
      var w := u.windows[i];
      ScopedSoFar(p, u, i);
      hide ScopedRows, ScopedRow, ScopedOf;
      if !IsScoped(w) || w.usedPercent.None? { continue; }
      rows := rows + [ScopedRow(p, u, w)];
    }
    assert u.windows[..|u.windows|] == u.windows;
  }

  lemma ScopedSoFar(p: Presenter, u: ProviderUsage, i: nat)
    requires i < |u.windows|
    ensures var w, before := u.windows[i], ScopedRows(p, u, ScopedOf(u.windows[..i]));
            ScopedRows(p, u, ScopedOf(u.windows[..i + 1]))
            == if IsScoped(w) && w.usedPercent.Some? then before + [ScopedRow(p, u, w)] else before
  {
    hide ScopedRow, IsScoped;
    assert u.windows[..i + 1][..i] == u.windows[..i];
    var front := ScopedOf(u.windows[..i]);
    assert (front + [u.windows[i]])[..|front|] == front;
  }

  // ------------------------------------------------------------------- unique ids

  /** The keys of the scoped windows, which are what their row ids add. */
  function ScopedKeys(u: ProviderUsage): (keys: seq<string>)
    ensures |keys| == |ScopedOf(u.windows)|
    ensures forall i | 0 <= i < |keys| :: keys[i] == OrEmpty(ScopedOf(u.windows)[i].key)
  {
    seq(|ScopedOf(u.windows)|, i requires 0 <= i < |ScopedOf(u.windows)| => OrEmpty(ScopedOf(u.windows)[i].key))
  }

  lemma {:induction false} ScopedOfAreScoped(ws: seq<QuotaWindow>)
    ensures forall w | w in ScopedOf(ws) :: IsScoped(w) && w.usedPercent.Some?
  {
    hide IsScoped;
    if ws != [] {
      ScopedOfAreScoped(ws[..|ws| - 1]);
    }
  }

  lemma {:induction false} ScopedRowsAre(p: Presenter, u: ProviderUsage, ws: seq<QuotaWindow>)
    ensures |ScopedRows(p, u, ws)| == |ws|
    ensures forall i | 0 <= i < |ws| :: ScopedRows(p, u, ws)[i] == ScopedRow(p, u, ws[i])
  {
    hide ScopedRow;
    if ws != [] {
      ScopedRowsAre(p, u, ws[..|ws| - 1]);
    }
  }

  lemma ScopedIdsAre(p: Presenter, u: ProviderUsage)
    ensures var rows, keys := ScopedRows(p, u, ScopedOf(u.windows)), ScopedKeys(u);
            |rows| == |keys| && forall i | 0 <= i < |rows| :: rows[i].id == "scoped." + keys[i]
  {
    var ws := ScopedOf(u.windows);
    ScopedRowsAre(p, u, ws);
    ScopedOfAreScoped(u.windows);
    hide ScopedOf, ScopedRows, TakeSnapshot;
    forall i | 0 <= i < |ws| ensures ScopedRow(p, u, ws[i]).id == "scoped." + OrEmpty(ws[i].key) {
      assert ws[i] in ws;
      ScopedHasKey(ws[i]);
    }
  }

  lemma ScopedHasKey(w: QuotaWindow)
    requires IsScoped(w)
    ensures w.key.Some?
  {
    assert |"scoped_"| > 0;
  }

  lemma PrefixedRepeat(rows: seq<Row>, keys: seq<string>)
    requires |rows| == |keys| && forall i | 0 <= i < |rows| :: rows[i].id == "scoped." + keys[i]
    ensures UniqueIds(rows) <==> NoRepeats(keys)
  {
    var prefix := "scoped.";
    forall i, j | 0 <= i < j < |rows| ensures rows[i].id == rows[j].id <==> keys[i] == keys[j] {
      assert (prefix + keys[i])[|prefix|..] == keys[i] && (prefix + keys[j])[|prefix|..] == keys[j];
    }
  }

  lemma PlainIdsDiffer(p: Presenter, u: ProviderUsage, keys: seq<string>)
    ensures var rows := PlainRows(p, u);
            && |rows| <= 2 && UniqueIds(rows)
            && forall r, k | r in rows && k in keys :: r.id != "scoped." + k
  {
    hide ActiveWindow, TemporarilyUncapped;
    assert "5h"[0] == '5' && "wk"[0] == 'w' && "scoped."[0] == 's';
    forall r, k | r in PlainRows(p, u) && k in keys ensures r.id != "scoped." + k {
      assert ("scoped." + k)[0] == 's';
    }
  }

  lemma UniqueConcat(a: seq<Row>, b: seq<Row>)
    requires UniqueIds(a) && forall r, s | r in a && s in b :: r.id != s.id
    ensures UniqueIds(a + b) <==> UniqueIds(b)
  {
    var all := a + b;
    if UniqueIds(all) {
      forall i, j | 0 <= i < j < |b| ensures b[i].id != b[j].id {
        assert all[|a| + i] == b[i] && all[|a| + j] == b[j];
      }
    }
    if UniqueIds(b) {
      forall i, j | 0 <= i < j < |all| ensures all[i].id != all[j].id {
        if i < |a| <= j {
          assert all[i] in a && all[j] in b;
        }
      }
    }
  }

  lemma SingleIdsUnique(p: Presenter, u: ProviderUsage)
    ensures UniqueIds(SingleRows(p, u)) <==> NoRepeats(ScopedKeys(u))
  {
    var plain, scoped, keys := PlainRows(p, u), ScopedRows(p, u, ScopedOf(u.windows)), ScopedKeys(u);
    ScopedIdsAre(p, u);
    PrefixedRepeat(scoped, keys);
    PlainIdsDiffer(p, u, keys);
    hide PlainRows, ScopedRows, ScopedOf, ScopedKeys, UniqueIds, NoRepeats;
    forall r, s | r in plain && s in scoped ensures r.id != s.id {
      var i :| 0 <= i < |scoped| && scoped[i] == s;
      assert keys[i] in keys;
    }
    UniqueConcat(plain, scoped);
  }

  lemma PoolIdsUnique(g: PoolQuota, e: PoolQuota)
    requires g.tag == GEM && e.tag == EXT
    ensures UniqueIds(PoolRows(g)) && UniqueIds(PoolRows(e)) && UniqueIds(PoolRows(g) + PoolRows(e))
  {
    assert (TagName(GEM) + ".5h")[0] == 'G' && (TagName(GEM) + ".wk")[0] == 'G';
    assert (TagName(EXT) + ".5h")[0] == 'E' && (TagName(EXT) + ".wk")[0] == 'E';
    assert (TagName(GEM) + ".5h")[4] == '5' && (TagName(GEM) + ".wk")[4] == 'w';
    assert (TagName(EXT) + ".5h")[4] == '5' && (TagName(EXT) + ".wk")[4] == 'w';
    hide TagName;
    UniqueConcat(PoolRows(g), PoolRows(e));
  }

  lemma FlattenPools(g: PoolQuota, e: PoolQuota)
    ensures Flatten(PoolSections([g, e])) == PoolRows(g) + PoolRows(e)
  {
    hide PoolRows, TagName;
    assert [g, e][1..] == [e] && [e][1..] == [];
    var a := Section(TagName(g.tag), Some(TagName(g.tag)), PoolRows(g));
    var b := Section(TagName(e.tag), Some(TagName(e.tag)), PoolRows(e));
    assert PoolSections([e]) == if PoolRows(e) == [] then [] else [b];
    assert [a, b][1..] == [b] && [b][1..] == [] && [a][1..] == [] && Flatten([]) == [];
    assert PoolRows(e) + [] == PoolRows(e) && PoolRows(g) + [] == PoolRows(g);
    assert Flatten([b]) == PoolRows(e) && Flatten([a]) == PoolRows(g);
    assert [a] + [b] == [a, b];
  }

  lemma SplitPoolsAre(p: Presenter, u: ProviderUsage)
    requires |PoolsOf(p, u)| >= 2
    ensures var g, e := PoolOf(p, u, u.windows, GEM), PoolOf(p, u, u.windows, EXT);
            PoolsOf(p, u) == [g, e] && g.tag == GEM && e.tag == EXT
  {
    TwoPools(p, u);
    hide Least, Snapshots;
  }

  /** Row ids are unique exactly for a provider with two pools, or whose scoped
      windows all have keys of their own. */
  lemma RowIdsAreUnique(p: Presenter, u: ProviderUsage)
    ensures UniqueIds(Flatten(PeekSections(p, u))) <==> |PoolsOf(p, u)| >= 2 || NoRepeats(ScopedKeys(u))
  {
    if |PoolsOf(p, u)| >= 2 {
      var g, e := PoolOf(p, u, u.windows, GEM), PoolOf(p, u, u.windows, EXT);
      SplitPoolsAre(p, u);
      PoolIdsUnique(g, e);
      FlattenPools(g, e);
      hide PoolsOf, PoolOf, PoolSections, PoolRows, Flatten, UniqueIds;
    } else {
      SingleIdsUnique(p, u);
      OneSection(SingleRows(p, u));
      hide PoolsOf, SingleRows, ScopedKeys, NoRepeats;
    }
  }

  lemma OneSection(rows: seq<Row>)
    ensures Flatten([Section("windows", None, rows)]) == rows
    ensures Flatten([]) == [] && UniqueIds([])
  {
    var sections := [Section("windows", None, rows)];
    assert sections[1..] == [];
    assert rows + [] == rows;
  }

  // ------------------------------------------------------------- the rows that stay

  lemma {:induction false} ScopedRowsNoDebts(p: Presenter, u: ProviderUsage, ws: seq<QuotaWindow>)
    ensures NoDebts(ScopedRows(p, u, ws))
  {
    if ws != [] {
      ScopedRowsNoDebts(p, u, ws[..|ws| - 1]);
    }
    hide IsWindowIdle, NotchWindowTag;
  }

  lemma RowsHaveNoDebts(p: Presenter, u: ProviderUsage)
    requires |PoolsOf(p, u)| < 2
    ensures NoDebts(Flatten(PeekSections(p, u)))
  {
    ActiveWindowIsMinimum(p, u, FiveHour);
    ActiveWindowIsMinimum(p, u, Weekly);
    ScopedRowsNoDebts(p, u, ScopedOf(u.windows));
    OneSection(SingleRows(p, u));
    hide ActiveWindow, Counts, PoolsOf, ScopedRows, ScopedOf, Flatten, TemporarilyUncapped;
  }

  /** When a callout is trimmed, a row without a limit goes first, then those with the
      most left, and a spent one is never dropped for one that is not. */
  lemma CalloutKeepsTheMostUrgent(p: Presenter, u: ProviderUsage, sorted: seq<Row>, kept: Row, dropped: Row)
    requires IsSorting(Flatten(PeekSections(p, u)), sorted) && NoRepeats(ScopedKeys(u))
    requires kept in Flatten(Capped(PeekSections(p, u), sorted))
    requires dropped in Flatten(PeekSections(p, u)) && dropped !in Flatten(Capped(PeekSections(p, u), sorted))
    ensures |Flatten(Capped(PeekSections(p, u), sorted))| == 4
    ensures Unlimited(kept) ==> Unlimited(dropped)
    ensures RowSpent(dropped) ==> RowSpent(kept)
    ensures !Unlimited(kept) && !Unlimited(dropped) ==>
              RowSpent(kept) || kept.snapshot.value.remaining <= dropped.snapshot.value.remaining
  {
    RowIdsAreUnique(p, u);
    var sections := PeekSections(p, u);
    if |PoolsOf(p, u)| >= 2 {
      assert sections == PoolSections(PoolsOf(p, u));
      hide *;
      SplitPoolsAreNeverTrimmed(p, u, sorted);
    } else {
      RowsHaveNoDebts(p, u);
      hide *;
      SpentRowsStay(sections, sorted, kept, dropped);
    }
  }
}
