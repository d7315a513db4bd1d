/** What the rows of the callout show, from a provider's raw windows. */
module PeekContents {
  import opened Text
  import opened Wrappers
  import opened QuotaWindows
  import opened QuotaPools
  import opened QuotaState
  import opened QuotaOrder
  import opened QuotaHeadline
  import opened QuotaClasses
  import opened PeekTrim
  import opened PeekRows

  // ----------------------------------------------------------- Codex without a limit

  /** Codex, in any case, whose windows speak of a week and none of five hours. */
  predicate WithoutFiveHours(u: ProviderUsage) {
    && |u.provider| == 5 && NamedAt(u.provider, "codex", 0) && u.status == "ok"
    && (exists w | w in u.windows :: w.windowMinutes == Some(7 * 24 * 60) || Mentions(w, "7d") || Mentions(w, "week"))
    && forall w | w in u.windows :: w.windowMinutes != Some(5 * 60) && !Mentions(w, "5h") && !Mentions(w, "5-hour")
  }

  lemma CodexInAnyCase(provider: string)
    ensures Lower(provider) == "codex" <==> |provider| == 5 && NamedAt(provider, "codex", 0)
  {
    if |provider| == 5 {
      assert LowerCase("codex");
      LowerAt(provider, "codex", 0);
      assert Lower(provider)[0..5] == Lower(provider);
    }
    hide NamedAt;
  }

  lemma UncappedIsDecided(u: ProviderUsage)
    ensures TemporarilyUncapped(u) <==> WithoutFiveHours(u)
  {
    CodexInAnyCase(u.provider);
    NamesAreLower();
    hide LowerCase, Mentions, Contains, Haystack, NamedAt;
    forall w
      ensures LooksWeekly(w) <==> w.windowMinutes == Some(7 * 24 * 60) || Mentions(w, "7d") || Mentions(w, "week")
      ensures LooksFiveHour(w) <==> w.windowMinutes == Some(5 * 60) || Mentions(w, "5h") || Mentions(w, "5-hour")
    {
      HayMentions(w, "5h");
      HayMentions(w, "5-hour");
      HayMentions(w, "7d");
      HayMentions(w, "week");
    }
    hide LooksWeekly, LooksFiveHour;
  }

  // --------------------------------------------------------------------- scoped rows

  /** A scoped window's row. */
  predicate ScopedShown(w: QuotaWindow, r: Row) {
    && w.key.Some? && "scoped_" <= w.key.value
    && r.id == "scoped." + w.key.value && !r.uncapped
    && r.snapshot.Some? && r.snapshot.value.window == w && r.snapshot.value.kind == Weekly
    && HasLeft(w, r.snapshot.value.remaining)
  }

  predicate NoScopedRow(w: QuotaWindow) {
    w.usedPercent == None || w.key == None || !("scoped_" <= w.key.value)
  }

  /** The rows are those of the windows at these places, in order, and no other window
      has one. */
  predicate RowsAt(ws: seq<QuotaWindow>, rows: seq<Row>, places: seq<nat>) {
    && |places| == |rows|
    && (forall i | 0 <= i < |places| :: places[i] < |ws| && ScopedShown(ws[places[i]], rows[i]))
    && (forall i, j | 0 <= i < j < |places| :: places[i] < places[j])
    && (forall k | 0 <= k < |ws| && k !in places :: NoScopedRow(ws[k]))
  }

  lemma OneScopedRow(p: Presenter, u: ProviderUsage, w: QuotaWindow)
    ensures if IsScoped(w) && w.usedPercent.Some? then ScopedShown(w, ScopedRow(p, u, w)) else NoScopedRow(w)
  {
    assert "scoped_" != "";
    if w.usedPercent.Some? {
      RemainingIsLeft(w);
    }
    hide IsWindowIdle, NotchWindowTag, Remaining, HasLeft;
  }

  lemma RowsAtSnoc(ws: seq<QuotaWindow>, rows: seq<Row>, places: seq<nat>, w: QuotaWindow, r: Row)
    requires RowsAt(ws, rows, places)
    ensures NoScopedRow(w) ==> RowsAt(ws + [w], rows, places)
    ensures ScopedShown(w, r) ==> RowsAt(ws + [w], rows + [r], places + [|ws|])
  {
    hide ScopedShown, NoScopedRow;
    var more := places + [|ws|];
    assert forall k | 0 <= k < |ws| && k !in more :: k !in places;
    assert more[|places|] == |ws|;
  }

  lemma ScopedRowsSnoc(p: Presenter, u: ProviderUsage, front: seq<QuotaWindow>, w: QuotaWindow)
    ensures ScopedRows(p, u, ScopedOf(front + [w])) ==
            if IsScoped(w) && w.usedPercent.Some? then ScopedRows(p, u, ScopedOf(front)) + [ScopedRow(p, u, w)]
            else ScopedRows(p, u, ScopedOf(front))
  {
    hide ScopedRow, IsScoped;
    var ws, kept := front + [w], ScopedOf(front);
    assert ws[..|ws| - 1] == front;
    assert (kept + [w])[..|kept|] == kept;
  }

  lemma ScopedRowsStep(p: Presenter, u: ProviderUsage, front: seq<QuotaWindow>, w: QuotaWindow, places: seq<nat>)
    requires RowsAt(front, ScopedRows(p, u, ScopedOf(front)), places)
    ensures RowsAt(front + [w], ScopedRows(p, u, ScopedOf(front + [w])),
                   if IsScoped(w) && w.usedPercent.Some? then places + [|front|] else places)
  {
    hide *;
    OneScopedRow(p, u, w);
    ScopedRowsSnoc(p, u, front, w);
    var rows, row := ScopedRows(p, u, ScopedOf(front)), ScopedRow(p, u, w);
    if IsScoped(w) && w.usedPercent.Some? {
      RowsAtSnoc(front, rows, places, w, row);
    } else {
      RowsAtSnoc(front, rows, places, w, row);
    }
  }

  lemma NoRowsAtAll(p: Presenter, u: ProviderUsage)
    ensures RowsAt([], ScopedRows(p, u, ScopedOf([])), [])
  {
  }

  lemma {:induction false} ScopedRowsShow(p: Presenter, u: ProviderUsage, ws: seq<QuotaWindow>)
    returns (places: seq<nat>)
    ensures RowsAt(ws, ScopedRows(p, u, ScopedOf(ws)), places)
  {
    hide *;
    if ws == [] {
      NoRowsAtAll(p, u);
      places := [];
    } else {
      var front, w := ws[..|ws| - 1], ws[|ws| - 1];
      assert ws == front + [w];
      var before := ScopedRowsShow(p, u, front);
      ScopedRowsStep(p, u, front, w, before);
      places := if IsScoped(w) && w.usedPercent.Some? then before + [|front|] else before;
    }
  }

  // ---------------------------------------------------------------------- the callout

  /** The callout of a provider without two pools: its five-hour window with the least
      left (or, for Codex without one, that it is not limited), its weekly one, and every
      scoped window in order. */
  lemma SingleCallout(p: Presenter, u: ProviderUsage)
    returns (five: Option<Snapshot>, weekly: Option<Snapshot>, scoped: seq<Row>, places: seq<nat>)
    requires |PoolsOf(p, u)| < 2
    ensures Shows(p, u, five, FiveHour, None) && Shows(p, u, weekly, Weekly, None)
    ensures RowsAt(u.windows, scoped, places)
    ensures Flatten(PeekSections(p, u))
            == (if five.Some? || WithoutFiveHours(u) then [Row("5h", five, WithoutFiveHours(u))] else [])
               + (if weekly.Some? then [Row("wk", weekly, false)] else []) + scoped
  {
    five, weekly := Pick(p, u, FiveHour, None), Pick(p, u, Weekly, None);
    scoped := ScopedRows(p, u, ScopedOf(u.windows));
    assert five == ActiveWindow(p, u, FiveHour) && weekly == ActiveWindow(p, u, Weekly);
    assert PeekSections(p, u) == if SingleRows(p, u) == [] then [] else [Section("windows", None, SingleRows(p, u))];
    assert SingleRows(p, u) == PlainRows(p, u) + scoped;
    OneSection(SingleRows(p, u));
    PickShows(p, u, FiveHour, None);
    PickShows(p, u, Weekly, None);
    UncappedIsDecided(u);
    hide Shows, Pick, ActiveWindow, PoolsOf, ScopedRows, ScopedOf, TemporarilyUncapped, WithoutFiveHours, RowsAt;
    hide Flatten, PeekSections, SingleRows;
    places := ScopedRowsShow(p, u, u.windows);
  }

  /** The callout of one with two: for either pool, GEM first, its five-hour and its
      weekly window with the least left. */
  lemma SplitCallout(p: Presenter, u: ProviderUsage)
    returns (g: PoolQuota, e: PoolQuota)
    requires |PoolsOf(p, u)| >= 2
    ensures Shows(p, u, g.five, FiveHour, Some(GEM)) && Shows(p, u, g.weekly, Weekly, Some(GEM))
    ensures Shows(p, u, e.five, FiveHour, Some(EXT)) && Shows(p, u, e.weekly, Weekly, Some(EXT))
    ensures Flatten(PeekSections(p, u))
            == (if g.five.Some? then [Row("GEM.5h", g.five, false)] else [])
               + (if g.weekly.Some? then [Row("GEM.wk", g.weekly, false)] else [])
               + (if e.five.Some? then [Row("EXT.5h", e.five, false)] else [])
               + (if e.weekly.Some? then [Row("EXT.wk", e.weekly, false)] else [])
  {
    g, e := PoolOf(p, u, u.windows, GEM), PoolOf(p, u, u.windows, EXT);
    SplitPoolsAre(p, u);
    NamedRows(g, e);
    hide *;
    FlattenSplit(p, u);
    SideShows(p, u, GEM, FiveHour);
    SideShows(p, u, GEM, Weekly);
    SideShows(p, u, EXT, FiveHour);
    SideShows(p, u, EXT, Weekly);
  }

  lemma FlattenSplit(p: Presenter, u: ProviderUsage)
    requires |PoolsOf(p, u)| >= 2
    ensures Flatten(PeekSections(p, u))
            == PoolRows(PoolOf(p, u, u.windows, GEM)) + PoolRows(PoolOf(p, u, u.windows, EXT))
  {
    SplitPoolsAre(p, u);
    FlattenPools(PoolOf(p, u, u.windows, GEM), PoolOf(p, u, u.windows, EXT));
    hide PoolOf, PoolsOf, PoolSections, PoolRows, Flatten, SingleRows;
  }

  lemma NamedRows(g: PoolQuota, e: PoolQuota)
    requires g.tag == GEM && e.tag == EXT
    ensures PoolRows(g) + PoolRows(e)
            == (if g.five.Some? then [Row("GEM.5h", g.five, false)] else [])
               + (if g.weekly.Some? then [Row("GEM.wk", g.weekly, false)] else [])
               + (if e.five.Some? then [Row("EXT.5h", e.five, false)] else [])
               + (if e.weekly.Some? then [Row("EXT.wk", e.weekly, false)] else [])
  {
    assert TagName(GEM) + ".5h" == "GEM.5h" && TagName(GEM) + ".wk" == "GEM.wk";
    assert TagName(EXT) + ".5h" == "EXT.5h" && TagName(EXT) + ".wk" == "EXT.wk";
    hide TagName;
  }
}
