/** A provider whose callout keeps five rows although the cap is four: two of its
    model-scoped windows have labels without ASCII letters or digits, and so one key. */
module PeekWitness {
  import opened Text
  import opened Wrappers
  import opened QuotaWindows
  import opened QuotaPools
  import opened Q = QuotaState
  import opened QuotaOrder
  import opened PeekTrim
  import opened PeekRows

  function Used(key: string, name: string, percent: real, minutes: Option<int>): QuotaWindow {
    QuotaWindow(Some(key), Some(name), Some(percent), None, minutes, None, None, None)
  }

  const MODEL_KEY := "scoped_model"

  function FiveHourWindow(): QuotaWindow { Used("5h", "5-hour", 20.0, None) }

  function WeeklyWindow(): QuotaWindow { Used("7d", "Weekly", 30.0, None) }

  function OpusWindow(): QuotaWindow { Used("scoped_opus", "Opus", 40.0, Some(10080)) }

  function FirstModel(): QuotaWindow { Used(MODEL_KEY, "\U{6A21}", 10.0, Some(10080)) }

  function SecondModel(): QuotaWindow { Used(MODEL_KEY, "\U{578B}", 90.0, Some(10080)) }

  function ScopedWindows(): seq<QuotaWindow> { [OpusWindow(), FirstModel(), SecondModel()] }

  function Claude(): ProviderUsage {
    ProviderUsage("claude", "ok", [FiveHourWindow()] + [WeeklyWindow()] + ScopedWindows(), None, None, None)
  }

  // ------------------------------------------------------------- classification

  lemma Scoped(w: QuotaWindow)
    requires w in ScopedWindows()
    ensures IsScoped(w) && NotchWindowKind(w) == None
  {
    var opus, model := "scoped_opus", MODEL_KEY;
    assert opus[..7] == "scoped_" && model[..7] == "scoped_";
    hide Contains, Haystack;
  }

  lemma Hays()
    ensures Haystack(FiveHourWindow()) == "5h 5-hour" && Haystack(WeeklyWindow()) == "7d weekly"
  {
    var a, b, c, d := "5h", "5-hour", "7d", "Weekly";
    assert Lower(a) == a && Lower(b) == b && Lower(c) == c;
    assert Lower(d) == "weekly";
  }

  lemma FiveHourKind()
    ensures NotchWindowKind(FiveHourWindow()) == Some(FiveHour)
  {
    var hay := "5h 5-hour";
    Hays();
    assert hay[0..2] == "5h";
    assert "5h"[0] == '5' && "scoped_"[0] == 's';
    hide Contains, Haystack;
    ContainsAt(hay, "5h", 0);
  }

  lemma WeeklyKind()
    ensures NotchWindowKind(WeeklyWindow()) == Some(Weekly)
  {
    var hay := "7d weekly";
    Hays();
    assert hay[0..2] == "7d" && '5' !in hay;
    assert "5h"[0] == '5' && "5-hour"[0] == '5' && "5 hour"[0] == '5' && "7d"[0] == '7' && "scoped_"[0] == 's';
    hide Contains, Haystack;
    ContainsChar(hay, "5h", '5');
    ContainsChar(hay, "5-hour", '5');
    ContainsChar(hay, "5 hour", '5');
    ContainsAt(hay, "7d", 0);
  }

  /** What counts for either kind: one window each. */
  lemma Counted()
    ensures var ws := Claude().windows;
            && LeastCounting(ws, FiveHourWindow(), FiveHour, None)
            && LeastCounting(ws, WeeklyWindow(), Weekly, None)
            && !Counts(FiveHourWindow(), Weekly, None)
            && !IsScoped(FiveHourWindow()) && !IsScoped(WeeklyWindow())
  {
    FiveHourKind();
    WeeklyKind();
    ScopedHasNoKind(FiveHourWindow());
    ScopedHasNoKind(WeeklyWindow());
    forall w | w in ScopedWindows() ensures NotchWindowKind(w) == None {
      Scoped(w);
    }
    hide NotchWindowKind, FiveHourWindow, WeeklyWindow, ScopedWindows, NotchWindowTag, IsScoped;
    assert FiveHourWindow().usedPercent.Some? && WeeklyWindow().usedPercent.Some? by {
      PlainUsed();
    }
  }

  lemma PlainUsed()
    ensures FiveHourWindow().usedPercent == Some(20.0) && WeeklyWindow().usedPercent == Some(30.0)
  {
  }

  // -------------------------------------------------------------------- the rows

  function Snap(w: QuotaWindow, kind: WindowKind, left: real): Option<Snapshot> {
    Some(Snapshot(w, kind, left, None, NotchWindowTag(w), false))
  }

  lemma Snapped(p: Presenter, w: QuotaWindow, kind: WindowKind)
    requires w.usedPercent.Some? && w.resetsAt == None && 5.0 < w.usedPercent.value < 100.0
    ensures TakeSnapshot(p, Claude(), w, kind) == Snap(w, kind, 100.0 - w.usedPercent.value)
  {
    assert Trim("", Text.Blank) == "";
    hide NotchWindowTag, Trim;
  }

  lemma Snaps(p: Presenter)
    ensures TakeSnapshot(p, Claude(), FiveHourWindow(), FiveHour) == Snap(FiveHourWindow(), FiveHour, 80.0)
    ensures TakeSnapshot(p, Claude(), WeeklyWindow(), Weekly) == Snap(WeeklyWindow(), Weekly, 70.0)
  {
    Snapped(p, FiveHourWindow(), FiveHour);
    Snapped(p, WeeklyWindow(), Weekly);
    PlainUsed();
    hide TakeSnapshot, Snap, Claude;
  }

  lemma ActiveIsPick(p: Presenter, u: ProviderUsage, kind: WindowKind)
    ensures ActiveWindow(p, u, kind) == Pick(p, u, kind, None)
  {
    hide Least, Snapshots;
  }

  lemma FirstTwo(p: Presenter, u: ProviderUsage, a: QuotaWindow, b: QuotaWindow, rest: seq<QuotaWindow>)
    requires u.windows == [a] + [b] + rest && !Counts(a, Weekly, None)
    requires LeastCounting(u.windows, a, FiveHour, None) && LeastCounting(u.windows, b, Weekly, None)
    ensures ActiveWindow(p, u, FiveHour) == TakeSnapshot(p, u, a, FiveHour)
    ensures ActiveWindow(p, u, Weekly) == TakeSnapshot(p, u, b, Weekly)
  {
    hide *;
    ActiveIsPick(p, u, FiveHour);
    ActiveIsPick(p, u, Weekly);
    assert u.windows == [] + [a] + ([b] + rest);
    FirstPick(p, u, [], a, [b] + rest, FiveHour, None);
    FirstPick(p, u, [a], b, rest, Weekly, None);
  }

  lemma ActiveWindows(p: Presenter)
    ensures ActiveWindow(p, Claude(), FiveHour) == Snap(FiveHourWindow(), FiveHour, 80.0)
    ensures ActiveWindow(p, Claude(), Weekly) == Snap(WeeklyWindow(), Weekly, 70.0)
  {
    Snaps(p);
    Counted();
    ClaudeWindows();
    hide *;
    FirstTwo(p, Claude(), FiveHourWindow(), WeeklyWindow(), ScopedWindows());
  }

  lemma ClaudeWindows()
    ensures Claude().windows == [FiveHourWindow()] + [WeeklyWindow()] + ScopedWindows()
  {
    hide FiveHourWindow, WeeklyWindow, ScopedWindows;
  }

  function ModelRow(w: QuotaWindow, left: real): Row {
    Row("scoped.scoped_model", Snap(w, Weekly, left), false)
  }

  function OpusRow(): Row {
    Row("scoped.scoped_opus", Snap(OpusWindow(), Weekly, 60.0), false)
  }

  function FiveRow(): Row { Row("5h", Snap(FiveHourWindow(), FiveHour, 80.0), false) }

  function WeekRow(): Row { Row("wk", Snap(WeeklyWindow(), Weekly, 70.0), false) }

  function Shown(): seq<Row> {
    [FiveRow(), WeekRow(), OpusRow(), ModelRow(FirstModel(), 90.0), ModelRow(SecondModel(), 10.0)]
  }

  lemma {:induction false} ScopedOfAll(ws: seq<QuotaWindow>)
    requires forall w | w in ws :: IsScoped(w) && w.usedPercent.Some?
    ensures ScopedOf(ws) == ws
  {
    hide IsScoped;
    if ws != [] {
      assert ws[|ws| - 1] in ws;
      ScopedOfAll(ws[..|ws| - 1]);
      assert ws == ws[..|ws| - 1] + [ws[|ws| - 1]];
    }
  }

  lemma {:induction false} ScopedOfBehind(before: seq<QuotaWindow>, ws: seq<QuotaWindow>)
    requires forall w | w in before :: !IsScoped(w)
    ensures ScopedOf(before + ws) == ScopedOf(ws)
    decreases |before| + |ws|
  {
    hide IsScoped;
    var all := before + ws;
    if ws != [] {
      assert all[..|all| - 1] == before + ws[..|ws| - 1] && all[|all| - 1] == ws[|ws| - 1];
      ScopedOfBehind(before, ws[..|ws| - 1]);
    } else if before != [] {
      assert all == before && before[|before| - 1] in before;
      assert before[..|before| - 1] + [] == before[..|before| - 1];
      ScopedOfBehind(before[..|before| - 1], []);
    } else {
      assert all == ws;
    }
  }

  lemma AllScoped()
    ensures forall w | w in ScopedWindows() :: IsScoped(w) && w.usedPercent.Some?
  {
    forall w | w in ScopedWindows() ensures IsScoped(w) {
      Scoped(w);
    }
    hide IsScoped;
  }

  lemma ScopedOfClaude()
    ensures ScopedOf(Claude().windows) == ScopedWindows()
  {
    var plain, ws := [FiveHourWindow()] + [WeeklyWindow()], ScopedWindows();
    Counted();
    AllScoped();
    assert Claude().windows == plain + ws;
    hide *;
    assert forall w | w in plain :: !IsScoped(w);
    ScopedOfAll(ws);
    ScopedOfBehind(plain, ws);
  }

  lemma RowsOfThree(p: Presenter, u: ProviderUsage, a: QuotaWindow, b: QuotaWindow, c: QuotaWindow)
    ensures ScopedRows(p, u, [a, b, c]) == [ScopedRow(p, u, a), ScopedRow(p, u, b), ScopedRow(p, u, c)]
  {
    ScopedRowsAre(p, u, [a, b, c]);
    hide *;
  }

  lemma ScopedShown(p: Presenter)
    ensures ScopedRows(p, Claude(), ScopedOf(Claude().windows))
            == [OpusRow(), ModelRow(FirstModel(), 90.0), ModelRow(SecondModel(), 10.0)]
  {
    ScopedOfClaude();
    assert ScopedWindows() == [OpusWindow(), FirstModel(), SecondModel()];
    hide *;
    RowsOfThree(p, Claude(), OpusWindow(), FirstModel(), SecondModel());
    ScopedRowOf(p);
  }

  lemma ScopedRowOf(p: Presenter)
    ensures ScopedRow(p, Claude(), OpusWindow()) == OpusRow()
    ensures ScopedRow(p, Claude(), FirstModel()) == ModelRow(FirstModel(), 90.0)
    ensures ScopedRow(p, Claude(), SecondModel()) == ModelRow(SecondModel(), 10.0)
  {
    Snapped(p, OpusWindow(), Weekly);
    Snapped(p, FirstModel(), Weekly);
    Snapped(p, SecondModel(), Weekly);
    hide TakeSnapshot, Snap, Claude;
    assert "scoped." + "scoped_opus" == "scoped.scoped_opus" && "scoped." + MODEL_KEY == "scoped.scoped_model";
  }

  lemma NotUncapped()
    ensures !TemporarilyUncapped(Claude())
  {
    var name := "claude";
    assert Lower(name)[1] == 'l' && "codex"[1] == 'o';
    hide LooksWeekly, LooksFiveHour;
  }

  lemma PlainShown(p: Presenter)
    ensures PlainRows(p, Claude()) == [FiveRow(), WeekRow()]
  {
    ActiveWindows(p);
    NotUncapped();
    assert Snap(FiveHourWindow(), FiveHour, 80.0).Some? && Snap(WeeklyWindow(), Weekly, 70.0).Some?;
    hide ActiveWindow, TemporarilyUncapped, Snap, Claude;
  }

  lemma RowsShown(p: Presenter)
    ensures SingleRows(p, Claude()) == Shown()
  {
    PlainShown(p);
    ScopedShown(p);
    hide PlainRows, ScopedRows, ScopedOf, FiveRow, WeekRow, OpusRow, ModelRow, Claude;
  }

  lemma NoPools(p: Presenter)
    ensures PoolsOf(p, Claude()) == []
  {
    assert "claude"[0] == 'c' && "antigravity"[0] == 'a';
    hide PoolOf;
  }

  lemma SectionsShown(p: Presenter)
    ensures PeekSections(p, Claude()) == [Section("windows", None, Shown())]
  {
    RowsShown(p);
    NoPools(p);
    assert |Shown()| == 5;
    hide PoolsOf, SingleRows, Shown, Claude;
  }

  // ------------------------------------------------------------------ the callout

  /** The rows by urgency: 10, 60, 70, 80 and 90 percent left. */
  function ByUrgency(): seq<Row> {
    [ModelRow(SecondModel(), 10.0), OpusRow(), WeekRow(), FiveRow(), ModelRow(FirstModel(), 90.0)]
  }

  lemma Urgencies()
    ensures UrgencyOf(FiveRow()) == Urgency.Finite(80.0) && UrgencyOf(WeekRow()) == Urgency.Finite(70.0)
    ensures UrgencyOf(OpusRow()) == Urgency.Finite(60.0)
    ensures UrgencyOf(ModelRow(FirstModel(), 90.0)) == Urgency.Finite(90.0)
    ensures UrgencyOf(ModelRow(SecondModel(), 10.0)) == Urgency.Finite(10.0)
  {
    hide NotchWindowTag, FiveHourWindow, WeeklyWindow, OpusWindow, FirstModel, SecondModel;
  }

  lemma FiveByUrgency(a: Row, b: Row, c: Row, d: Row, e: Row)
    requires UrgencyOf(e) == Urgency.Finite(10.0) && UrgencyOf(c) == Urgency.Finite(60.0)
    requires UrgencyOf(b) == Urgency.Finite(70.0)
    requires UrgencyOf(a) == Urgency.Finite(80.0) && UrgencyOf(d) == Urgency.Finite(90.0)
    ensures IsSorting([a, b, c, d, e], [e, c, b, a, d])
  {
    hide UrgencyOf;
  }

  lemma IdsShown()
    ensures ModelRow(FirstModel(), 90.0).id == ModelRow(SecondModel(), 10.0).id
  {
  }

  lemma LastIsKept(rows: seq<Row>)
    requires |rows| == 5 && rows[0].id == rows[4].id
    ensures |OnlyIds(rows[4..], Ids(rows[..4]))| == 1
  {
    var keep := Ids(rows[..4]);
    assert rows[..4][0] == rows[0];
    assert rows[4].id in keep;
    assert rows[4..] == [rows[4]] && [rows[4]][1..] == [];
    hide Ids;
  }

  /** Five rows are kept, of which the last in urgency shares its id with the first. */
  lemma RepeatedIdBreaksTheCap(p: Presenter)
    ensures var sections := PeekSections(p, Claude());
            && IsSorting(Flatten(sections), ByUrgency())
            && |Flatten(Capped(sections, ByUrgency()))| == 5 == MAX_ROWS + 1
  {
    var sections, rows := PeekSections(p, Claude()), ByUrgency();
    SectionsShown(p);
    OneSection(Shown());
    Urgencies();
    IdsShown();
    hide UrgencyOf, IsSorting, Flatten, Capped, OnlyIds, Ids, PeekSections;
    hide FiveRow, WeekRow, OpusRow, ModelRow;
    FiveByUrgency(FiveRow(), WeekRow(), OpusRow(), ModelRow(FirstModel(), 90.0), ModelRow(SecondModel(), 10.0));
    hide FirstModel, SecondModel, Claude;
    RowsKept(sections, rows);
    LastIsKept(rows);
  }
}
