/** What the order of a provider's windows can change about its card: which of the
    windows tied for the least remaining quota is picked, and with it whether a
    blocked card is locked or recovering. */
module QuotaOrder {
  import opened Wrappers
  import opened QuotaWindows
  import opened QuotaPools
  import opened Q = QuotaState

  // --------------------------------------------------------- from the raw windows

  /** A window of the kind (and tag, if given) with the least remaining quota. */
  predicate LeastCounting(ws: seq<QuotaWindow>, w: QuotaWindow, kind: WindowKind, tag: Option<PoolTag>) {
    && w in ws && Counts(w, kind, tag)
    && forall v | v in ws && Counts(v, kind, tag) :: Remaining(w) <= Remaining(v)
  }

  /** The window's reset is anchored and has passed. */
  predicate WindowDue(p: Presenter, u: ProviderUsage, w: QuotaWindow) {
    && !IsWindowIdle(p, w, u.fetchedAt)
    && var reset := ParseISODate(p, w.resetsAt);
       reset.Some? && reset.value <= p.now
  }

  predicate SomeDue(p: Presenter, u: ProviderUsage, kind: WindowKind, tag: Option<PoolTag>) {
    exists w | w in u.windows :: LeastCounting(u.windows, w, kind, tag) && WindowDue(p, u, w)
  }

  predicate AllDue(p: Presenter, u: ProviderUsage, kind: WindowKind, tag: Option<PoolTag>) {
    && (exists w | w in u.windows :: Counts(w, kind, tag))
    && forall w | w in u.windows && LeastCounting(u.windows, w, kind, tag) :: WindowDue(p, u, w)
  }

  /** The kind of window that keeps a spent pool blocked longest. */
  function BlockKind(u: ProviderUsage, tag: PoolTag): WindowKind {
    if WeeklySpent(u, tag) then Weekly else FiveHour
  }

  predicate Usable(u: ProviderUsage, w: QuotaWindow) {
    && w.remaining.Some? && w.remaining.value > 0.0
    && (u.provider != "claude" || w.enabled == Some(true))
  }

  /** No credits window has a usable balance, so none is first in any order. */
  predicate NoUsableCredits(u: ProviderUsage) {
    forall w | w in u.windows && w.key == Some("ai_credits") :: !Usable(u, w)
  }

  predicate Reorders(ws: seq<QuotaWindow>, u: ProviderUsage) {
    multiset(ws) == multiset(u.windows)
  }

  function ModeIn(p: Presenter, u: ProviderUsage, ws: seq<QuotaWindow>): Mode {
    Q.QuotaState(p, u.(windows := ws)).mode
  }

  // -------------------------------------------------------------- the one picked

  function Pick(p: Presenter, u: ProviderUsage, kind: WindowKind, tag: Option<PoolTag>): Option<Snapshot> {
    Least(Snapshots(p, u, u.windows, kind, tag))
  }

  /** The pick is a least window, and is due exactly when that window is. */
  lemma PickIsLeast(p: Presenter, u: ProviderUsage, kind: WindowKind, tag: Option<PoolTag>)
    ensures var pick := Pick(p, u, kind, tag);
            && (pick.None? <==> forall w | w in u.windows :: !Counts(w, kind, tag))
            && (pick.Some? ==> LeastCounting(u.windows, pick.value.window, kind, tag))
            && (AwaitingReset(p, pick) <==> pick.Some? && WindowDue(p, u, pick.value.window))
  {
    var snaps := Snapshots(p, u, u.windows, kind, tag);
    SnapshotsMembers(p, u, u.windows, kind, tag);
    LeastIsMinimum(snaps);
    assert forall w | Counts(w, kind, tag) :: w.usedPercent.Some? && TakeSnapshot(p, u, w, kind).Some?;
    hide Counts, NotchWindowKind, NotchWindowTag, IsWindowIdle, Remaining, Least, Snapshots;
    var pick := Pick(p, u, kind, tag);
    forall w | w in u.windows && Counts(w, kind, tag)
      ensures w.usedPercent.Some? && pick.Some? && pick.value.remaining <= Remaining(w)
    {
      var s := TakeSnapshot(p, u, w, kind).value;
      assert s in snaps;
    }
  }

  lemma SamePick(ws: seq<QuotaWindow>, u: ProviderUsage, w: QuotaWindow, kind: WindowKind, tag: Option<PoolTag>)
    requires Reorders(ws, u)
    ensures LeastCounting(ws, w, kind, tag) <==> LeastCounting(u.windows, w, kind, tag)
  {
    SameMembers(ws, u);
    hide Counts, Remaining;
  }

  lemma SameMembers(ws: seq<QuotaWindow>, u: ProviderUsage)
    requires Reorders(ws, u)
    ensures forall w :: w in ws <==> w in u.windows
  {
    assert forall w :: w in ws <==> w in multiset(ws);
    assert forall w :: w in u.windows <==> w in multiset(u.windows);
  }

  /** A least window that comes before every other window that counts is picked. */
  lemma FirstPick(p: Presenter, u: ProviderUsage, before: seq<QuotaWindow>, w: QuotaWindow, rest: seq<QuotaWindow>,
                  kind: WindowKind, tag: Option<PoolTag>)
    requires u.windows == before + [w] + rest && LeastCounting(u.windows, w, kind, tag)
    requires forall v | v in before :: !Counts(v, kind, tag)
    ensures Pick(p, u, kind, tag).Some? && Pick(p, u, kind, tag).value.window == w
    ensures Pick(p, u, kind, tag) == TakeSnapshot(p, u, w, kind)
  {
    var snaps := Snapshots(p, u, u.windows, kind, tag);
    assert Counts(w, kind, tag);
    FirstSnapshot(p, u, before, w, rest, kind, tag);
    LeastRemaining(p, u, w, kind, tag);
    assert Pick(p, u, kind, tag) == Least(snaps);
    hide *;
    LeastPrefersTheFirst(snaps);
  }

  lemma FirstSnapshot(p: Presenter, u: ProviderUsage, before: seq<QuotaWindow>, w: QuotaWindow,
                      rest: seq<QuotaWindow>, kind: WindowKind, tag: Option<PoolTag>)
    requires u.windows == before + [w] + rest && Counts(w, kind, tag)
    requires forall v | v in before :: !Counts(v, kind, tag)
    ensures TakeSnapshot(p, u, w, kind).Some? && TakeSnapshot(p, u, w, kind).value.window == w
    ensures var snaps := Snapshots(p, u, u.windows, kind, tag);
            snaps != [] && snaps[0] == TakeSnapshot(p, u, w, kind).value
  {
    hide *;
    OneSnapshot(p, u, w, kind, tag);
    assert u.windows == before + ([w] + rest);
    NoneCounted(p, u, before, kind, tag);
    SnapshotsConcat(p, u, before, [w] + rest, kind, tag);
    SnapshotsConcat(p, u, [w], rest, kind, tag);
  }

  lemma LeastRemaining(p: Presenter, u: ProviderUsage, w: QuotaWindow, kind: WindowKind, tag: Option<PoolTag>)
    requires LeastCounting(u.windows, w, kind, tag)
    ensures TakeSnapshot(p, u, w, kind).Some?
    ensures forall s | s in Snapshots(p, u, u.windows, kind, tag) ::
              TakeSnapshot(p, u, w, kind).value.remaining <= s.remaining
  {
    SnapshotsMembers(p, u, u.windows, kind, tag);
    assert TakeSnapshot(p, u, w, kind).Some?;
    hide Counts, Snapshots, Remaining, IsWindowIdle, NotchWindowTag;
  }

  lemma {:induction false} NoneCounted(p: Presenter, u: ProviderUsage, ws: seq<QuotaWindow>, kind: WindowKind,
                                       tag: Option<PoolTag>)
    requires forall v | v in ws :: !Counts(v, kind, tag)
    ensures Snapshots(p, u, ws, kind, tag) == []
  {
    hide Counts, TakeSnapshot;
    if ws != [] {
      assert ws[|ws| - 1] in ws;
      NoneCounted(p, u, ws[..|ws| - 1], kind, tag);
    }
  }

  lemma OneSnapshot(p: Presenter, u: ProviderUsage, w: QuotaWindow, kind: WindowKind, tag: Option<PoolTag>)
    requires Counts(w, kind, tag)
    ensures TakeSnapshot(p, u, w, kind).Some? && TakeSnapshot(p, u, w, kind).value.window == w
    ensures Snapshots(p, u, [w], kind, tag) == [TakeSnapshot(p, u, w, kind).value]
  {
    assert TakeSnapshot(p, u, w, kind).Some?;
    hide NotchWindowKind, NotchWindowTag, IsWindowIdle, Remaining;
    assert [w][..0] == [];
    assert Snapshots(p, u, [], kind, tag) == [];
  }

  // ------------------------------------------------------------------ reorderings

  lemma {:induction false} ToFront(ws: seq<QuotaWindow>, w: QuotaWindow) returns (rest: seq<QuotaWindow>)
    requires w in ws
    ensures multiset([w] + rest) == multiset(ws)
  {
    assert ws == [ws[0]] + ws[1..];
    if ws[0] == w {
      rest := ws[1..];
    } else {
      var tail := ToFront(ws[1..], w);
      rest := [ws[0]] + tail;
      assert multiset([w] + rest) == multiset{ws[0]} + multiset([w] + tail);
    }
  }

  lemma TwoToFront(ws: seq<QuotaWindow>, a: QuotaWindow, b: QuotaWindow) returns (rest: seq<QuotaWindow>)
    requires a in ws && b in ws && a != b
    ensures multiset([a] + [b] + rest) == multiset(ws)
  {
    var others := ToFront(ws, a);
    assert b in multiset(ws);
    assert b in multiset([a] + others);
    assert b in others;
    rest := ToFront(others, b);
    assert multiset([a] + [b] + rest) == multiset{a} + multiset([b] + rest);
  }

  lemma {:induction false} FirstCreditsMember(ws: seq<QuotaWindow>)
    ensures var w := FirstCredits(ws);
            w.Some? ==> w.value in ws && w.value.key == Some("ai_credits")
  {
    if ws != [] {
      FirstCreditsMember(ws[..|ws| - 1]);
    }
  }

  lemma NoCreditsInAnyOrder(u: ProviderUsage, ws: seq<QuotaWindow>)
    requires Reorders(ws, u) && NoUsableCredits(u)
    ensures !HasCredits(u.(windows := ws))
  {
    FirstCreditsMember(ws);
    SameMembers(ws, u);
    hide FirstCredits;
  }

  lemma SpentInAnyOrder(u: ProviderUsage, ws: seq<QuotaWindow>, tag: PoolTag)
    requires Reorders(ws, u)
    ensures var v := u.(windows := ws);
            (Spent(v, tag) <==> Spent(u, tag)) && BlockKind(v, tag) == BlockKind(u, tag)
  {
    SameMembers(ws, u);
    hide Counts, Remaining;
  }

  lemma {:induction false} FacesCount(pools: seq<PoolQuota>)
    ensures |Faces(pools)| == |pools|
  {
    hide FaceOf;
    if pools != [] {
      FacesCount(pools[1..]);
    }
  }

  lemma PoolsInAnyOrder(p: Presenter, u: ProviderUsage, ws: seq<QuotaWindow>)
    requires Reorders(ws, u)
    ensures |PoolsOf(p, u.(windows := ws))| == |PoolsOf(p, u)|
  {
    SameMembers(ws, u);
    PoolsIgnoreWindowOrder(p, u, ws);
    FacesCount(PoolsOf(p, u));
    FacesCount(PoolsOf(p, u.(windows := ws)));
    hide PoolsOf, Faces;
  }

  // ------------------------------------------------------------------ split cards

  /** Both pools spent, nothing to pay with, and a time before the year 4001. */
  predicate Blocked2(p: Presenter, u: ProviderUsage) {
    && u.provider == "antigravity" && u.status == "ok" && p.now < DISTANT_FUTURE
    && Spent(u, GEM) && Spent(u, EXT) && NoUsableCredits(u)
  }

  lemma SpentPools(p: Presenter, u: ProviderUsage)
    requires u.provider == "antigravity" && Spent(u, GEM) && Spent(u, EXT)
    ensures |PoolsOf(p, u)| >= 2
  {
    PoolSideIsMinimum(p, u, u.windows, GEM, FiveHour);
    PoolSideIsMinimum(p, u, u.windows, GEM, Weekly);
    PoolSideIsMinimum(p, u, u.windows, EXT, FiveHour);
    PoolSideIsMinimum(p, u, u.windows, EXT, Weekly);
    hide PoolOf, Counts, Remaining, TakeSnapshot;
  }

  lemma PoolWaitsForPick(p: Presenter, u: ProviderUsage, tag: PoolTag)
    ensures BlockingSnapshot(PoolOf(p, u, u.windows, tag)) == Pick(p, u, BlockKind(u, tag), Some(tag))
  {
    WeekZeroMeansSpent(p, u, tag);
    hide WeeklySpent, Least, Snapshots, WeekZero;
  }

  /** The mode of one order, by its two picks. */
  lemma ModeByPicks(p: Presenter, u: ProviderUsage, ws: seq<QuotaWindow>)
    requires Blocked2(p, u) && Reorders(ws, u)
    ensures var v := u.(windows := ws);
            ModeIn(p, u, ws)
            == if || AwaitingReset(p, Pick(p, v, BlockKind(v, GEM), Some(GEM)))
                  || AwaitingReset(p, Pick(p, v, BlockKind(v, EXT), Some(EXT)))
               then Recovering else Locked
  {
    var v := u.(windows := ws);
    SpentInAnyOrder(u, ws, GEM);
    SpentInAnyOrder(u, ws, EXT);
    NoCreditsInAnyOrder(u, ws);
    SpentPools(p, v);
    hide PoolsOf, Spent, HasCredits, BlockKind, NoUsableCredits;
    SplitModeMeetsSpec(p, v);
    PoolWaitsForPick(p, v, GEM);
    PoolWaitsForPick(p, v, EXT);
    var g, e := PoolOf(p, v, v.windows, GEM), PoolOf(p, v, v.windows, EXT);
    assert Due(p, g) <==> AwaitingReset(p, Pick(p, v, BlockKind(v, GEM), Some(GEM)));
    assert Due(p, e) <==> AwaitingReset(p, Pick(p, v, BlockKind(v, EXT), Some(EXT)));
    hide Pick, BlockKind, AwaitingReset, BlockingSnapshot, PoolOf, Due, Overshadowed, Q.QuotaState;
    SomeTagDue(p, v);
  }

  lemma SomeTagDue(p: Presenter, v: ProviderUsage)
    ensures (exists tag: PoolTag :: Due(p, PoolOf(p, v, v.windows, tag)))
            <==> Due(p, PoolOf(p, v, v.windows, GEM)) || Due(p, PoolOf(p, v, v.windows, EXT))
  {
    hide Due, PoolOf;
    forall tag: PoolTag | Due(p, PoolOf(p, v, v.windows, tag))
      ensures Due(p, PoolOf(p, v, v.windows, GEM)) || Due(p, PoolOf(p, v, v.windows, EXT))
    {
      match tag { case GEM => case EXT => }
    }
  }

  /** A pick in any order is one of the least windows. */
  lemma PickInAnyOrder(p: Presenter, u: ProviderUsage, ws: seq<QuotaWindow>, kind: WindowKind, tag: Option<PoolTag>)
    requires Reorders(ws, u)
    ensures var pick := Pick(p, u.(windows := ws), kind, tag);
            && (AllDue(p, u, kind, tag) ==> AwaitingReset(p, pick))
            && (AwaitingReset(p, pick) ==> SomeDue(p, u, kind, tag))
  {
    var v := u.(windows := ws);
    var pick := Pick(p, v, kind, tag);
    PickIsLeast(p, v, kind, tag);
    SameMembers(ws, u);
    if pick.Some? {
      var w := pick.value.window;
      SamePick(ws, u, w, kind, tag);
      assert WindowDue(p, v, w) == WindowDue(p, u, w);
      hide WindowDue, LeastCounting, AwaitingReset, Counts;
    } else {
      hide WindowDue, LeastCounting, Counts;
    }
  }

  lemma NotAllDue(p: Presenter, u: ProviderUsage, tag: PoolTag) returns (w: QuotaWindow)
    requires Spent(u, tag) && !AllDue(p, u, BlockKind(u, tag), Some(tag))
    ensures LeastCounting(u.windows, w, BlockKind(u, tag), Some(tag)) && !WindowDue(p, u, w)
  {
    assert exists w | w in u.windows :: Counts(w, BlockKind(u, tag), Some(tag)) by {
      hide Remaining, NotchWindowKind, NotchWindowTag;
    }
    hide LeastCounting, WindowDue, Counts, Spent, BlockKind;
    w :| w in u.windows && LeastCounting(u.windows, w, BlockKind(u, tag), Some(tag)) && !WindowDue(p, u, w);
  }

  /** Least windows of both tags, put first, are both picked. */
  lemma OrderWithTwo(p: Presenter, u: ProviderUsage, a: QuotaWindow, b: QuotaWindow) returns (ws: seq<QuotaWindow>)
    requires Blocked2(p, u)
    requires LeastCounting(u.windows, a, BlockKind(u, GEM), Some(GEM))
    requires LeastCounting(u.windows, b, BlockKind(u, EXT), Some(EXT))
    ensures Reorders(ws, u)
    ensures ModeIn(p, u, ws) == if WindowDue(p, u, a) || WindowDue(p, u, b) then Recovering else Locked
  {
    var ka, kb := BlockKind(u, GEM), BlockKind(u, EXT);
    assert a in u.windows && Counts(a, ka, Some(GEM)) && b in u.windows && Counts(b, kb, Some(EXT));
    assert a != b && !Counts(a, kb, Some(EXT)) by {
      hide NotchWindowKind, NotchWindowTag;
    }
    hide Blocked2, LeastCounting, BlockKind, ModeIn, Counts, AwaitingReset, Pick;
    var rest := TwoToFront(u.windows, a, b);
    ws := [a] + [b] + rest;
    assert Reorders(ws, u);
    hide Reorders;
    var v := u.(windows := ws);
    SpentInAnyOrder(u, ws, GEM);
    SpentInAnyOrder(u, ws, EXT);
    hide Spent;
    SamePick(ws, u, a, ka, Some(GEM));
    SamePick(ws, u, b, kb, Some(EXT));
    ModeByPicks(p, u, ws);
    TwoPicked(p, v, a, b, rest, ka, kb);
    DueInAnyOrder(p, u, ws, a);
    DueInAnyOrder(p, u, ws, b);
    hide WindowDue;
  }

  lemma TwoPicked(p: Presenter, v: ProviderUsage, a: QuotaWindow, b: QuotaWindow, rest: seq<QuotaWindow>,
                  ka: WindowKind, kb: WindowKind)
    requires v.windows == [a] + [b] + rest && !Counts(a, kb, Some(EXT))
    requires LeastCounting(v.windows, a, ka, Some(GEM)) && LeastCounting(v.windows, b, kb, Some(EXT))
    ensures AwaitingReset(p, Pick(p, v, ka, Some(GEM))) <==> WindowDue(p, v, a)
    ensures AwaitingReset(p, Pick(p, v, kb, Some(EXT))) <==> WindowDue(p, v, b)
  {
    hide *;
    assert v.windows == [] + [a] + ([b] + rest);
    PickedIsDue(p, v, [], a, [b] + rest, ka, Some(GEM));
    PickedIsDue(p, v, [a], b, rest, kb, Some(EXT));
  }

  lemma PickedIsDue(p: Presenter, v: ProviderUsage, before: seq<QuotaWindow>, w: QuotaWindow,
                       rest: seq<QuotaWindow>, kind: WindowKind, tag: Option<PoolTag>)
    requires v.windows == before + [w] + rest && LeastCounting(v.windows, w, kind, tag)
    requires forall x | x in before :: !Counts(x, kind, tag)
    ensures AwaitingReset(p, Pick(p, v, kind, tag)) <==> WindowDue(p, v, w)
  {
    FirstPick(p, v, before, w, rest, kind, tag);
    PickIsLeast(p, v, kind, tag);
    hide LeastCounting, Counts, WindowDue, AwaitingReset, Pick;
  }

  /** A due least window, put first, is picked. */
  lemma RecoveringOrder(p: Presenter, u: ProviderUsage, tag: PoolTag, w: QuotaWindow) returns (ws: seq<QuotaWindow>)
    requires Blocked2(p, u) && LeastCounting(u.windows, w, BlockKind(u, tag), Some(tag)) && WindowDue(p, u, w)
    ensures Reorders(ws, u) && ModeIn(p, u, ws) == Recovering
  {
    hide *;
    var kind := BlockKind(u, tag);
    var order, rest := PutFirst(u, w, kind, Some(tag));
    ws := order;
    var v := u.(windows := ws);
    SpentInAnyOrder(u, ws, tag);
    SamePick(ws, u, w, kind, Some(tag));
    DueInAnyOrder(p, u, ws, w);
    ModeByPicks(p, u, ws);
    assert ws == [] + [w] + rest;
    PickedIsDue(p, v, [], w, rest, kind, Some(tag));
    assert tag == GEM || tag == EXT;
  }

  lemma DueWindow(p: Presenter, u: ProviderUsage, kind: WindowKind, tag: Option<PoolTag>) returns (w: QuotaWindow)
    requires SomeDue(p, u, kind, tag)
    ensures LeastCounting(u.windows, w, kind, tag) && WindowDue(p, u, w)
  {
    hide LeastCounting, WindowDue;
    w :| w in u.windows && LeastCounting(u.windows, w, kind, tag) && WindowDue(p, u, w);
  }

  lemma DueInAnyOrder(p: Presenter, u: ProviderUsage, ws: seq<QuotaWindow>, w: QuotaWindow)
    ensures WindowDue(p, u.(windows := ws), w) == WindowDue(p, u, w)
  {
    hide IsWindowIdle, ParseISODate;
  }

  /** A split card with both pools spent and no credits, over all orders of its
      windows: recovering in each iff some tag's least blocking windows are all due,
      locked in each iff no tag has one that is, and both in turn otherwise. */
  lemma SplitModeOverOrders(p: Presenter, u: ProviderUsage)
    requires Blocked2(p, u)
    ensures forall ws | Reorders(ws, u) :: ModeIn(p, u, ws) == Recovering || ModeIn(p, u, ws) == Locked
    ensures (forall ws | Reorders(ws, u) :: ModeIn(p, u, ws) == Recovering)
            <==> exists tag: PoolTag :: AllDue(p, u, BlockKind(u, tag), Some(tag))
    ensures (forall ws | Reorders(ws, u) :: ModeIn(p, u, ws) == Locked)
            <==> forall tag: PoolTag :: !SomeDue(p, u, BlockKind(u, tag), Some(tag))
  {
    forall ws | Reorders(ws, u)
      ensures ModeIn(p, u, ws) == Recovering || ModeIn(p, u, ws) == Locked
      ensures (exists tag: PoolTag :: AllDue(p, u, BlockKind(u, tag), Some(tag))) ==> ModeIn(p, u, ws) == Recovering
      ensures ModeIn(p, u, ws) == Recovering ==> exists tag: PoolTag :: SomeDue(p, u, BlockKind(u, tag), Some(tag))
    {
      hide *;
      ModeByPicks(p, u, ws);
      SpentInAnyOrder(u, ws, GEM);
      SpentInAnyOrder(u, ws, EXT);
      PickInAnyOrder(p, u, ws, BlockKind(u, GEM), Some(GEM));
      PickInAnyOrder(p, u, ws, BlockKind(u, EXT), Some(EXT));
      if tag: PoolTag :| AllDue(p, u, BlockKind(u, tag), Some(tag)) {
        match tag { case GEM => case EXT => }
      }
    }
    assert Spent(u, GEM) && Spent(u, EXT);
    hide *;
    if !AllDue(p, u, BlockKind(u, GEM), Some(GEM)) && !AllDue(p, u, BlockKind(u, EXT), Some(EXT)) {
      var a := NotAllDue(p, u, GEM);
      var b := NotAllDue(p, u, EXT);
      var ws := OrderWithTwo(p, u, a, b);
    }
    if tag: PoolTag :| SomeDue(p, u, BlockKind(u, tag), Some(tag)) {
      var w := DueWindow(p, u, BlockKind(u, tag), Some(tag));
      var ws := RecoveringOrder(p, u, tag, w);
    }
  }

  // ----------------------------------------------------------------- single cards

  predicate Blocked1(p: Presenter, u: ProviderUsage) {
    && |PoolsOf(p, u)| < 2 && u.status == "ok" && NoUsableCredits(u)
    && (if u.limitReached.Some? then u.limitReached.value else KindSpent(u, FiveHour) || KindSpent(u, Weekly))
  }

  /** The kind of window a blocked single-pool card waits for. */
  function WaitedKind(u: ProviderUsage): WindowKind {
    if WaitsForWeekly(u) then Weekly else FiveHour
  }

  lemma WaitsInAnyOrder(u: ProviderUsage, ws: seq<QuotaWindow>)
    requires Reorders(ws, u)
    ensures var v := u.(windows := ws);
            && WaitedKind(v) == WaitedKind(u)
            && forall kind :: KindSpent(v, kind) <==> KindSpent(u, kind)
  {
    SameMembers(ws, u);
    hide Counts, Remaining;
    assert forall kind :: KindSpent(u.(windows := ws), kind) <==> KindSpent(u, kind);
    assert WeeklyTighter(u.(windows := ws)) <==> WeeklyTighter(u);
    hide KindSpent, WeeklyTighter;
  }

  lemma SingleModeByPick(p: Presenter, u: ProviderUsage, ws: seq<QuotaWindow>)
    requires Blocked1(p, u) && Reorders(ws, u)
    ensures ModeIn(p, u, ws)
            == if AwaitingReset(p, Pick(p, u.(windows := ws), WaitedKind(u), None)) then Recovering else Locked
  {
    var v := u.(windows := ws);
    PoolsInAnyOrder(p, u, ws);
    WaitsInAnyOrder(u, ws);
    NoCreditsInAnyOrder(u, ws);
    hide PoolsOf, HasCredits, NoUsableCredits, KindSpent, WaitsForWeekly, AwaitingReset, Least, Snapshots, Q.QuotaState;
    SinglePoolVerdict(p, v);
  }

  /** The same for a blocked single-pool card and the least windows of the kind it
      waits for, which are the provider's to report and need not be spent. */
  lemma SingleModeOverOrders(p: Presenter, u: ProviderUsage)
    requires Blocked1(p, u)
    ensures forall ws | Reorders(ws, u) :: ModeIn(p, u, ws) == Recovering || ModeIn(p, u, ws) == Locked
    ensures (forall ws | Reorders(ws, u) :: ModeIn(p, u, ws) == Recovering) <==> AllDue(p, u, WaitedKind(u), None)
    ensures (forall ws | Reorders(ws, u) :: ModeIn(p, u, ws) == Locked) <==> !SomeDue(p, u, WaitedKind(u), None)
  {
    var kind := WaitedKind(u);
    forall ws | Reorders(ws, u)
      ensures ModeIn(p, u, ws) == Recovering || ModeIn(p, u, ws) == Locked
      ensures AllDue(p, u, kind, None) ==> ModeIn(p, u, ws) == Recovering
      ensures ModeIn(p, u, ws) == Recovering ==> SomeDue(p, u, kind, None)
    {
      SingleModeByPick(p, u, ws);
      PickInAnyOrder(p, u, ws, kind, None);
    }
    assert Reorders(u.windows, u);
    hide Blocked1, ModeIn, WaitedKind;
    hide *;
    SomeOrderLocks(p, u);
    if SomeDue(p, u, kind, None) {
      var w := DueWindow(p, u, kind, None);
      var ws := SingleOrder(p, u, w);
    }
  }

  lemma SingleOrder(p: Presenter, u: ProviderUsage, w: QuotaWindow) returns (ws: seq<QuotaWindow>)
    requires Blocked1(p, u) && LeastCounting(u.windows, w, WaitedKind(u), None)
    ensures Reorders(ws, u) && ModeIn(p, u, ws) == if WindowDue(p, u, w) then Recovering else Locked
  {
    hide *;
    var kind := WaitedKind(u);
    var order, rest := PutFirst(u, w, kind, None);
    ws := order;
    var v := u.(windows := ws);
    SingleModeByPick(p, u, ws);
    SamePick(ws, u, w, kind, None);
    DueInAnyOrder(p, u, ws, w);
    assert ws == [] + [w] + rest;
    PickedIsDue(p, v, [], w, rest, kind, None);
  }

  lemma PutFirst(u: ProviderUsage, w: QuotaWindow, kind: WindowKind, tag: Option<PoolTag>)
    returns (ws: seq<QuotaWindow>, rest: seq<QuotaWindow>)
    requires LeastCounting(u.windows, w, kind, tag)
    ensures ws == [w] + rest && Reorders(ws, u)
  {
    hide Counts;
    rest := ToFront(u.windows, w);
    ws := [w] + rest;
  }

  lemma SomeOrderLocks(p: Presenter, u: ProviderUsage)
    requires Blocked1(p, u)
    ensures !AllDue(p, u, WaitedKind(u), None) ==> exists ws :: Reorders(ws, u) && ModeIn(p, u, ws) == Locked
  {
    var kind := WaitedKind(u);
    if exists w | w in u.windows :: Counts(w, kind, None) {
      hide Blocked1, ModeIn, WaitedKind, LeastCounting, WindowDue, Counts, Reorders;
      if !AllDue(p, u, kind, None) {
        var w :| w in u.windows && LeastCounting(u.windows, w, kind, None) && !WindowDue(p, u, w);
        var ws := SingleOrder(p, u, w);
      }
    } else {
      assert Reorders(u.windows, u);
      SingleModeByPick(p, u, u.windows);
      PickIsLeast(p, u, kind, None);
      assert u.(windows := u.windows) == u;
      hide Blocked1, ModeIn, WaitedKind, Counts, Pick, Reorders;
      assert ModeIn(p, u, u.windows) == Locked;
    }
  }
}
