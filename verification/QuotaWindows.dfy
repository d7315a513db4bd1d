/** Raw quota windows, their classification, and the snapshots the presenter
    works on. Percentages and instants are reals; ISO 8601 parsing is an
    arbitrary pure partial function held by the presenter. */
module QuotaWindows {
  import opened Text
  import opened Wrappers

  datatype QuotaWindow = QuotaWindow(
    key: Option<string>,
    title: Option<string>, // the `label` of the source
    usedPercent: Option<real>,
    resetsAt: Option<string>,
    windowMinutes: Option<int>,
    remaining: Option<real>,
    total: Option<real>,
    enabled: Option<bool>
  )

  datatype ResetCredits = ResetCredits(count: int, expiries: seq<real>)

  datatype ProviderUsage = ProviderUsage(
    provider: string,
    status: string,
    windows: seq<QuotaWindow>,
    fetchedAt: Option<string>,
    limitReached: Option<bool>,
    resets: Option<ResetCredits>
  )

  datatype WindowKind = FiveHour | Weekly

  datatype PoolTag = GEM | EXT

  datatype Snapshot = Snapshot(
    window: QuotaWindow,
    kind: WindowKind,
    remaining: real,
    limitReached: Option<bool>,
    tag: Option<PoolTag>,
    idle: bool
  )

  /** The presenter's only inputs besides the provider. */
  datatype Presenter = Presenter(now: real, parse: string -> Option<real>)

  function OrEmpty(s: Option<string>): string {
    if s.Some? then s.value else ""
  }

  predicate IsScoped(w: QuotaWindow) {
    HasPrefix(OrEmpty(w.key), "scoped_")
  }

  function Haystack(w: QuotaWindow): string {
    Lower(OrEmpty(w.key)) + " " + Lower(OrEmpty(w.title))
  }

  function NotchWindowKind(w: QuotaWindow): Option<WindowKind> {
    var hay := Haystack(w);
    if IsScoped(w) then None
    else if Contains(hay, "5h") || Contains(hay, "5-hour") || Contains(hay, "5 hour") then Some(FiveHour)
    else if Contains(hay, "7d") || Contains(hay, "weekly") || Contains(hay, "week") then Some(Weekly)
    else if w.windowMinutes.Some? && w.windowMinutes.value > 0 then
      Some(if w.windowMinutes.value <= 720 then FiveHour else Weekly)
    else None
  }

  function NotchWindowTag(w: QuotaWindow): Option<PoolTag> {
    var hay := Haystack(w);
    if Contains(hay, "external") || Contains(hay, "claude/gpt") then Some(EXT)
    else if Contains(hay, "gemini") then Some(GEM)
    else None
  }

  function ParseISODate(p: Presenter, s: Option<string>): Option<real> {
    if s.None? then None else p.parse(s.value)
  }

  /** An unanchored window keeps reporting a reset one full length from now. */
  predicate IsWindowIdle(p: Presenter, w: QuotaWindow, fetchedAt: Option<string>) {
    if Trim(OrEmpty(w.resetsAt), Blank) == "" then
      (if w.usedPercent.Some? then w.usedPercent.value else 0.0) <= 5.0
    else
      var reset, fetched := ParseISODate(p, w.resetsAt), ParseISODate(p, fetchedAt);
      && w.windowMinutes.Some? && w.windowMinutes.value > 0 && reset.Some? && fetched.Some?
      && var length := w.windowMinutes.value as real * 60.0;
         var span := reset.value - fetched.value;
         length - 15.0 <= span <= length + 15.0
  }

  function Remaining(w: QuotaWindow): real
    requires w.usedPercent.Some?
  {
    if 100.0 - w.usedPercent.value > 0.0 then 100.0 - w.usedPercent.value else 0.0
  }

  function TakeSnapshot(p: Presenter, u: ProviderUsage, w: QuotaWindow, kind: WindowKind): Option<Snapshot> {
    if w.usedPercent.None? then None
    else Some(Snapshot(w, kind, Remaining(w), u.limitReached, NotchWindowTag(w), IsWindowIdle(p, w, u.fetchedAt)))
  }

  predicate Depleted(s: Snapshot) {
    s.remaining <= 0.0 && s.limitReached != Some(false)
  }

  predicate AwaitingReset(p: Presenter, s: Option<Snapshot>) {
    && s.Some? && !s.value.idle
    && var reset := ParseISODate(p, s.value.window.resetsAt);
       reset.Some? && reset.value <= p.now
  }

  // ---------------------------------------------- least-remaining selection

  /** The snapshots of the windows of one kind (and, when given, one tag), in
      window order. */
  function Snapshots(p: Presenter, u: ProviderUsage, ws: seq<QuotaWindow>, kind: WindowKind,
                     tag: Option<PoolTag>): seq<Snapshot> {
    if ws == [] then []
    else
      var before := Snapshots(p, u, ws[..|ws| - 1], kind, tag);
      var w := ws[|ws| - 1];
      if Counts(w, kind, tag) then before + [TakeSnapshot(p, u, w, kind).value] else before
  }

  predicate Counts(w: QuotaWindow, kind: WindowKind, tag: Option<PoolTag>) {
    && NotchWindowKind(w) == Some(kind) && w.usedPercent.Some?
    && (tag.Some? ==> NotchWindowTag(w) == tag)
  }

  /** The first snapshot with the least remaining quota. */
  function Least(snaps: seq<Snapshot>): Option<Snapshot> {
    if snaps == [] then None
    else
      var best := Least(snaps[..|snaps| - 1]);
      var s := snaps[|snaps| - 1];
      if best.None? || s.remaining < best.value.remaining then Some(s) else best
  }

  lemma {:induction false} LeastIsMinimum(snaps: seq<Snapshot>)
    ensures Least(snaps).None? <==> snaps == []
    ensures snaps != [] ==> Least(snaps).value in snaps
    ensures forall s | s in snaps :: Least(snaps).value.remaining <= s.remaining
  {
    if snaps != [] {
      var front := snaps[..|snaps| - 1];
      LeastIsMinimum(front);
      assert snaps == front + [snaps[|snaps| - 1]];
    }
  }

  lemma {:induction false} LeastPrefersTheFirst(snaps: seq<Snapshot>)
    requires snaps != [] && forall s | s in snaps :: snaps[0].remaining <= s.remaining
    ensures Least(snaps) == Some(snaps[0])
  {
    if |snaps| > 1 {
      var front := snaps[..|snaps| - 1];
      assert front[0] == snaps[0] && forall s | s in front :: s in snaps;
      LeastPrefersTheFirst(front);
      assert snaps[|snaps| - 1] in snaps;
    } else {
      assert snaps[..0] == [];
    }
  }

  /** Membership in the snapshot list, window by window. */
  lemma {:induction false} SnapshotsMembers(p: Presenter, u: ProviderUsage, ws: seq<QuotaWindow>, kind: WindowKind,
                                            tag: Option<PoolTag>)
    ensures forall w | w in ws && Counts(w, kind, tag) ::
              TakeSnapshot(p, u, w, kind).value in Snapshots(p, u, ws, kind, tag)
    ensures forall s | s in Snapshots(p, u, ws, kind, tag) ::
              s.window in ws && Counts(s.window, kind, tag) && TakeSnapshot(p, u, s.window, kind) == Some(s)
  {
    hide NotchWindowKind, NotchWindowTag, IsWindowIdle, Remaining;
    if ws != [] {
      var front, w := ws[..|ws| - 1], ws[|ws| - 1];
      SnapshotsMembers(p, u, front, kind, tag);
      assert ws == front + [w];
    }
  }

  lemma {:induction false} SnapshotsConcat(p: Presenter, u: ProviderUsage, a: seq<QuotaWindow>, b: seq<QuotaWindow>,
                                           kind: WindowKind, tag: Option<PoolTag>)
    ensures Snapshots(p, u, a + b, kind, tag) == Snapshots(p, u, a, kind, tag) + Snapshots(p, u, b, kind, tag)
    decreases |b|
  {
    hide Counts, TakeSnapshot;
    if b == [] {
      assert a + b == a;
    } else {
      var ab := a + b;
      assert ab[..|ab| - 1] == a + b[..|b| - 1] && ab[|ab| - 1] == b[|b| - 1];
      SnapshotsConcat(p, u, a, b[..|b| - 1], kind, tag);
    }
  }

  function WithoutScoped(ws: seq<QuotaWindow>): seq<QuotaWindow> {
    if ws == [] then []
    else
      var front := WithoutScoped(ws[..|ws| - 1]);
      if IsScoped(ws[|ws| - 1]) then front else front + [ws[|ws| - 1]]
  }

  /** Scoped windows never reach a snapshot list. */
  lemma {:induction false} ScopedNeverCount(p: Presenter, u: ProviderUsage, ws: seq<QuotaWindow>, kind: WindowKind,
                                            tag: Option<PoolTag>)
    ensures Snapshots(p, u, WithoutScoped(ws), kind, tag) == Snapshots(p, u, ws, kind, tag)
  {
    if ws != [] {
      var front, w := ws[..|ws| - 1], ws[|ws| - 1];
      ScopedNeverCount(p, u, front, kind, tag);
      ScopedHasNoKind(w);
      if !IsScoped(w) {
        var kept := WithoutScoped(front);
        assert (kept + [w])[..|kept|] == kept;
      }
      hide IsScoped, NotchWindowKind, NotchWindowTag, TakeSnapshot;
    }
  }

  lemma ScopedHasNoKind(w: QuotaWindow)
    ensures IsScoped(w) ==> NotchWindowKind(w) == None
  {
  }

  // -------------------------------------------------------------- credits

  function FirstCredits(ws: seq<QuotaWindow>): Option<QuotaWindow> {
    if ws == [] then None
    else
      var before := FirstCredits(ws[..|ws| - 1]);
      if before.Some? then before
      else if ws[|ws| - 1].key == Some("ai_credits") then Some(ws[|ws| - 1]) else None
  }

  function GetCredits(u: ProviderUsage): Option<real> {
    var w := FirstCredits(u.windows);
    if w.Some? then w.value.remaining else None
  }

  predicate CreditsEnabled(u: ProviderUsage) {
    var w := FirstCredits(u.windows);
    && w.Some? && (if w.value.remaining.Some? then w.value.remaining.value else 0.0) > 0.0
    && (u.provider != "claude" || w.value.enabled == Some(true))
  }

  predicate HasCredits(u: ProviderUsage) {
    (if GetCredits(u).Some? then GetCredits(u).value else 0.0) > 0.0 && CreditsEnabled(u)
  }

  lemma CreditsAreNotScoped(w: QuotaWindow)
    requires w.key == Some("ai_credits")
    ensures !IsScoped(w)
  {
    assert "ai_credits"[0] != "scoped_"[0];
  }

  lemma {:induction false} ScopedHoldNoCredits(ws: seq<QuotaWindow>)
    ensures FirstCredits(WithoutScoped(ws)) == FirstCredits(ws)
  {
    if ws != [] {
      var front, w := ws[..|ws| - 1], ws[|ws| - 1];
      ScopedHoldNoCredits(front);
      if w.key == Some("ai_credits") {
        CreditsAreNotScoped(w);
      }
      hide IsScoped;
      var kept := WithoutScoped(front);
      assert (kept + [w])[..|kept|] == kept;
    }
  }
}
