/** From windows to the card: the single-pool and the split-pool quota state, and
    the attention rank. Localised texts (`lockReason`, `note`) are left out. */
module QuotaState {
  import opened Wrappers
  import opened QuotaWindows
  import opened QuotaPools

  datatype Mode = Healthy | Credits | Locked | Recovering | Error | Loading

  datatype PoolLock = PoolLock(tag: PoolTag, kind: WindowKind, snapshot: Option<Snapshot>)

  datatype State = State(
    mode: Mode,
    bindingRemaining: real,
    bindingKind: WindowKind,
    bindingTag: Option<PoolTag>,
    fiveHour: Option<Snapshot>,
    weekly: Option<Snapshot>,
    credits: Option<real>,
    creditsEnabled: bool,
    lockResetKind: WindowKind,
    lockSnapshot: Option<Snapshot>,
    blockedPools: seq<PoolLock>
  )

  /** Foundation's `Date.distantFuture` (the start of the year 4001), in seconds
      since 1970. */
  const DISTANT_FUTURE: real := 64092211200.0

  function ActiveWindow(p: Presenter, u: ProviderUsage, kind: WindowKind): Option<Snapshot> {
    Least(Snapshots(p, u, u.windows, kind, None))
  }

  // -------------------------------------------------------------- split pools

  function OnlyBlocked(pools: seq<PoolQuota>, blocked: bool): seq<PoolQuota> {
    if pools == [] then []
    else if Blocked(pools[0]) == blocked then [pools[0]] + OnlyBlocked(pools[1..], blocked)
    else OnlyBlocked(pools[1..], blocked)
  }

  function LocksOf(pools: seq<PoolQuota>): seq<PoolLock> {
    if pools == [] then []
    else [PoolLock(pools[0].tag, BlockingKind(pools[0]), BlockingSnapshot(pools[0]))] + LocksOf(pools[1..])
  }

  function Recovery(p: Presenter, q: PoolQuota): real {
    var s := BlockingSnapshot(q);
    if s.None? || s.value.idle then DISTANT_FUTURE
    else
      var reset := ParseISODate(p, s.value.window.resetsAt);
      if reset.None? then DISTANT_FUTURE else reset.value
  }

  /** The first pool with the earliest recovery. */
  function Earliest(p: Presenter, pools: seq<PoolQuota>): Option<PoolQuota> {
    if pools == [] then None
    else
      var best := Earliest(p, pools[..|pools| - 1]);
      var q := pools[|pools| - 1];
      if best.None? || Recovery(p, q) < Recovery(p, best.value) then Some(q) else best
  }

  datatype Binding = Binding(snap: Option<Snapshot>, kind: WindowKind)

  function Bind(b: Binding, kind: WindowKind, s: Option<Snapshot>): Binding {
    if s.Some? && (b.snap.None? || s.value.remaining < b.snap.value.remaining) then Binding(s, kind) else b
  }

  /** The least-remaining window over the pools, five-hour before weekly. */
  function BindingOf(pools: seq<PoolQuota>): Binding {
    if pools == [] then Binding(None, FiveHour)
    else
      var q := pools[|pools| - 1];
      Bind(Bind(BindingOf(pools[..|pools| - 1]), FiveHour, q.five), Weekly, q.weekly)
  }

  function SplitMode(p: Presenter, u: ProviderUsage, pools: seq<PoolQuota>): Mode {
    if u.status != "ok" then Error
    else if OnlyBlocked(pools, false) == [] then
      if HasCredits(u) then Credits
      else
        var first := Earliest(p, OnlyBlocked(pools, true));
        if AwaitingReset(p, if first.Some? then BlockingSnapshot(first.value) else None) then Recovering else Locked
    else Healthy
  }

  function SplitState(p: Presenter, u: ProviderUsage, pools: seq<PoolQuota>): State {
    var blocked, alive := OnlyBlocked(pools, true), OnlyBlocked(pools, false);
    var first := Earliest(p, blocked);
    var binding := BindingOf(if alive == [] then pools else alive);
    var mode := SplitMode(p, u, pools);
    State(mode,
          RemainingOr100(binding.snap),
          binding.kind,
          if binding.snap.Some? then binding.snap.value.tag else None,
          ActiveWindow(p, u, FiveHour),
          ActiveWindow(p, u, Weekly),
          GetCredits(u),
          CreditsEnabled(u),
          if first.Some? then BlockingKind(first.value) else FiveHour,
          if mode == Healthy || first.None? then None else BlockingSnapshot(first.value),
          LocksOf(blocked))
  }

  /** The binding loop over pools and, within a pool, over its two windows. */
  method FindBinding(pools: seq<PoolQuota>) returns (bindingSnap: Option<Snapshot>, bindingKind: WindowKind)
    ensures Binding(bindingSnap, bindingKind) == BindingOf(pools)
  {
    bindingSnap, bindingKind := None, FiveHour;
    for i := 0 to |pools|
      invariant Binding(bindingSnap, bindingKind) == BindingOf(pools[..i])
    {
      var sides := [(FiveHour, pools[i].five), (Weekly, pools[i].weekly)];
      ghost var before := Binding(bindingSnap, bindingKind);
      assert pools[..i + 1][..i] == pools[..i];
      for j := 0 to 2
        invariant Binding(bindingSnap, bindingKind) ==
                  if j == 0 then before
                  else if j == 1 then Bind(before, FiveHour, pools[i].five)
                  else Bind(Bind(before, FiveHour, pools[i].five), Weekly, pools[i].weekly)
      {
        var (kind, snap) := sides[j];
        if snap.None? { continue; }
        if bindingSnap.None? || snap.value.remaining < bindingSnap.value.remaining {
          bindingSnap, bindingKind := snap, kind;
        }
      }
    }
    assert pools[..|pools|] == pools;
  }

  // -------------------------------------------------------------- single pool

  function SingleBinding(five: Option<Snapshot>, weekly: Option<Snapshot>): Binding {
    if five.Some? && weekly.Some? then
      if weekly.value.remaining < five.value.remaining then Binding(weekly, Weekly) else Binding(five, FiveHour)
    else if five.Some? then Binding(five, FiveHour)
    else if weekly.Some? then Binding(weekly, Weekly)
    else Binding(None, FiveHour)
  }

  predicate IsDepleted(s: Option<Snapshot>) {
    s.Some? && Depleted(s.value)
  }

  function SingleState(p: Presenter, u: ProviderUsage): State {
    var five, weekly := ActiveWindow(p, u, FiveHour), ActiveWindow(p, u, Weekly);
    var binding := SingleBinding(five, weekly);
    var percentDepleted := IsDepleted(weekly) || IsDepleted(five);
    var depleted := if u.limitReached.Some? then u.limitReached.value else percentDepleted;
    var weekZero := depleted && (IsDepleted(weekly) || (!percentDepleted && binding.kind == Weekly));
    var lock := if weekZero then weekly else five;
    var mode :=
      if u.status == "loading" then Loading
      else if u.status != "ok" then Error
      else if depleted && HasCredits(u) then Credits
      else if depleted then (if AwaitingReset(p, lock) then Recovering else Locked)
      else Healthy;
    State(mode,
          RemainingOr100(binding.snap),
          binding.kind,
          if binding.snap.Some? then binding.snap.value.tag else None,
          five, weekly, GetCredits(u), CreditsEnabled(u),
          if weekZero then Weekly else FiveHour,
          if mode == Healthy then None else lock,
          [])
  }

  function QuotaState(p: Presenter, u: ProviderUsage): State {
    var pools := PoolsOf(p, u);
    if |pools| >= 2 then SplitState(p, u, pools) else SingleState(p, u)
  }

  /** The rank that picks which provider wants attention; lower sorts first. */
  datatype Rank = Finite(value: real) | Greatest

  function AttentionRank(p: Presenter, u: ProviderUsage): Rank {
    var state := QuotaState(p, u);
    match state.mode
    case Error => Finite(-3.0)
    case Locked => Finite(-2.0)
    case Recovering => Finite(-2.0)
    case Credits => Finite(-1.0)
    case Healthy => Finite(state.bindingRemaining)
    case Loading => Greatest
  }

  // ------------------------------------------------ split pools meet the spec

  /** The windows a tag's pool is made of. */
  predicate InPool(w: QuotaWindow, tag: PoolTag) {
    Counts(w, FiveHour, Some(tag)) || Counts(w, Weekly, Some(tag))
  }

  /** A pool is spent when any of its windows is. */
  predicate Spent(u: ProviderUsage, tag: PoolTag) {
    exists w | w in u.windows :: InPool(w, tag) && Remaining(w) <= 0.0
  }

  lemma BlockedMeansSpent(p: Presenter, u: ProviderUsage, tag: PoolTag)
    ensures Blocked(PoolOf(p, u, u.windows, tag)) <==> Spent(u, tag)
  {
    PoolSideIsMinimum(p, u, u.windows, tag, FiveHour);
    PoolSideIsMinimum(p, u, u.windows, tag, Weekly);
    hide Counts, Remaining, Least, Snapshots, TakeSnapshot;
    var q := PoolOf(p, u, u.windows, tag);
    if FiveZero(q) {
      assert InPool(q.five.value.window, tag);
    } else if WeekZero(q) {
      assert InPool(q.weekly.value.window, tag);
    }
  }

  lemma TwoPools(p: Presenter, u: ProviderUsage)
    ensures |PoolsOf(p, u)| <= 2
    ensures |PoolsOf(p, u)| == 2 ==>
              var g, e := PoolOf(p, u, u.windows, GEM), PoolOf(p, u, u.windows, EXT);
              PoolsOf(p, u) == [g, e] && HasWindows(g) && HasWindows(e)
  {
    hide PoolOf;
  }

  lemma OnlyBlockedOfTwo(g: PoolQuota, e: PoolQuota, blocked: bool)
    ensures OnlyBlocked([g, e], blocked) ==
            (if Blocked(g) == blocked then [g] else []) + (if Blocked(e) == blocked then [e] else [])
  {
    hide Blocked;
    assert [g, e][1..] == [e];
    assert [e][1..] == [];
    assert OnlyBlocked([e], blocked) == if Blocked(e) == blocked then [e] else [];
  }

  /** The documented mode: healthy iff some pool is unspent; otherwise credits iff
      there is a positive usable balance; otherwise recovering iff some pool's blocking
      window has an anchored reset that has passed; otherwise locked. Of windows tied
      for the least remaining quota, the pool's window is the first. */
  ghost function DocumentedMode(p: Presenter, u: ProviderUsage): Mode {
    if !Spent(u, GEM) || !Spent(u, EXT) then Healthy
    else if HasCredits(u) then Credits
    else if exists tag: PoolTag :: Due(p, PoolOf(p, u, u.windows, tag)) then Recovering
    else Locked
  }

  predicate Due(p: Presenter, q: PoolQuota) {
    AwaitingReset(p, BlockingSnapshot(q))
  }

  /** A pool that is not due is taken to recover before the one that is: it has no
      readable reset, and the year 4001 it is given has come. */
  predicate Overshadowed(p: Presenter, g: PoolQuota, e: PoolQuota) {
    || (Due(p, e) && !Due(p, g) && Recovery(p, g) <= Recovery(p, e))
    || (Due(p, g) && !Due(p, e) && Recovery(p, e) < Recovery(p, g))
  }

  /** With two pools and a good status, the mode is the documented one, except when
      both pools are spent, no credits are left and a due pool is overshadowed. That
      never happens before the year 4001. */
  lemma SplitModeMeetsSpec(p: Presenter, u: ProviderUsage)
    requires |PoolsOf(p, u)| >= 2 && u.status == "ok"
    ensures var g, e := PoolOf(p, u, u.windows, GEM), PoolOf(p, u, u.windows, EXT);
            QuotaState(p, u).mode == DocumentedMode(p, u) <==>
            !Spent(u, GEM) || !Spent(u, EXT) || HasCredits(u) || !Overshadowed(p, g, e)
    ensures p.now < DISTANT_FUTURE ==> QuotaState(p, u).mode == DocumentedMode(p, u)
  {
    TwoPools(p, u);
    var g, e := PoolOf(p, u, u.windows, GEM), PoolOf(p, u, u.windows, EXT);
    BlockedMeansSpent(p, u, GEM);
    BlockedMeansSpent(p, u, EXT);
    TwoPoolMode(p, u, g, e);
    assert QuotaState(p, u).mode == SplitMode(p, u, [g, e]) by {
      hide PoolOf, SplitMode, PoolsOf;
    }
    DueMeansRecovered(p, g);
    DueMeansRecovered(p, e);
    hide PoolOf, Spent, HasCredits, Due, Recovery, SplitMode, PoolsOf, QuotaState, Blocked;
    assert (exists tag: PoolTag :: Due(p, PoolOf(p, u, u.windows, tag))) <==> Due(p, g) || Due(p, e) by {
      assert Due(p, PoolOf(p, u, u.windows, GEM)) == Due(p, g);
      assert Due(p, PoolOf(p, u, u.windows, EXT)) == Due(p, e);
      forall tag: PoolTag | Due(p, PoolOf(p, u, u.windows, tag)) ensures Due(p, g) || Due(p, e) {
        match tag { case GEM => case EXT => }
      }
    }
  }

  lemma TwoPoolMode(p: Presenter, u: ProviderUsage, g: PoolQuota, e: PoolQuota)
    requires u.status == "ok"
    ensures SplitMode(p, u, [g, e]) ==
            if !Blocked(g) || !Blocked(e) then Healthy
            else if HasCredits(u) then Credits
            else if Due(p, if Recovery(p, e) < Recovery(p, g) then e else g) then Recovering
            else Locked
  {
    OnlyBlockedOfTwo(g, e, false);
    OnlyBlockedOfTwo(g, e, true);
    EarliestOfTwo(p, g, e);
    if Blocked(g) && Blocked(e) {
      assert [g] + [e] == [g, e];
    }
    hide HasCredits, AwaitingReset, BlockingSnapshot, Earliest, OnlyBlocked, Blocked, Recovery;
  }

  lemma EarliestOfTwo(p: Presenter, g: PoolQuota, e: PoolQuota)
    ensures Earliest(p, [g, e]) == Some(if Recovery(p, e) < Recovery(p, g) then e else g)
  {
    hide Recovery;
    assert [g, e][..1] == [g];
    assert [g][..0] == [];
    assert Earliest(p, [g]) == Some(g);
  }

  lemma DueMeansRecovered(p: Presenter, q: PoolQuota)
    ensures Due(p, q) ==> Recovery(p, q) <= p.now
    ensures p.now < DISTANT_FUTURE && Recovery(p, q) <= p.now ==> Due(p, q)
  {
  }

  /** A split card's pools and the fields it takes from them. */
  lemma SplitFields(p: Presenter, u: ProviderUsage)
    requires |PoolsOf(p, u)| >= 2
    ensures var g, e := PoolOf(p, u, u.windows, GEM), PoolOf(p, u, u.windows, EXT);
            && HasWindows(g) && HasWindows(e)
            && QuotaState(p, u) == SplitState(p, u, [g, e])
  {
    TwoPools(p, u);
    hide PoolOf, PoolsOf, SplitState, HasWindows;
  }

  lemma AliveMembers(p: Presenter, u: ProviderUsage, alive: seq<PoolQuota>)
    requires alive == OnlyBlocked([PoolOf(p, u, u.windows, GEM), PoolOf(p, u, u.windows, EXT)], false)
    ensures forall q :: q in alive <==> q == PoolOf(p, u, u.windows, q.tag) && !Spent(u, q.tag)
    ensures forall q | q in alive :: !Blocked(q)
  {
    var g, e := PoolOf(p, u, u.windows, GEM), PoolOf(p, u, u.windows, EXT);
    OnlyBlockedOfTwo(g, e, false);
    BlockedMeansSpent(p, u, GEM);
    BlockedMeansSpent(p, u, EXT);
    assert g.tag == GEM && e.tag == EXT;
    hide PoolOf, OnlyBlocked, Spent, Blocked;
    MembersOfTwo(alive, g, Blocked(g), e, Blocked(e));
    forall q ensures q in alive <==> q == PoolOf(p, u, u.windows, q.tag) && !Spent(u, q.tag) {
      assert q.tag == GEM || q.tag == EXT;
    }
  }

  lemma MembersOfTwo(some: seq<PoolQuota>, g: PoolQuota, gOut: bool, e: PoolQuota, eOut: bool)
    requires some == (if !gOut then [g] else []) + (if !eOut then [e] else [])
    ensures forall q :: q in some <==> (q == g && !gOut) || (q == e && !eOut)
  {
  }

  lemma LocksOfState(p: Presenter, u: ProviderUsage)
    requires |PoolsOf(p, u)| >= 2
    ensures var g, e := PoolOf(p, u, u.windows, GEM), PoolOf(p, u, u.windows, EXT);
            QuotaState(p, u).blockedPools
            == (if Blocked(g) then [LockOf(g)] else []) + (if Blocked(e) then [LockOf(e)] else [])
  {
    SplitFields(p, u);
    var g, e := PoolOf(p, u, u.windows, GEM), PoolOf(p, u, u.windows, EXT);
    OnlyBlockedOfTwo(g, e, true);
    LocksOfTwo(g, e);
    assert SplitState(p, u, [g, e]).blockedPools == LocksOf(OnlyBlocked([g, e], true));
    hide PoolOf, PoolsOf, QuotaState, SplitState, OnlyBlocked, LocksOf, LockOf, Blocked, HasWindows;
  }

  /** The lock list names exactly the spent pools, GEM first, each by the window
      kind that keeps it locked longest. */
  lemma LocksNameSpentPools(p: Presenter, u: ProviderUsage)
    requires |PoolsOf(p, u)| >= 2
    ensures var locks := QuotaState(p, u).blockedPools;
            && |locks| == (if Spent(u, GEM) then 1 else 0) + (if Spent(u, EXT) then 1 else 0)
            && (forall i | 0 <= i < |locks| :: Spent(u, locks[i].tag))
            && (|locks| == 2 ==> locks[0].tag == GEM && locks[1].tag == EXT)
            && forall i | 0 <= i < |locks| :: locks[i].kind == Weekly <==> WeeklySpent(u, locks[i].tag)
  {
    LocksOfState(p, u);
    BlockedMeansSpent(p, u, GEM);
    BlockedMeansSpent(p, u, EXT);
    WeekZeroMeansSpent(p, u, GEM);
    WeekZeroMeansSpent(p, u, EXT);
    hide PoolOf, Spent, WeeklySpent, Blocked, WeekZero, PoolsOf, QuotaState, BlockingSnapshot;
  }

  /** Some weekly window of the tag is spent. */
  predicate WeeklySpent(u: ProviderUsage, tag: PoolTag) {
    exists w | w in u.windows :: Counts(w, Weekly, Some(tag)) && Remaining(w) <= 0.0
  }

  function LockOf(q: PoolQuota): PoolLock {
    PoolLock(q.tag, BlockingKind(q), BlockingSnapshot(q))
  }

  lemma LocksOfTwo(g: PoolQuota, e: PoolQuota)
    ensures LocksOf((if Blocked(g) then [g] else []) + (if Blocked(e) then [e] else []))
            == (if Blocked(g) then [LockOf(g)] else []) + (if Blocked(e) then [LockOf(e)] else [])
  {
    hide BlockingKind, BlockingSnapshot, Blocked;
    assert [g][1..] == [] && [e][1..] == [] && [g, e][1..] == [e];
    assert LocksOf([e]) == [LockOf(e)] && LocksOf([g]) == [LockOf(g)];
    assert [g] + [e] == [g, e];
  }

  lemma WeekZeroMeansSpent(p: Presenter, u: ProviderUsage, tag: PoolTag)
    ensures var q := PoolOf(p, u, u.windows, tag);
            && q.tag == tag
            && (WeekZero(q) <==> WeeklySpent(u, tag))
  {
    PoolSideIsMinimum(p, u, u.windows, tag, Weekly);
    hide Counts, Remaining, Least, Snapshots, TakeSnapshot;
    var q := PoolOf(p, u, u.windows, tag);
    if WeekZero(q) {
      assert Counts(q.weekly.value.window, Weekly, Some(tag));
    }
  }

  // ------------------------------------------------------ single-pool verdict

  /** Some unscoped window of the kind has nothing left. */
  predicate KindSpent(u: ProviderUsage, kind: WindowKind) {
    exists w | w in u.windows :: Counts(w, kind, None) && Remaining(w) <= 0.0
  }

  lemma ActiveWindowIsMinimum(p: Presenter, u: ProviderUsage, kind: WindowKind)
    ensures var a := ActiveWindow(p, u, kind);
            && (a.Some? <==> exists w | w in u.windows :: Counts(w, kind, None))
            && (a.Some? ==> a.value.window in u.windows && Counts(a.value.window, kind, None)
                            && a.value.remaining == Remaining(a.value.window) && a.value.limitReached == u.limitReached)
            && forall w | w in u.windows && Counts(w, kind, None) :: a.Some? && a.value.remaining <= Remaining(w)
  {
    hide NotchWindowKind, NotchWindowTag, IsWindowIdle, Remaining;
    var snaps := Snapshots(p, u, u.windows, kind, None);
    SnapshotsMembers(p, u, u.windows, kind, None);
    LeastIsMinimum(snaps);
    forall w | w in u.windows && Counts(w, kind, None)
      ensures snaps != [] && Least(snaps).value.remaining <= Remaining(w)
    {
      assert TakeSnapshot(p, u, w, kind).value in snaps;
    }
    hide Least, Snapshots;
  }

  /** Some weekly window has less left than every five-hour one. */
  predicate WeeklyTighter(u: ProviderUsage) {
    exists w | w in u.windows ::
      && Counts(w, Weekly, None)
      && forall v | v in u.windows && Counts(v, FiveHour, None) :: Remaining(w) < Remaining(v)
  }

  /** A blocked card waits for the weekly window when that one is spent; when the
      provider says blocked and nothing is spent, for the tighter window. */
  predicate WaitsForWeekly(u: ProviderUsage) {
    KindSpent(u, Weekly) || (!KindSpent(u, FiveHour) && WeeklyTighter(u))
  }

  lemma WeeklyBinds(p: Presenter, u: ProviderUsage)
    ensures var five, weekly := ActiveWindow(p, u, FiveHour), ActiveWindow(p, u, Weekly);
            WeeklyTighter(u) <==>
            weekly.Some? && (five.None? || weekly.value.remaining < five.value.remaining)
  {
    ActiveWindowIsMinimum(p, u, FiveHour);
    ActiveWindowIsMinimum(p, u, Weekly);
    hide ActiveWindow, Counts, Remaining;
    var five, weekly := ActiveWindow(p, u, FiveHour), ActiveWindow(p, u, Weekly);
    if weekly.Some? && (five.None? || weekly.value.remaining < five.value.remaining) {
      assert weekly.value.window in u.windows && Counts(weekly.value.window, Weekly, None);
    }
  }

  lemma KindSpentActive(p: Presenter, u: ProviderUsage, kind: WindowKind)
    ensures var a := ActiveWindow(p, u, kind);
            && (a.Some? ==> a.value.limitReached == u.limitReached)
            && (KindSpent(u, kind) <==> a.Some? && a.value.remaining <= 0.0)
  {
    ActiveWindowIsMinimum(p, u, kind);
    hide ActiveWindow, Counts, Remaining;
  }

  /** On the single-pool path the provider's own verdict decides, and without one
      the card is blocked exactly when some unscoped window is spent. A blocked card
      runs on credits exactly when there is a positive usable balance, and else is
      recovering exactly when the window it waits for, the first of the tied ones, has
      an anchored reset that has passed. */
  lemma SinglePoolVerdict(p: Presenter, u: ProviderUsage)
    requires |PoolsOf(p, u)| < 2 && u.status == "ok"
    ensures var blocked := if u.limitReached.Some? then u.limitReached.value
                           else KindSpent(u, FiveHour) || KindSpent(u, Weekly);
            var waited := ActiveWindow(p, u, if WaitsForWeekly(u) then Weekly else FiveHour);
            QuotaState(p, u).mode ==
            if !blocked then Healthy
            else if HasCredits(u) then Credits
            else if AwaitingReset(p, waited) then Recovering
            else Locked
  {
    KindSpentActive(p, u, FiveHour);
    KindSpentActive(p, u, Weekly);
    WeeklyBinds(p, u);
    hide ActiveWindow, HasCredits, PoolsOf, AwaitingReset, KindSpent, WeeklyTighter;
  }

  // --------------------------------------------------- scoped windows, ranks

  lemma SnapshotsReadMetadataOnly(p: Presenter, u: ProviderUsage, v: ProviderUsage, ws: seq<QuotaWindow>,
                                  kind: WindowKind, tag: Option<PoolTag>)
    requires u == v.(windows := u.windows)
    ensures Snapshots(p, u, ws, kind, tag) == Snapshots(p, v, ws, kind, tag)
  {
    hide Counts, NotchWindowTag, Remaining, NotchWindowKind;
    if ws != [] {
      SnapshotsReadMetadataOnly(p, u, v, ws[..|ws| - 1], kind, tag);
    }
  }

  lemma UnscopedSnapshots(p: Presenter, u: ProviderUsage, kind: WindowKind, tag: Option<PoolTag>)
    ensures var v := u.(windows := WithoutScoped(u.windows));
            Snapshots(p, v, v.windows, kind, tag) == Snapshots(p, u, u.windows, kind, tag)
  {
    var v := u.(windows := WithoutScoped(u.windows));
    SnapshotsReadMetadataOnly(p, u, v, v.windows, kind, tag);
    ScopedNeverCount(p, u, u.windows, kind, tag);
    hide Snapshots, WithoutScoped;
  }

  lemma UnscopedPools(p: Presenter, u: ProviderUsage)
    ensures PoolsOf(p, u.(windows := WithoutScoped(u.windows))) == PoolsOf(p, u)
  {
    UnscopedSnapshots(p, u, FiveHour, Some(GEM));
    UnscopedSnapshots(p, u, Weekly, Some(GEM));
    UnscopedSnapshots(p, u, FiveHour, Some(EXT));
    UnscopedSnapshots(p, u, Weekly, Some(EXT));
    hide Snapshots, Least, WithoutScoped;
  }

  lemma UnscopedActive(p: Presenter, u: ProviderUsage, kind: WindowKind)
    ensures ActiveWindow(p, u.(windows := WithoutScoped(u.windows)), kind) == ActiveWindow(p, u, kind)
  {
    UnscopedSnapshots(p, u, kind, None);
    hide Snapshots, Least, WithoutScoped;
  }

  lemma UnscopedCredits(u: ProviderUsage)
    ensures var v := u.(windows := WithoutScoped(u.windows));
            GetCredits(v) == GetCredits(u) && CreditsEnabled(v) == CreditsEnabled(u)
  {
    ScopedHoldNoCredits(u.windows);
    hide WithoutScoped;
  }

  /** Scoped windows never influence the card or its rank, for any provider. */
  lemma ScopedWindowsDoNotInterfere(p: Presenter, u: ProviderUsage)
    ensures var v := u.(windows := WithoutScoped(u.windows));
            QuotaState(p, v) == QuotaState(p, u) && AttentionRank(p, v) == AttentionRank(p, u)
  {
    var v := u.(windows := WithoutScoped(u.windows));
    UnscopedPools(p, u);
    UnscopedActive(p, u, FiveHour);
    UnscopedActive(p, u, Weekly);
    UnscopedCredits(u);
    hide WithoutScoped, PoolsOf, ActiveWindow, GetCredits, CreditsEnabled;
    StatesReadParts(p, u, v, PoolsOf(p, u));
    hide SplitState, SingleState;
    assert QuotaState(p, v) == QuotaState(p, u);
    hide QuotaState;
  }

  /** Both states are functions of the provider's metadata, its two active
      windows, its credits and its pools. */
  lemma StatesReadParts(p: Presenter, u: ProviderUsage, v: ProviderUsage, pools: seq<PoolQuota>)
    requires u.status == v.status && u.limitReached == v.limitReached
    requires ActiveWindow(p, v, FiveHour) == ActiveWindow(p, u, FiveHour)
    requires ActiveWindow(p, v, Weekly) == ActiveWindow(p, u, Weekly)
    requires GetCredits(v) == GetCredits(u) && CreditsEnabled(v) == CreditsEnabled(u)
    ensures SplitState(p, v, pools) == SplitState(p, u, pools)
    ensures SingleState(p, v) == SingleState(p, u)
  {
    hide ActiveWindow, GetCredits, CreditsEnabled, AwaitingReset, OnlyBlocked;
    hide Earliest, BindingOf, LocksOf, IsDepleted, SingleBinding;
  }
}
