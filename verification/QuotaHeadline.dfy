/** What a quota card shows besides its mode, from the raw windows: the headline
    number and its window, the window a blocked card waits for, the credits that keep
    it running, and the rank all this gives the provider. */
module QuotaHeadline {
  import opened Wrappers
  import opened QuotaWindows
  import opened QuotaPools
  import opened Q = QuotaState
  import opened QuotaOrder

  /** `x` percent are left of a window, none when it is used up or overdrawn. */
  predicate HasLeft(w: QuotaWindow, x: real) {
    w.usedPercent.Some? && x == if w.usedPercent.value >= 100.0 then 0.0 else 100.0 - w.usedPercent.value
  }

  lemma RemainingIsLeft(w: QuotaWindow)
    requires w.usedPercent.Some?
    ensures forall x :: HasLeft(w, x) <==> x == Remaining(w)
  {
  }

  /** `s` shows the first window of the kind (and tag, if given) with the least left. */
  predicate Shows(p: Presenter, u: ProviderUsage, s: Option<Snapshot>, kind: WindowKind, tag: Option<PoolTag>) {
    if s.None? then forall w | w in u.windows :: !Counts(w, kind, tag)
    else
      && LeastCounting(u.windows, s.value.window, kind, tag)
      && HasLeft(s.value.window, s.value.remaining)
      && s.value.kind == kind && s.value.tag == NotchWindowTag(s.value.window)
  }

  lemma PickShows(p: Presenter, u: ProviderUsage, kind: WindowKind, tag: Option<PoolTag>)
    ensures Shows(p, u, Pick(p, u, kind, tag), kind, tag)
  {
    PickIsLeast(p, u, kind, tag);
    var pick := Pick(p, u, kind, tag);
    SnapshotsMembers(p, u, u.windows, kind, tag);
    LeastIsMinimum(Snapshots(p, u, u.windows, kind, tag));
    if pick.Some? {
      assert TakeSnapshot(p, u, pick.value.window, kind) == pick;
      RemainingIsLeft(pick.value.window);
    }
    hide NotchWindowKind, NotchWindowTag, IsWindowIdle, Remaining, Least, Snapshots, Counts, HasLeft;
  }

  /** Nothing that counts has less left than the window shown. */
  lemma ShownIsLeast(p: Presenter, u: ProviderUsage, s: Option<Snapshot>, kind: WindowKind, tag: Option<PoolTag>)
    requires Shows(p, u, s, kind, tag)
    ensures s.Some? ==> && s.value.window in u.windows && Counts(s.value.window, kind, tag)
                        && HasLeft(s.value.window, s.value.remaining) && s.value.tag == NotchWindowTag(s.value.window)
    ensures forall w, x | w in u.windows && Counts(w, kind, tag) && HasLeft(w, x) :: s.Some? && s.value.remaining <= x
    ensures s.None? <==> forall w | w in u.windows :: !Counts(w, kind, tag)
  {
    assert s.Some? ==> LeastCounting(u.windows, s.value.window, kind, tag);
    forall w, x | w in u.windows && Counts(w, kind, tag) && HasLeft(w, x)
      ensures s.Some? && s.value.remaining <= x
    {
      RemainingIsLeft(w);
      RemainingIsLeft(s.value.window);
    }
    hide NotchWindowKind, NotchWindowTag, HasLeft;
  }

  // ------------------------------------------------------- the single-pool headline

  /** The single-pool card's number is the least left of all its windows, of either
      kind, or 100 without one; and it is a weekly window's exactly when one has less
      than every five-hour window. */
  lemma SingleHeadline(p: Presenter, u: ProviderUsage)
    requires |PoolsOf(p, u)| < 2
    ensures var st := Q.QuotaState(p, u);
            && (st.bindingKind == Weekly <==> WeeklyTighter(u))
            && ((forall w, kind: WindowKind | w in u.windows :: !Counts(w, kind, None)) ==>
                  st.bindingRemaining == 100.0 && st.bindingTag == None)
            && (forall w, kind: WindowKind | w in u.windows && Counts(w, kind, None) ::
                  exists v | v in u.windows ::
                    && Counts(v, st.bindingKind, None) && HasLeft(v, st.bindingRemaining)
                    && NotchWindowTag(v) == st.bindingTag)
            && forall w, kind: WindowKind, x | w in u.windows && Counts(w, kind, None) && HasLeft(w, x) ::
                 st.bindingRemaining <= x
  {
    var five, weekly := Pick(p, u, FiveHour, None), Pick(p, u, Weekly, None);
    PickShows(p, u, FiveHour, None);
    PickShows(p, u, Weekly, None);
    ShownIsLeast(p, u, five, FiveHour, None);
    ShownIsLeast(p, u, weekly, Weekly, None);
    WeeklyBinds(p, u);
    var st := Q.QuotaState(p, u);
    SingleBindingFields(p, u);
    hide *;
    forall w, kind: WindowKind | w in u.windows && Counts(w, kind, None)
      ensures SingleBinding(five, weekly).snap.Some?
    {
      assert kind == FiveHour || kind == Weekly;
    }
    forall w, kind: WindowKind, x | w in u.windows && Counts(w, kind, None) && HasLeft(w, x)
      ensures st.bindingRemaining <= x
    {
      assert kind == FiveHour || kind == Weekly;
    }
  }

  lemma SingleBindingFields(p: Presenter, u: ProviderUsage)
    requires |PoolsOf(p, u)| < 2
    ensures var st, b := Q.QuotaState(p, u), SingleBinding(Pick(p, u, FiveHour, None), Pick(p, u, Weekly, None));
            && st.bindingKind == b.kind
            && (if b.snap.Some? then st.bindingRemaining == b.snap.value.remaining && st.bindingTag == b.snap.value.tag
                else st.bindingRemaining == 100.0 && st.bindingTag == None)
  {
    hide PoolsOf, AwaitingReset, HasCredits, Least, Snapshots, IsDepleted, SingleBinding;
  }

  /** The single-pool card's other fields: the window of each kind with the least left,
      and, unless the card is healthy, the one of the kind it waits for. */
  lemma SingleLock(p: Presenter, u: ProviderUsage)
    requires |PoolsOf(p, u)| < 2
    ensures var st := Q.QuotaState(p, u);
            var blocked := if u.limitReached.Some? then u.limitReached.value
                           else KindSpent(u, FiveHour) || KindSpent(u, Weekly);
            && st.lockResetKind == (if blocked && WaitsForWeekly(u) then Weekly else FiveHour)
            && (if st.mode == Healthy then st.lockSnapshot == None
                else Shows(p, u, st.lockSnapshot, st.lockResetKind, None))
            && Shows(p, u, st.fiveHour, FiveHour, None) && Shows(p, u, st.weekly, Weekly, None)
            && st.blockedPools == []
  {
    PickShows(p, u, FiveHour, None);
    PickShows(p, u, Weekly, None);
    KindSpentActive(p, u, FiveHour);
    KindSpentActive(p, u, Weekly);
    WeeklyBinds(p, u);
    hide PoolsOf, AwaitingReset, HasCredits, Least, Snapshots, Shows, KindSpent, WeeklyTighter;
  }

  // ------------------------------------------------------- the split-pool headline

  function Side(q: PoolQuota, kind: WindowKind): Option<Snapshot> {
    if kind == FiveHour then q.five else q.weekly
  }

  /** Of two sides of pools, the one looked at first. */
  predicate Before(tag: PoolTag, kind: WindowKind, tag': PoolTag, kind': WindowKind) {
    (tag == GEM && tag' == EXT) || (tag == tag' && kind == FiveHour && kind' == Weekly)
  }

  /** `b` is the first of the pools' sides with the least left. */
  predicate FirstSide(pools: seq<PoolQuota>, b: Binding) {
    && (b.snap.Some? ==> exists q | q in pools :: Side(q, b.kind) == b.snap && b.snap.value.tag == Some(q.tag))
    && (forall q, kind: WindowKind | q in pools && Side(q, kind).Some? ::
          && b.snap.Some? && b.snap.value.remaining <= Side(q, kind).value.remaining
          && (b.snap.value.remaining == Side(q, kind).value.remaining && b.snap.value.tag.Some? ==>
                !Before(q.tag, kind, b.snap.value.tag.value, b.kind)))
  }

  predicate OwnTags(q: PoolQuota) {
    (q.five.Some? ==> q.five.value.tag == Some(q.tag)) && (q.weekly.Some? ==> q.weekly.value.tag == Some(q.tag))
  }

  lemma BindingOfOne(q: PoolQuota)
    requires OwnTags(q)
    ensures FirstSide([q], BindingOf([q]))
  {
    assert [q][..0] == [];
    assert BindingOf([q]) == Bind(Bind(Binding(None, FiveHour), FiveHour, q.five), Weekly, q.weekly);
  }

  lemma BindingOfTwo(g: PoolQuota, e: PoolQuota)
    requires OwnTags(g) && OwnTags(e) && g.tag == GEM && e.tag == EXT
    ensures FirstSide([g, e], BindingOf([g, e]))
  {
    BindingOfOne(g);
    assert [g, e][..1] == [g];
    var b := BindingOf([g]);
    var r := Bind(Bind(b, FiveHour, e.five), Weekly, e.weekly);
    assert BindingOf([g, e]) == r;
    hide BindingOf;
    assert r.snap == e.five || r.snap == e.weekly || r.snap == b.snap;
    assert g in [g, e] && e in [g, e];
  }

  lemma FirstSideOfAlive(g: PoolQuota, e: PoolQuota, alive: seq<PoolQuota>)
    requires OwnTags(g) && OwnTags(e) && g.tag == GEM && e.tag == EXT && HasWindows(g) && HasWindows(e)
    requires alive == (if !Blocked(g) then [g] else []) + (if !Blocked(e) then [e] else []) && alive != []
    ensures FirstSide(alive, BindingOf(alive)) && BindingOf(alive).snap.Some?
  {
    assert alive[0] == g || alive[0] == e;
    assert alive == [g, e] || alive == [g] || alive == [e];
    hide Blocked, BindingOf;
    if alive == [g, e] {
      BindingOfTwo(g, e);
    } else {
      BindingOfOne(alive[0]);
    }
  }

  lemma SidesOwnTags(p: Presenter, u: ProviderUsage, tag: PoolTag)
    ensures OwnTags(PoolOf(p, u, u.windows, tag)) && PoolOf(p, u, u.windows, tag).tag == tag
  {
    PoolSideIsMinimum(p, u, u.windows, tag, FiveHour);
    PoolSideIsMinimum(p, u, u.windows, tag, Weekly);
    hide Least, Snapshots, Counts, Remaining;
  }

  lemma HealthyBinding(p: Presenter, u: ProviderUsage, pools: seq<PoolQuota>)
    requires SplitState(p, u, pools).mode == Healthy
    ensures var alive := OnlyBlocked(pools, false);
            var st, b := SplitState(p, u, pools), BindingOf(alive);
            && alive != [] && st.bindingKind == b.kind
            && (b.snap.Some? ==> st.bindingRemaining == b.snap.value.remaining && st.bindingTag == b.snap.value.tag)
  {
    hide OnlyBlocked, BindingOf, LocksOf, Earliest, AwaitingReset, HasCredits, ActiveWindow, GetCredits, CreditsEnabled;
  }

  lemma SideShows(p: Presenter, u: ProviderUsage, tag: PoolTag, kind: WindowKind)
    ensures Shows(p, u, Side(PoolOf(p, u, u.windows, tag), kind), kind, Some(tag))
  {
    PickShows(p, u, kind, Some(tag));
    hide Shows, Snapshots, Least;
  }

  /** The unspent pools of a healthy split card. */
  function Alive(p: Presenter, u: ProviderUsage): seq<PoolQuota> {
    OnlyBlocked([PoolOf(p, u, u.windows, GEM), PoolOf(p, u, u.windows, EXT)], false)
  }

  lemma AliveBinding(p: Presenter, u: ProviderUsage)
    requires |PoolsOf(p, u)| >= 2 && Q.QuotaState(p, u).mode == Healthy
    ensures var st, b := Q.QuotaState(p, u), BindingOf(Alive(p, u));
            && FirstSide(Alive(p, u), b) && b.snap.Some?
            && st.bindingRemaining == b.snap.value.remaining && st.bindingTag == b.snap.value.tag
            && st.bindingKind == b.kind
  {
    var g, e := PoolOf(p, u, u.windows, GEM), PoolOf(p, u, u.windows, EXT);
    assert Alive(p, u) == OnlyBlocked([g, e], false);
    hide *;
    SplitFields(p, u);
    HealthyBinding(p, u, [g, e]);
    OnlyBlockedOfTwo(g, e, false);
    SidesOwnTags(p, u, GEM);
    SidesOwnTags(p, u, EXT);
    FirstSideOfAlive(g, e, Alive(p, u));
  }

  lemma AliveAre(p: Presenter, u: ProviderUsage)
    ensures forall q :: q in Alive(p, u) <==> q == PoolOf(p, u, u.windows, q.tag) && !Spent(u, q.tag)
  {
    AliveMembers(p, u, Alive(p, u));
    hide *;
  }

  lemma NamesItsWindow(p: Presenter, u: ProviderUsage, b: Binding)
    requires FirstSide(Alive(p, u), b) && b.snap.Some?
    ensures var s := b.snap.value;
            && s.tag.Some? && !Spent(u, s.tag.value) && s.remaining > 0.0
            && s.window in u.windows && Counts(s.window, b.kind, s.tag) && HasLeft(s.window, s.remaining)
  {
    AliveAre(p, u);
    var q :| q in Alive(p, u) && Side(q, b.kind) == b.snap && b.snap.value.tag == Some(q.tag);
    hide Alive, PoolOf, Counts, HasLeft, Shows, Remaining, Before;
    SideShows(p, u, q.tag, b.kind);
    ShownIsLeast(p, u, b.snap, b.kind, Some(q.tag));
    var w := b.snap.value.window;
    assert w.usedPercent.Some? by { assert Counts(w, b.kind, Some(q.tag)); }
    RemainingIsLeft(w);
    assert InPool(w, q.tag);
  }

  lemma NothingBefore(p: Presenter, u: ProviderUsage, b: Binding, w: QuotaWindow, kind: WindowKind, tag: PoolTag,
                      x: real)
    requires FirstSide(Alive(p, u), b) && b.snap.Some? && b.snap.value.tag.Some?
    requires w in u.windows && Counts(w, kind, Some(tag)) && !Spent(u, tag) && HasLeft(w, x)
    ensures b.snap.value.remaining <= x
    ensures x == b.snap.value.remaining ==> !Before(tag, kind, b.snap.value.tag.value, b.kind)
  {
    var q := PoolOf(p, u, u.windows, tag);
    AliveAre(p, u);
    PoolKeepsTag(p, u, u.windows, tag);
    assert q in Alive(p, u);
    hide Alive, PoolOf, Spent, Counts, HasLeft, Shows, Before;
    SideShows(p, u, tag, kind);
    ShownIsLeast(p, u, Side(q, kind), kind, Some(tag));
    assert Side(q, kind).Some? && Side(q, kind).value.remaining <= x;
  }

  /** A healthy split card's number is positive, the least left of the windows of its unspent
      pools, and of several with as much left it names the first: GEM before EXT, and
      five-hour before weekly. */
  lemma SplitHeadline(p: Presenter, u: ProviderUsage)
    requires |PoolsOf(p, u)| >= 2 && Q.QuotaState(p, u).mode == Healthy
    ensures var st := Q.QuotaState(p, u);
            && st.bindingRemaining > 0.0
            && st.bindingTag.Some? && !Spent(u, st.bindingTag.value)
            && (exists w | w in u.windows ::
                  Counts(w, st.bindingKind, st.bindingTag) && HasLeft(w, st.bindingRemaining))
            && forall w, kind: WindowKind, tag: PoolTag, x |
                 w in u.windows && Counts(w, kind, Some(tag)) && !Spent(u, tag) && HasLeft(w, x) ::
                 && st.bindingRemaining <= x
                 && (x == st.bindingRemaining ==> !Before(tag, kind, st.bindingTag.value, st.bindingKind))
  {
    var b := BindingOf(Alive(p, u));
    hide *;
    AliveBinding(p, u);
    NamesItsWindow(p, u, b);
    forall w, kind: WindowKind, tag: PoolTag, x |
      w in u.windows && Counts(w, kind, Some(tag)) && !Spent(u, tag) && HasLeft(w, x)
      ensures b.snap.value.remaining <= x
      ensures x == b.snap.value.remaining ==> !Before(tag, kind, b.snap.value.tag.value, b.kind)
    {
      NothingBefore(p, u, b, w, kind, tag, x);
    }
  }

  // ------------------------------------------------------------ locks of two pools

  /** When the window shown resets: the year 4001 if it has no anchored, readable reset. */
  function ResetsAt(p: Presenter, s: Option<Snapshot>): real {
    if s.Some? && !s.value.idle && s.value.window.resetsAt.Some? && p.parse(s.value.window.resetsAt.value).Some?
    then p.parse(s.value.window.resetsAt.value).value else DISTANT_FUTURE
  }

  /** The lock that ends first; of two that end together, the one listed first. */
  predicate EndsFirst(p: Presenter, locks: seq<PoolLock>, i: nat) {
    && i < |locks|
    && forall j | 0 <= j < |locks| && j != i ::
         if j < i then ResetsAt(p, locks[i].snapshot) < ResetsAt(p, locks[j].snapshot)
         else ResetsAt(p, locks[i].snapshot) <= ResetsAt(p, locks[j].snapshot)
  }

  /** A split card lists the window each spent pool waits for, and unless it is healthy
      counts down to the lock that ends first. */
  lemma SplitLocks(p: Presenter, u: ProviderUsage, i: nat)
    requires |PoolsOf(p, u)| >= 2
    ensures var st := Q.QuotaState(p, u);
            && (forall lock | lock in st.blockedPools ::
                  && lock.kind == BlockKind(u, lock.tag)
                  && Shows(p, u, lock.snapshot, lock.kind, Some(lock.tag)))
            && (EndsFirst(p, st.blockedPools, i) ==>
                  && st.lockResetKind == st.blockedPools[i].kind
                  && st.lockSnapshot == if st.mode == Healthy then None else st.blockedPools[i].snapshot)
            && (st.blockedPools == [] ==> st.lockResetKind == FiveHour && st.lockSnapshot == None)
  {
    var g, e := PoolOf(p, u, u.windows, GEM), PoolOf(p, u, u.windows, EXT);
    hide *;
    LocksOfState(p, u);
    LockShows(p, u, GEM);
    LockShows(p, u, EXT);
    LockFields(p, u);
    EarliestLock(p, g, e, i);
  }

  lemma LockShows(p: Presenter, u: ProviderUsage, tag: PoolTag)
    ensures var lock := LockOf(PoolOf(p, u, u.windows, tag));
            && lock.tag == tag && lock.kind == BlockKind(u, tag)
            && Shows(p, u, lock.snapshot, lock.kind, Some(tag))
  {
    PoolWaitsForPick(p, u, tag);
    WeekZeroMeansSpent(p, u, tag);
    PickShows(p, u, BlockKind(u, tag), Some(tag));
    hide WeeklySpent, Least, Snapshots, WeekZero, Shows, Pick, BlockingSnapshot;
  }

  lemma LockFields(p: Presenter, u: ProviderUsage)
    requires |PoolsOf(p, u)| >= 2
    ensures var st := Q.QuotaState(p, u);
            var first := Earliest(p, OnlyBlocked([PoolOf(p, u, u.windows, GEM), PoolOf(p, u, u.windows, EXT)], true));
            && st.lockResetKind == (if first.Some? then LockOf(first.value).kind else FiveHour)
            && st.lockSnapshot == if st.mode == Healthy || first.None? then None else LockOf(first.value).snapshot
  {
    hide *;
    SplitFields(p, u);
    StateLock(p, u, [PoolOf(p, u, u.windows, GEM), PoolOf(p, u, u.windows, EXT)]);
  }

  lemma StateLock(p: Presenter, u: ProviderUsage, pools: seq<PoolQuota>)
    ensures var st, first := SplitState(p, u, pools), Earliest(p, OnlyBlocked(pools, true));
            && st.lockResetKind == (if first.Some? then LockOf(first.value).kind else FiveHour)
            && st.lockSnapshot == if st.mode == Healthy || first.None? then None else LockOf(first.value).snapshot
  {
    hide OnlyBlocked, Earliest, BindingOf, LocksOf, ActiveWindow, SplitMode, GetCredits, CreditsEnabled, BlockingKind;
    hide BlockingSnapshot;
  }

  lemma RecoveryIsReset(p: Presenter, q: PoolQuota)
    ensures Recovery(p, q) == ResetsAt(p, LockOf(q).snapshot)
  {
  }

  lemma EarliestLock(p: Presenter, g: PoolQuota, e: PoolQuota, i: nat)
    ensures var first := Earliest(p, OnlyBlocked([g, e], true));
            var locks := (if Blocked(g) then [LockOf(g)] else []) + (if Blocked(e) then [LockOf(e)] else []);
            && (first.None? <==> locks == [])
            && (EndsFirst(p, locks, i) ==> first.Some? && LockOf(first.value) == locks[i])
  {
    OnlyBlockedOfTwo(g, e, true);
    EarliestOfTwo(p, g, e);
    RecoveryIsReset(p, g);
    RecoveryIsReset(p, e);
    EarliestOfOne(p, g);
    EarliestOfOne(p, e);
    hide ResetsAt, Recovery, LockOf, Blocked, Earliest, OnlyBlocked;
    assert [g] + [] == [g] && [] + [e] == [e] && [g] + [e] == [g, e];
    if Blocked(g) && Blocked(e) {
      var locks := [LockOf(g)] + [LockOf(e)];
      assert locks[0] == LockOf(g) && locks[1] == LockOf(e);
    }
  }

  lemma EarliestOfOne(p: Presenter, q: PoolQuota)
    ensures Earliest(p, [q]) == Some(q) && Earliest(p, []) == None
  {
    assert [q][..0] == [];
  }

  // ------------------------------------------------------------------------ credits

  /** The provider's credits window is the first with that key. */
  predicate IsCredits(ws: seq<QuotaWindow>, i: nat) {
    i < |ws| && ws[i].key == Some("ai_credits") && forall j | 0 <= j < i :: ws[j].key != Some("ai_credits")
  }

  lemma {:induction false} FirstCreditsIs(ws: seq<QuotaWindow>)
    ensures FirstCredits(ws).None? ==> forall i | 0 <= i < |ws| :: ws[i].key != Some("ai_credits")
    ensures FirstCredits(ws).Some? ==> exists i: nat :: IsCredits(ws, i) && FirstCredits(ws).value == ws[i]
  {
    if ws != [] {
      var front, last := ws[..|ws| - 1], ws[|ws| - 1];
      FirstCreditsIs(front);
      if FirstCredits(front).Some? {
        var i: nat :| IsCredits(front, i) && FirstCredits(front).value == front[i];
        assert IsCredits(ws, i);
      } else if last.key == Some("ai_credits") {
        assert forall j | 0 <= j < |front| :: ws[j] == front[j];
        assert IsCredits(ws, |front|);
      } else {
        assert forall j | 0 <= j < |front| :: ws[j] == front[j];
      }
    }
  }

  /** The balance shown is the credits window's, and credits keep a card running
      exactly when that is positive and, for Claude, spending it is enabled. */
  lemma CreditsDecided(p: Presenter, u: ProviderUsage)
    ensures HasCredits(u) <==> exists i: nat :: IsCredits(u.windows, i) && Usable(u, u.windows[i])
    ensures Q.QuotaState(p, u).creditsEnabled <==> exists i: nat :: IsCredits(u.windows, i) && Usable(u, u.windows[i])
    ensures forall i: nat | IsCredits(u.windows, i) :: Q.QuotaState(p, u).credits == u.windows[i].remaining
    ensures (forall i: nat :: !IsCredits(u.windows, i)) ==> Q.QuotaState(p, u).credits == None
  {
    FirstCreditsIs(u.windows);
    CreditFields(p, u);
    hide FirstCredits, Q.QuotaState;
    CreditsAreOne(u.windows);
  }

  lemma CreditsAreOne(ws: seq<QuotaWindow>)
    ensures forall i: nat, j: nat | IsCredits(ws, i) && IsCredits(ws, j) :: i == j
  {
    forall i: nat, j: nat | IsCredits(ws, i) && j < i ensures !IsCredits(ws, j) {
      assert ws[j].key != Some("ai_credits");
    }
  }

  lemma CreditFields(p: Presenter, u: ProviderUsage)
    ensures Q.QuotaState(p, u).credits == GetCredits(u) && Q.QuotaState(p, u).creditsEnabled == CreditsEnabled(u)
  {
    hide PoolsOf, ActiveWindow, GetCredits, CreditsEnabled, OnlyBlocked, Earliest, BindingOf, LocksOf, SplitMode;
    hide SingleBinding, IsDepleted, AwaitingReset, HasCredits;
  }

  // --------------------------------------------------------------------------- rank

  predicate RankLess(a: Rank, b: Rank) {
    a.Finite? && (b.Greatest? || a.value < b.value)
  }

  /** The windows a healthy card draws its number from. */
  predicate Drawn(p: Presenter, u: ProviderUsage, w: QuotaWindow, kind: WindowKind) {
    && w in u.windows
    && if |PoolsOf(p, u)| < 2 then Counts(w, kind, None)
       else exists tag: PoolTag :: Counts(w, kind, Some(tag)) && !Spent(u, tag)
  }

  /** `x` is the least left of them, or 100 when there is none. */
  ghost predicate LeastLeft(p: Presenter, u: ProviderUsage, x: real) {
    && (forall w, kind: WindowKind, y | Drawn(p, u, w, kind) && HasLeft(w, y) :: x <= y)
    && ((x == 100.0 && forall w, kind: WindowKind :: !Drawn(p, u, w, kind))
        || exists w, kind: WindowKind :: Drawn(p, u, w, kind) && HasLeft(w, x))
  }

  lemma DrawnSingle(p: Presenter, u: ProviderUsage)
    requires |PoolsOf(p, u)| < 2
    ensures forall w, kind: WindowKind :: Drawn(p, u, w, kind) <==> w in u.windows && Counts(w, kind, None)
  {
    hide PoolsOf, Counts;
  }

  lemma DrawnSplit(p: Presenter, u: ProviderUsage)
    requires |PoolsOf(p, u)| >= 2
    ensures forall w, kind: WindowKind, tag: PoolTag ::
              w in u.windows && Counts(w, kind, Some(tag)) && !Spent(u, tag) ==> Drawn(p, u, w, kind)
    ensures forall w, kind: WindowKind :: Drawn(p, u, w, kind) ==>
              w in u.windows && exists tag: PoolTag :: Counts(w, kind, Some(tag)) && !Spent(u, tag)
  {
    hide PoolsOf, Counts, Spent;
  }

  lemma SingleIsLeast(p: Presenter, u: ProviderUsage)
    requires |PoolsOf(p, u)| < 2
    ensures LeastLeft(p, u, Q.QuotaState(p, u).bindingRemaining)
  {
    var st := Q.QuotaState(p, u);
    hide Q.QuotaState, PoolsOf, Counts, HasLeft, WeeklyTighter, NotchWindowTag, Drawn;
    SingleHeadline(p, u);
    DrawnSingle(p, u);
    if w, kind: WindowKind :| Drawn(p, u, w, kind) {
      var v :| v in u.windows && Counts(v, st.bindingKind, None) && HasLeft(v, st.bindingRemaining);
      assert Drawn(p, u, v, st.bindingKind);
    }
  }

  lemma SplitIsLeast(p: Presenter, u: ProviderUsage)
    requires |PoolsOf(p, u)| >= 2 && Q.QuotaState(p, u).mode == Healthy
    ensures LeastLeft(p, u, Q.QuotaState(p, u).bindingRemaining)
  {
    var st := Q.QuotaState(p, u);
    hide Q.QuotaState, PoolsOf, Counts, HasLeft, Spent, Before, Drawn;
    SplitHeadline(p, u);
    DrawnSplit(p, u);
    var v :| v in u.windows && Counts(v, st.bindingKind, st.bindingTag) && HasLeft(v, st.bindingRemaining);
    assert Drawn(p, u, v, st.bindingKind);
  }

  lemma HeadlineIsLeast(p: Presenter, u: ProviderUsage)
    requires Q.QuotaState(p, u).mode == Healthy
    ensures LeastLeft(p, u, Q.QuotaState(p, u).bindingRemaining)
  {
    hide *;
    if |PoolsOf(p, u)| < 2 {
      SingleIsLeast(p, u);
    } else {
      SplitIsLeast(p, u);
    }
  }

  lemma LeastLeftIsOne(p: Presenter, u: ProviderUsage, x: real, y: real)
    requires LeastLeft(p, u, x) && LeastLeft(p, u, y)
    ensures x == y
  {
    hide Drawn, HasLeft;
  }

  /** A healthy provider's rank is the least left of its windows; so of two healthy
      ones, the one with less left comes first. */
  lemma HealthyRank(p: Presenter, a: ProviderUsage, b: ProviderUsage, x: real, y: real)
    requires Q.QuotaState(p, a).mode == Healthy && Q.QuotaState(p, b).mode == Healthy
    requires LeastLeft(p, a, x) && LeastLeft(p, b, y)
    ensures AttentionRank(p, a) == Finite(x)
    ensures RankLess(AttentionRank(p, a), AttentionRank(p, b)) <==> x < y
  {
    HeadlineIsLeast(p, a);
    HeadlineIsLeast(p, b);
    LeastLeftIsOne(p, a, x, Q.QuotaState(p, a).bindingRemaining);
    LeastLeftIsOne(p, b, y, Q.QuotaState(p, b).bindingRemaining);
    hide Q.QuotaState, LeastLeft;
  }

  lemma LeastLeftIsNoDebt(p: Presenter, u: ProviderUsage, x: real)
    requires LeastLeft(p, u, x)
    ensures x >= 0.0
  {
    hide Drawn;
  }

  /** Where a mode stands: broken, then blocked, then kept running by credits, then
      healthy, and loading last. */
  function Place(mode: Mode): nat {
    match mode
    case Error => 0
    case Locked => 1
    case Recovering => 1
    case Credits => 2
    case Healthy => 3
    case Loading => 4
  }

  /** Providers rank by that first; two blocked ones rank alike. */
  lemma BlockedOutranksHealthy(p: Presenter, a: ProviderUsage, b: ProviderUsage)
    ensures var x, y := Place(Q.QuotaState(p, a).mode), Place(Q.QuotaState(p, b).mode);
            && (x < y ==> RankLess(AttentionRank(p, a), AttentionRank(p, b)))
            && (x == y && x != 3 ==> AttentionRank(p, a) == AttentionRank(p, b))
  {
    if Q.QuotaState(p, b).mode == Healthy {
      HeadlineIsLeast(p, b);
      LeastLeftIsNoDebt(p, b, Q.QuotaState(p, b).bindingRemaining);
    }
    hide Q.QuotaState;
  }
}
